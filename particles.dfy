/**
 The particle and cell records (`particle_t`, `MATRIX`), the initial draw
 of a particle, and the sums over a sequence of particles that specify the
 grid: the mass and mass moment of each cell, the total mass, and the
 system's mass moment.
 */
module Particles {
  import opened Torus
  import opened Gravity

  /** `particle_t`: position, velocity, mass and the cached cell indices. */
  datatype Particle = Particle(x: real, y: real, vx: real, vy: real, m: real, ix: int, jy: int)

  /** `MATRIX`: one grid cell's mass and centre-of-mass accumulators. */
  datatype Cell = Cell(mass: real, cmx: real, cmy: real)

  /** The empty cell that calloc provides. */
  const EmptyCell := Cell(0.0, 0.0, 0.0)

  /** The two axes; the source repeats each per-axis loop once per axis. */
  datatype Axis = X | Y

  /** The five successive deviates in [0,1) that initialise one particle. */
  datatype Draw = Draw(x: real, y: real, vx: real, vy: real, m: real)

  function Coord(p: Particle, axis: Axis): real
  {
    match axis
    case X => p.x
    case Y => p.y
  }

  function CellCoord(c: Cell, axis: Axis): real
  {
    match axis
    case X => c.cmx
    case Y => c.cmy
  }

  /** m * coordinate: one particle's contribution to a mass moment. */
  function Weight(p: Particle, axis: Axis): real
  {
    p.m * Coord(p, axis)
  }

  predicate UnitDraw(d: Draw)
  {
    && 0.0 <= d.x < 1.0 && 0.0 <= d.y < 1.0
    && 0.0 <= d.vx < 1.0 && 0.0 <= d.vy < 1.0
    && 0.0 <= d.m < 1.0
  }

  /**
   One iteration of the initialisation loop: position straight from the
   deviates, velocity scaled down by 10 * ncside, mass scaled by
   ncside / (G * 1e6 * n_part); the cell indices keep calloc's zero.
   */
  function Seeded(d: Draw, ncside: int, npart: int): (p: Particle)
    requires ncside > 0 && npart > 0 && UnitDraw(d)
    ensures 0.0 <= p.x < 1.0 && 0.0 <= p.y < 1.0
    ensures p.x == d.x && p.y == d.y
    ensures 0.0 <= p.vx && p.vx * (10.0 * ncside as real) == d.vx
    ensures 0.0 <= p.vy && p.vy * (10.0 * ncside as real) == d.vy
    ensures p.m * (G * 1e6 * npart as real) == d.m * ncside as real
    ensures p.m >= 0.0 && (p.m > 0.0 <==> d.m > 0.0)
    ensures p.ix == 0 && p.jy == 0
  {
    var n := ncside as real;
    var mass := d.m * n / (G * 1e6 * npart as real);
    assert d.m > 0.0 ==> d.m * n > 0.0;
    Particle(d.x, d.y, d.vx / n / 10.0, d.vy / n / 10.0, mass, 0, 0)
  }

  predicate OnTorus(p: Particle)
  {
    0.0 <= p.x < 1.0 && 0.0 <= p.y < 1.0
  }

  predicate AllOnTorus(ps: seq<Particle>)
  {
    forall k :: 0 <= k < |ps| ==> OnTorus(ps[k])
  }

  predicate AllPositive(ps: seq<Particle>)
  {
    forall k :: 0 <= k < |ps| ==> ps[k].m > 0.0
  }

  /** The particle lies in cell (i, j) of an ncside-wide grid. */
  predicate InCell(p: Particle, i: int, j: int, ncside: int)
  {
    CellIndex(p.x, ncside) == i && CellIndex(p.y, ncside) == j
  }

  /** The particle's cached indices are those of its position. */
  predicate Indexed(p: Particle, ncside: int)
  {
    p.ix == CellIndex(p.x, ncside) && p.jy == CellIndex(p.y, ncside)
  }

  predicate AllIndexed(ps: seq<Particle>, ncside: int)
  {
    forall k :: 0 <= k < |ps| ==> Indexed(ps[k], ncside)
  }

  /** The assignment of `ix` and `jy` from the position. */
  function Located(p: Particle, ncside: int): (q: Particle)
    ensures Indexed(q, ncside)
    ensures q.x == p.x && q.y == p.y && q.vx == p.vx && q.vy == p.vy && q.m == p.m
    ensures OnTorus(p) && ncside > 0 ==> 0 <= q.ix < ncside && 0 <= q.jy < ncside
  {
    p.(ix := CellIndex(p.x, ncside), jy := CellIndex(p.y, ncside))
  }

  function Velocity(p: Particle, axis: Axis): real
  {
    match axis
    case X => p.vx
    case Y => p.vy
  }

  /**
   One particle's velocity phase along `axis` under the increment f: the
   velocity grows by f, the coordinate moves by the new velocity plus f / 2
   and is wrapped back into [0,1); nothing else changes.
   */
  function Moved(p: Particle, axis: Axis, f: real): (q: Particle)
    ensures Velocity(q, axis) == Velocity(p, axis) + f
    ensures 0.0 <= Coord(q, axis) < 1.0
    ensures Coord(q, axis) == Frac(Coord(p, axis) + Velocity(q, axis) + f * 0.5)
    ensures q.m == p.m && q.ix == p.ix && q.jy == p.jy
    ensures axis == X ==> q.y == p.y && q.vy == p.vy
    ensures axis == Y ==> q.x == p.x && q.vx == p.vx
    ensures OnTorus(p) ==> OnTorus(q)
  {
    match axis
    case X =>
      var v := p.vx + f;
      p.(vx := v, x := Frac(p.x + v + f * 0.5))
    case Y =>
      var v := p.vy + f;
      p.(vy := v, y := Frac(p.y + v + f * 0.5))
  }

  /** A free particle: each coordinate advances by its velocity on the unit circle. */
  function Drifted(p: Particle): Particle
  {
    p.(x := Frac(p.x + p.vx), y := Frac(p.y + p.vy))
  }

  /** A coordinate a after `steps` free steps of velocity v on the unit circle. */
  function Orbit(a: real, v: real, steps: nat): real
  {
    Frac(a + steps as real * v)
  }

  /** The particle after `steps` free steps from p. */
  function Ballistic(p: Particle, steps: nat): Particle
  {
    p.(x := Orbit(p.x, p.vx, steps), y := Orbit(p.y, p.vy, steps))
  }

  /** With a zero increment on both axes a velocity phase pair is a free step. */
  lemma UnforcedIsDrift(p: Particle)
    ensures Moved(Moved(p, X, 0.0), Y, 0.0) == Drifted(p)
  {
    var q := Moved(p, X, 0.0);
    assert q == p.(x := Frac(p.x + p.vx));
  }

  /**
   One more free step after `steps` free steps gives `steps + 1` free steps:
   the wrap can be taken once at the end.
   */
  lemma BallisticStep(p: Particle, steps: nat)
    ensures Drifted(Ballistic(p, steps)) == Ballistic(p, steps + 1)
  {
    OrbitStep(p.x, p.vx, steps);
    OrbitStep(p.y, p.vy, steps);
  }

  lemma OrbitStep(a: real, v: real, steps: nat)
    ensures Frac(Orbit(a, v, steps) + v) == Orbit(a, v, steps + 1)
  {
    var n, n1 := steps as real, (steps + 1) as real;
    assert Orbit(a, v, steps) == Frac(a + n * v);
    assert Orbit(a, v, steps + 1) == Frac(a + n1 * v);
    FreeStep(a, v, n, n1);
  }

  /** On the unit circle, n wrapped steps of v and one more are n + 1 steps. */
  lemma FreeStep(a: real, v: real, n: real, n1: real)
    requires n1 == n + 1.0
    ensures Frac(Frac(a + n * v) + v) == Frac(a + n1 * v)
  {
    var before := a + n * v;
    var after := a + n1 * v;
    OneMoreStep(a, n, n1, v);
    assert before + v == after;
    FracShift(before, v);
  }

  lemma OneMoreStep(a: real, n: real, n1: real, v: real)
    requires n1 == n + 1.0
    ensures a + n * v + v == a + n1 * v
  {
  }

  /** Zero free steps leave a particle on the torus where it is. */
  lemma BallisticZero(p: Particle)
    requires OnTorus(p)
    ensures Ballistic(p, 0) == p
  {
    FracOfUnit(p.x);
    FracOfUnit(p.y);
  }

  /**
   A particle that has drifted for l iterations (and was located, when
   l > 0) and then drifts and is located once more has drifted l + 1 times.
   */
  lemma DriftMore(p0: Particle, q: Particle, l: nat, ncside: int)
    requires OnTorus(p0)
    requires q == if l == 0 then p0 else Located(Ballistic(p0, l), ncside)
    ensures Located(Drifted(q), ncside) == Located(Ballistic(p0, l + 1), ncside)
  {
    BallisticStep(p0, l);
    if l == 0 {
      BallisticZero(p0);
    }
  }

  /** The particles after l free iterations from init, located in their cells once l > 0. */
  function Trajectory(init: seq<Particle>, l: nat, ncside: int): (ps: seq<Particle>)
    ensures |ps| == |init|
  {
    if l == 0 then init else seq(|init|, k requires 0 <= k < |init| => Located(Ballistic(init[k], l), ncside))
  }

  /** One more free iteration of every particle extends the trajectory by one step. */
  lemma TrajectoryStep(init: seq<Particle>, prev: seq<Particle>, cur: seq<Particle>, l: nat, ncside: int)
    requires AllOnTorus(init) && prev == Trajectory(init, l, ncside) && |cur| == |prev|
    requires forall k :: 0 <= k < |cur| ==> cur[k] == Located(Drifted(prev[k]), ncside)
    ensures cur == Trajectory(init, l + 1, ncside)
  {
    forall k | 0 <= k < |cur| ensures cur[k] == Trajectory(init, l + 1, ncside)[k] {
      DriftMore(init[k], prev[k], l, ncside);
    }
  }

  /** Sum of the particles' masses. */
  function TotalMass(ps: seq<Particle>): (r: real)
    ensures AllPositive(ps) ==> r >= 0.0 && (|ps| > 0 ==> r > 0.0)
  {
    if ps == [] then 0.0 else TotalMass(ps[..|ps| - 1]) + ps[|ps| - 1].m
  }

  /** Sum of m * coordinate over the particles. */
  function Moment(ps: seq<Particle>, axis: Axis): real
  {
    if ps == [] then 0.0 else Moment(ps[..|ps| - 1], axis) + Weight(ps[|ps| - 1], axis)
  }

  /** Sequences of particles that agree in every mass have the same total mass. */
  lemma {:induction false} TotalMassOfMasses(ps: seq<Particle>, qs: seq<Particle>)
    requires |ps| == |qs| && forall k :: 0 <= k < |ps| ==> ps[k].m == qs[k].m
    ensures TotalMass(ps) == TotalMass(qs)
  {
    if ps != [] {
      TotalMassOfMasses(ps[..|ps| - 1], qs[..|qs| - 1]);
    }
  }

  /** Sum of the masses of the particles in cell (i, j). */
  function CellMass(ps: seq<Particle>, i: int, j: int, ncside: int): (r: real)
    ensures AllPositive(ps) ==> 0.0 <= r <= TotalMass(ps)
  {
    if ps == [] then 0.0
    else
      var p := ps[|ps| - 1];
      CellMass(ps[..|ps| - 1], i, j, ncside) + (if InCell(p, i, j, ncside) then p.m else 0.0)
  }

  /** Sum of m * coordinate over the particles in cell (i, j). */
  function CellMoment(ps: seq<Particle>, i: int, j: int, ncside: int, axis: Axis): real
  {
    if ps == [] then 0.0
    else
      var p := ps[|ps| - 1];
      CellMoment(ps[..|ps| - 1], i, j, ncside, axis) + (if InCell(p, i, j, ncside) then Weight(p, axis) else 0.0)
  }

  /** The true centre of mass of cell (i, j); 0 for an empty cell. */
  function CellCentre(ps: seq<Particle>, i: int, j: int, ncside: int, axis: Axis): real
  {
    var mass := CellMass(ps, i, j, ncside);
    if mass == 0.0 then 0.0 else CellMoment(ps, i, j, ncside, axis) / mass
  }

  /**
   What the single-pass re-aggregation leaves in a cell's centre: each
   particle adds m * coordinate divided by the cell's mass accumulated so far
   (including its own), not by the cell's final mass.
   */
  function RunningCentre(ps: seq<Particle>, i: int, j: int, ncside: int, axis: Axis): real
    requires AllPositive(ps)
  {
    if ps == [] then 0.0
    else
      var p := ps[|ps| - 1];
      var rest := ps[..|ps| - 1];
      RunningCentre(rest, i, j, ncside, axis)
        + (if InCell(p, i, j, ncside) then Weight(p, axis) / CellMass(ps, i, j, ncside) else 0.0)
  }

  /** The system centre as the source accumulates it: sum of m * coordinate / total. */
  function ScaledMoment(ps: seq<Particle>, axis: Axis, total: real): real
    requires ps != [] ==> total != 0.0
  {
    if ps == [] then 0.0 else ScaledMoment(ps[..|ps| - 1], axis, total) + Weight(ps[|ps| - 1], axis) / total
  }

  /** Sum of CellMass over columns 0 .. b-1 of row i. */
  function RowCellMass(ps: seq<Particle>, i: int, b: nat, ncside: int): real
  {
    if b == 0 then 0.0 else RowCellMass(ps, i, b - 1, ncside) + CellMass(ps, i, b - 1, ncside)
  }

  /** Sum of CellMass over rows 0 .. a-1 of the ncside-wide grid. */
  function GridCellMass(ps: seq<Particle>, a: nat, ncside: nat): real
  {
    if a == 0 then 0.0 else GridCellMass(ps, a - 1, ncside) + RowCellMass(ps, a - 1, ncside, ncside)
  }

  lemma {:induction false} RowCellMassSnoc(ps: seq<Particle>, p: Particle, i: int, b: nat, ncside: int)
    ensures RowCellMass(ps + [p], i, b, ncside)
      == RowCellMass(ps, i, b, ncside)
         + (if CellIndex(p.x, ncside) == i && 0 <= CellIndex(p.y, ncside) < b then p.m else 0.0)
  {
    assert (ps + [p])[..|ps|] == ps;
    if b > 0 {
      RowCellMassSnoc(ps, p, i, b - 1, ncside);
    }
  }

  lemma {:induction false} GridCellMassSnoc(ps: seq<Particle>, p: Particle, a: nat, ncside: nat)
    ensures GridCellMass(ps + [p], a, ncside)
      == GridCellMass(ps, a, ncside)
         + (if 0 <= CellIndex(p.x, ncside) < a && 0 <= CellIndex(p.y, ncside) < ncside then p.m else 0.0)
  {
    if a > 0 {
      GridCellMassSnoc(ps, p, a - 1, ncside);
      RowCellMassSnoc(ps, p, a - 1, ncside, ncside);
    }
  }

  /** Mass conservation: the cells' masses add up to the particles' total mass. */
  lemma {:induction false} MassConservation(ps: seq<Particle>, ncside: nat)
    requires ncside > 0 && AllOnTorus(ps)
    ensures GridCellMass(ps, ncside, ncside) == TotalMass(ps)
  {
    if ps != [] {
      var rest, p := ps[..|ps| - 1], ps[|ps| - 1];
      assert ps == rest + [p];
      assert AllOnTorus(rest) && OnTorus(p);
      MassConservation(rest, ncside);
      GridCellMassSnoc(rest, p, ncside, ncside);
      assert 0 <= CellIndex(p.x, ncside) < ncside && 0 <= CellIndex(p.y, ncside) < ncside;
      assert GridCellMass(ps, ncside, ncside) == GridCellMass(rest, ncside, ncside) + p.m;
      assert TotalMass(ps) == TotalMass(rest) + p.m;
    } else {
      EmptyGridMass(ps, ncside, ncside);
    }
  }

  lemma {:induction false} EmptyRowMass(ps: seq<Particle>, i: int, b: nat, ncside: int)
    requires ps == []
    ensures RowCellMass(ps, i, b, ncside) == 0.0
  {
    if b > 0 {
      EmptyRowMass(ps, i, b - 1, ncside);
    }
  }

  lemma {:induction false} EmptyGridMass(ps: seq<Particle>, a: nat, ncside: nat)
    requires ps == []
    ensures GridCellMass(ps, a, ncside) == 0.0
  {
    if a > 0 {
      EmptyGridMass(ps, a - 1, ncside);
      EmptyRowMass(ps, a - 1, ncside, ncside);
    }
  }

  /** A particle's own mass is part of its cell's mass. */
  lemma {:induction false} CellMassCovers(ps: seq<Particle>, k: int, ncside: int)
    requires AllPositive(ps) && 0 <= k < |ps|
    ensures CellMass(ps, CellIndex(ps[k].x, ncside), CellIndex(ps[k].y, ncside), ncside) >= ps[k].m > 0.0
  {
    var i, j := CellIndex(ps[k].x, ncside), CellIndex(ps[k].y, ncside);
    var rest := ps[..|ps| - 1];
    assert AllPositive(rest);
    if k < |ps| - 1 {
      assert rest[k] == ps[k];
      CellMassCovers(rest, k, ncside);
    }
  }

  /** A cell no particle lies in has mass and moment 0. */
  lemma {:induction false} VacantCell(ps: seq<Particle>, i: int, j: int, ncside: int, axis: Axis)
    requires forall k :: 0 <= k < |ps| ==> !InCell(ps[k], i, j, ncside)
    ensures CellMass(ps, i, j, ncside) == 0.0 && CellMoment(ps, i, j, ncside, axis) == 0.0
  {
    if ps != [] {
      VacantCell(ps[..|ps| - 1], i, j, ncside, axis);
    }
  }

  /** Dividing every term by `total` is dividing the sum by `total`. */
  lemma {:induction false} ScaledMomentIsQuotient(ps: seq<Particle>, axis: Axis, total: real)
    requires total != 0.0
    ensures ScaledMoment(ps, axis, total) == Moment(ps, axis) / total
  {
    if ps != [] {
      var rest, p := ps[..|ps| - 1], ps[|ps| - 1];
      ScaledMomentIsQuotient(rest, axis, total);
      DivAdd(Moment(rest, axis), Weight(p, axis), total);
    }
  }

  /** Adding a mass m > 0 at a coordinate c in [0,1) keeps the moment below the mass. */
  lemma AddBelowMass(mom: real, total: real, m: real, c: real)
    requires 0.0 <= mom <= total && m > 0.0 && 0.0 <= c < 1.0
    ensures 0.0 <= mom + m * c < total + m
  {
  }

  /** With positive masses on the torus the moment lies in [0, total mass). */
  lemma {:induction false} MomentBounds(ps: seq<Particle>, axis: Axis)
    requires AllPositive(ps) && AllOnTorus(ps)
    ensures 0.0 <= Moment(ps, axis) <= TotalMass(ps)
    ensures |ps| > 0 ==> Moment(ps, axis) < TotalMass(ps)
  {
    if ps != [] {
      var rest, p := ps[..|ps| - 1], ps[|ps| - 1];
      assert AllPositive(rest) && AllOnTorus(rest);
      MomentBounds(rest, axis);
      assert OnTorus(p) && p.m > 0.0;
      AddBelowMass(Moment(rest, axis), TotalMass(rest), p.m, Coord(p, axis));
    }
  }

  lemma QuotientInUnit(a: real, t: real)
    requires 0.0 <= a < t
    ensures 0.0 <= a / t < 1.0
  {
    assert a / t * t == a;
  }

  /** The system centre of mass of positive masses on the torus lies in [0,1). */
  lemma SystemCentreInUnit(ps: seq<Particle>, axis: Axis)
    requires AllPositive(ps) && AllOnTorus(ps) && |ps| > 0
    ensures 0.0 <= ScaledMoment(ps, axis, TotalMass(ps)) < 1.0
  {
    var total := TotalMass(ps);
    ScaledMomentIsQuotient(ps, axis, total);
    MomentBounds(ps, axis);
    QuotientInUnit(Moment(ps, axis), total);
  }

  /** Appending a particle adds its mass and moment to its own cell only. */
  lemma CellSnoc(ps: seq<Particle>, p: Particle, i: int, j: int, ncside: int, axis: Axis)
    ensures CellMass(ps + [p], i, j, ncside) == CellMass(ps, i, j, ncside) + (if InCell(p, i, j, ncside) then p.m else 0.0)
    ensures CellMoment(ps + [p], i, j, ncside, axis)
         == CellMoment(ps, i, j, ncside, axis) + (if InCell(p, i, j, ncside) then Weight(p, axis) else 0.0)
  {
    assert (ps + [p])[..|ps|] == ps;
  }

  /**
   The centre accumulator of cell (i, j) after the particles `done` of the
   centre pass have been added, each divided by the cell's final mass `mass`.
   */
  function PartialCentre(done: seq<Particle>, i: int, j: int, ncside: int, axis: Axis, mass: real): real
  {
    if mass == 0.0 then 0.0 else CellMoment(done, i, j, ncside, axis) / mass
  }

  /** Division by a nonzero mass distributes over a sum. */
  lemma DivAdd(a: real, b: real, mass: real)
    requires mass != 0.0
    ensures (a + b) / mass == a / mass + b / mass
  {
  }

  /** Adding one particle to the centre pass adds m * coordinate / mass to its own cell only. */
  lemma PartialCentreSnoc(done: seq<Particle>, p: Particle, i: int, j: int, ncside: int, axis: Axis, mass: real)
    requires InCell(p, i, j, ncside) ==> mass != 0.0
    ensures PartialCentre(done + [p], i, j, ncside, axis, mass)
         == PartialCentre(done, i, j, ncside, axis, mass) + (if InCell(p, i, j, ncside) then Weight(p, axis) / mass else 0.0)
  {
    CellSnoc(done, p, i, j, ncside, axis);
    if mass != 0.0 && InCell(p, i, j, ncside) {
      DivAdd(CellMoment(done, i, j, ncside, axis), Weight(p, axis), mass);
    }
  }

  /** A cell after the mass pass over the particles `done`: their mass, centres still 0. */
  function MassPass(done: seq<Particle>, i: int, j: int, ncside: int): Cell
  {
    Cell(CellMass(done, i, j, ncside), 0.0, 0.0)
  }

  /** The mass pass adds a particle's mass to its own cell only. */
  lemma MassPassSnoc(done: seq<Particle>, p: Particle, i: int, j: int, ncside: int)
    requires Indexed(p, ncside)
    ensures MassPass(done + [p], i, j, ncside)
         == if p.ix == i && p.jy == j then MassPass(done, i, j, ncside).(mass := MassPass(done, i, j, ncside).mass + p.m)
            else MassPass(done, i, j, ncside)
  {
    CellSnoc(done, p, i, j, ncside, X);
  }

  /**
   A cell during the centre pass: the final mass of all particles `ps`, and
   the centres accumulated over the prefix `done`.
   */
  function CentrePass(ps: seq<Particle>, done: seq<Particle>, i: int, j: int, ncside: int): Cell
  {
    var mass := CellMass(ps, i, j, ncside);
    Cell(mass, PartialCentre(done, i, j, ncside, X, mass), PartialCentre(done, i, j, ncside, Y, mass))
  }

  /**
   The centre pass adds m * x / mass and m * y / mass to the particle's own
   cell only, where mass is the cell's stored (final) mass.
   */
  lemma CentrePassSnoc(ps: seq<Particle>, done: seq<Particle>, p: Particle, i: int, j: int, ncside: int)
    requires InCell(p, i, j, ncside) ==> CellMass(ps, i, j, ncside) != 0.0
    ensures var c := CentrePass(ps, done, i, j, ncside);
      CentrePass(ps, done + [p], i, j, ncside)
      == if InCell(p, i, j, ncside) then c.(cmx := c.cmx + Weight(p, X) / c.mass, cmy := c.cmy + Weight(p, Y) / c.mass)
         else c
  {
    var mass := CellMass(ps, i, j, ncside);
    PartialCentreSnoc(done, p, i, j, ncside, X, mass);
    PartialCentreSnoc(done, p, i, j, ncside, Y, mass);
  }

  /** A cell after the single-pass re-aggregation over the particles `done`. */
  function RunningPass(done: seq<Particle>, i: int, j: int, ncside: int): Cell
    requires AllPositive(done)
  {
    Cell(CellMass(done, i, j, ncside), RunningCentre(done, i, j, ncside, X), RunningCentre(done, i, j, ncside, Y))
  }

  /**
   One particle's single-pass update of its cell: the mass first, then
   m * x and m * y divided by the new mass.
   */
  function RunningAdd(c: Cell, p: Particle): Cell
    requires c.mass + p.m != 0.0
  {
    var mass := c.mass + p.m;
    Cell(mass, c.cmx + Weight(p, X) / mass, c.cmy + Weight(p, Y) / mass)
  }

  /**
   The single pass adds a particle's mass to its own cell, then m * x and
   m * y divided by the mass stored so far including its own.
   */
  lemma RunningPassSnoc(done: seq<Particle>, p: Particle, i: int, j: int, ncside: int)
    requires AllPositive(done + [p]) && Indexed(p, ncside)
    ensures AllPositive(done)
    ensures RunningPass(done + [p], i, j, ncside)
      == if p.ix == i && p.jy == j then RunningAdd(RunningPass(done, i, j, ncside), p) else RunningPass(done, i, j, ncside)
  {
    var ps := done + [p];
    assert ps[..|ps| - 1] == done && ps[|ps| - 1] == p;
    assert AllPositive(done) by {
      forall k | 0 <= k < |done| ensures done[k].m > 0.0 {
        assert done[k] == ps[k];
      }
    }
    CellSnoc(done, p, i, j, ncside, X);
  }

  /**
   The running centre is not the centre of mass: two unit masses at
   x = 0.1 and x = 0.2 in cell (0, 0) of a 2 x 2 grid give
   0.1 / 1 + 0.2 / 2 = 0.2 instead of 0.15.
   */
  lemma RunningCentreIsNotCentre()
    ensures var ps := [Particle(0.1, 0.1, 0.0, 0.0, 1.0, 0, 0), Particle(0.2, 0.1, 0.0, 0.0, 1.0, 0, 0)];
      && AllPositive(ps)
      && RunningCentre(ps, 0, 0, 2, X) == 0.2
      && CellCentre(ps, 0, 0, 2, X) == 0.15
  {
    var ps := [Particle(0.1, 0.1, 0.0, 0.0, 1.0, 0, 0), Particle(0.2, 0.1, 0.0, 0.0, 1.0, 0, 0)];
    assert ps[..1][..0] == [];
    assert ps[..1] == [ps[0]];
    assert InCell(ps[0], 0, 0, 2) && InCell(ps[1], 0, 0, 2);
    assert CellMass(ps[..1], 0, 0, 2) == 1.0;
    assert CellMass(ps, 0, 0, 2) == 2.0;
    assert CellMoment(ps[..1], 0, 0, 2, X) == 0.1;
    assert CellMoment(ps, 0, 0, 2, X) == 0.3;
    assert RunningCentre(ps[..1], 0, 0, 2, X) == 0.1;
  }
}
