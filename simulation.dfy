/**
 The particle array `par`, the ncside x ncside cell table `mtr`, and the
 procedures that update them in place: the initial two-phase aggregation,
 and one iteration of the time-stepping loop (mass reset, the x-phase and the
 y-phase velocity/position updates, centre reset, single-pass
 re-aggregation). Every OpenMP loop of the source is modelled as the plain
 sequential loop in source order.
 */
module Simpar {
  import opened Torus
  import opened Gravity
  import opened Particles

  class Simulation {
    const ncside: int
    const par: array<Particle>
    const mtr: array2<Cell>

    /** The grid is ncside x ncside with ncside >= 1. */
    predicate Shaped()
    {
      ncside >= 1 && mtr.Length0 == ncside && mtr.Length1 == ncside
    }

    predicate InGrid(i: int, j: int)
    {
      0 <= i < ncside && 0 <= j < ncside
    }

    /** Particles on the unit torus with positive masses, over a shaped grid. */
    ghost predicate Valid()
      reads par
    {
      Shaped() && AllOnTorus(par[..]) && AllPositive(par[..])
    }

    ghost predicate GridEmpty()
      reads mtr
      requires Shaped()
    {
      forall i, j :: InGrid(i, j) ==> mtr[i, j] == EmptyCell
    }

    /** Sum of the masses stored in columns 0 .. b-1 of row i. */
    ghost function RowMass(i: int, b: nat): real
      reads mtr
      requires Shaped() && 0 <= i < ncside && b <= ncside
    {
      if b == 0 then 0.0 else RowMass(i, b - 1) + mtr[i, b - 1].mass
    }

    /** Sum of the masses stored in rows 0 .. a-1. */
    ghost function GridMass(a: nat): real
      reads mtr
      requires Shaped() && a <= ncside
    {
      if a == 0 then 0.0 else GridMass(a - 1) + RowMass(a - 1, ncside)
    }

    lemma {:induction false} RowMassIs(ps: seq<Particle>, i: int, b: nat)
      requires Shaped() && 0 <= i < ncside && b <= ncside
      requires forall j :: 0 <= j < ncside ==> mtr[i, j].mass == CellMass(ps, i, j, ncside)
      ensures RowMass(i, b) == RowCellMass(ps, i, b, ncside)
    {
      if b > 0 {
        RowMassIs(ps, i, b - 1);
      }
    }

    lemma {:induction false} GridMassIs(ps: seq<Particle>, a: nat)
      requires Shaped() && a <= ncside
      requires forall i, j :: InGrid(i, j) ==> mtr[i, j].mass == CellMass(ps, i, j, ncside)
      ensures GridMass(a) == GridCellMass(ps, a, ncside)
    {
      if a > 0 {
        GridMassIs(ps, a - 1);
        RowMassIs(ps, a - 1, ncside);
      }
    }

    /** The cells hold the particles' masses, so they hold the total mass. */
    lemma StoredMassConserved(ps: seq<Particle>)
      requires Shaped() && AllOnTorus(ps)
      requires forall i, j :: InGrid(i, j) ==> mtr[i, j].mass == CellMass(ps, i, j, ncside)
      ensures GridMass(ncside) == TotalMass(ps)
    {
      GridMassIs(ps, ncside);
      MassConservation(ps, ncside);
    }

    /**
     The calloc'd arrays and the initialisation loop: one particle per draw,
     every cell empty.
     */
    constructor (ncside: int, draws: seq<Draw>)
      requires ncside >= 1
      requires forall k :: 0 <= k < |draws| ==> UnitDraw(draws[k]) && draws[k].m > 0.0
      ensures Valid() && fresh(par) && fresh(mtr)
      ensures this.ncside == ncside && par.Length == |draws|
      ensures forall k :: 0 <= k < |draws| ==> par[k] == Seeded(draws[k], ncside, |draws|)
      ensures GridEmpty()
    {
      var a := new Particle[|draws|];
      for k := 0 to |draws|
        invariant forall q :: 0 <= q < k ==> a[q] == Seeded(draws[q], ncside, |draws|)
      {
        a[k] := Seeded(draws[k], ncside, |draws|);
      }
      this.ncside := ncside;
      par := a;
      mtr := new Cell[ncside, ncside]((i, j) => EmptyCell);
    }

    /**
     `centerofmassinit`: a mass pass that locates every particle and adds its
     mass to its cell and to the returned sum, then a centre pass that adds
     m * x / mass and m * y / mass using the cells' final masses.
     */
    method AggregateInit(masssum0: real) returns (masssum: real)
      requires Valid() && GridEmpty()
      modifies par, mtr
      ensures Valid()
      ensures forall k :: 0 <= k < par.Length ==> par[k] == Located(old(par[k]), ncside)
      ensures masssum == masssum0 + TotalMass(par[..])
      ensures forall i, j :: InGrid(i, j) ==> mtr[i, j] == Cell(CellMass(par[..], i, j, ncside),
                                                          CellCentre(par[..], i, j, ncside, X),
                                                          CellCentre(par[..], i, j, ncside, Y))
      ensures GridMass(ncside) == TotalMass(par[..])
    {
      masssum := MassLoop(masssum0);
      CentreLoop();
      StoredMassConserved(par[..]);
    }

    /**
     The first loop of `centerofmassinit`: each particle gets its cell indices,
     and its mass is added to its cell and to the sum.
     */
    method MassLoop(masssum0: real) returns (masssum: real)
      requires Valid() && GridEmpty()
      modifies par, mtr
      ensures Valid() && AllIndexed(par[..], ncside)
      ensures forall k :: 0 <= k < par.Length ==> par[k] == Located(old(par[k]), ncside)
      ensures masssum == masssum0 + TotalMass(par[..])
      ensures forall i, j :: InGrid(i, j) ==> mtr[i, j] == MassPass(par[..], i, j, ncside)
    {
      masssum := masssum0;
      for k := 0 to par.Length
        invariant forall q :: 0 <= q < par.Length ==> par[q] == if q < k then Located(old(par[q]), ncside) else old(par[q])
        invariant masssum == masssum0 + TotalMass(par[..k])
        invariant forall i, j :: InGrid(i, j) ==> mtr[i, j] == MassPass(par[..k], i, j, ncside)
      {
        ghost var done := par[..k];
        var p := Located(par[k], ncside);
        assert OnTorus(old(par[k]));
        par[k] := p;
        assert par[..k] == done && par[..k + 1] == done + [p];
        MassUpdate(done, p);
        masssum := masssum + p.m;
      }
      assert par[..par.Length] == par[..];
      ghost var ps := par[..];
      forall q | 0 <= q < |ps| ensures OnTorus(ps[q]) && ps[q].m > 0.0 && Indexed(ps[q], ncside) {
        assert OnTorus(old(par[q])) && old(par[q]).m > 0.0;
      }
    }

    /** The mass pass's update of one particle's cell: its mass is added. */
    method MassUpdate(ghost done: seq<Particle>, p: Particle)
      requires Shaped() && OnTorus(p) && Indexed(p, ncside)
      requires forall i, j :: InGrid(i, j) ==> mtr[i, j] == MassPass(done, i, j, ncside)
      modifies mtr
      ensures forall i, j :: InGrid(i, j) ==> mtr[i, j] == MassPass(done + [p], i, j, ncside)
    {
      mtr[p.ix, p.jy] := mtr[p.ix, p.jy].(mass := mtr[p.ix, p.jy].mass + p.m);
      forall i, j | InGrid(i, j)
        ensures mtr[i, j] == MassPass(done + [p], i, j, ncside)
      {
        MassPassSnoc(done, p, i, j, ncside);
      }
    }

    /**
     The second loop of `centerofmassinit`: each particle adds m * x / mass
     and m * y / mass to its cell, with the cell's final mass as divisor.
     */
    method CentreLoop()
      requires Valid() && AllIndexed(par[..], ncside)
      requires forall i, j :: InGrid(i, j) ==> mtr[i, j] == MassPass(par[..], i, j, ncside)
      modifies mtr
      ensures forall i, j :: InGrid(i, j) ==> mtr[i, j] == Cell(CellMass(par[..], i, j, ncside),
                                                          CellCentre(par[..], i, j, ncside, X),
                                                          CellCentre(par[..], i, j, ncside, Y))
    {
      ghost var ps := par[..];
      for k := 0 to par.Length
        invariant forall i, j :: InGrid(i, j) ==> mtr[i, j] == CentrePass(ps, ps[..k], i, j, ncside)
      {
        var p := par[k];
        assert ps[..k + 1] == ps[..k] + [p];
        CellMassCovers(ps, k, ncside);
        CentreUpdate(ps, ps[..k], p);
      }
      assert ps[..par.Length] == ps;
    }

    /**
     The centre pass's update of one particle's cell: m * x and m * y divided
     by the cell's stored mass are added.
     */
    method CentreUpdate(ghost ps: seq<Particle>, ghost done: seq<Particle>, p: Particle)
      requires Shaped() && OnTorus(p) && Indexed(p, ncside) && CellMass(ps, p.ix, p.jy, ncside) > 0.0
      requires forall i, j :: InGrid(i, j) ==> mtr[i, j] == CentrePass(ps, done, i, j, ncside)
      modifies mtr
      ensures forall i, j :: InGrid(i, j) ==> mtr[i, j] == CentrePass(ps, done + [p], i, j, ncside)
    {
      var c := mtr[p.ix, p.jy];
      mtr[p.ix, p.jy] := c.(cmx := c.cmx + Weight(p, X) / c.mass, cmy := c.cmy + Weight(p, Y) / c.mass);
      forall i, j | InGrid(i, j)
        ensures mtr[i, j] == CentrePass(ps, done + [p], i, j, ncside)
      {
        CentrePassSnoc(ps, done, p, i, j, ncside);
      }
    }

    /** The loop that clears every cell's mass before the velocity phases. */
    method ResetMass()
      requires Shaped()
      modifies mtr
      ensures forall i, j :: InGrid(i, j) ==> mtr[i, j] == old(mtr[i, j]).(mass := 0.0)
    {
      for i := 0 to ncside
        invariant forall a, b :: InGrid(a, b) ==> mtr[a, b] == if a < i then old(mtr[a, b]).(mass := 0.0) else old(mtr[a, b])
      {
        for j := 0 to ncside
          invariant forall a, b :: InGrid(a, b) ==>
            mtr[a, b] == if a < i || (a == i && b < j) then old(mtr[a, b]).(mass := 0.0) else old(mtr[a, b])
        {
          mtr[i, j] := mtr[i, j].(mass := 0.0);
        }
      }
    }

    /** The loop that clears every cell's centre before the re-aggregation. */
    method ResetCentres()
      requires Shaped()
      modifies mtr
      ensures forall i, j :: InGrid(i, j) ==> mtr[i, j] == old(mtr[i, j]).(cmx := 0.0, cmy := 0.0)
    {
      for i := 0 to ncside
        invariant forall a, b :: InGrid(a, b) ==>
          mtr[a, b] == if a < i then old(mtr[a, b]).(cmx := 0.0, cmy := 0.0) else old(mtr[a, b])
      {
        for j := 0 to ncside
          invariant forall a, b :: InGrid(a, b) ==>
            mtr[a, b] == if a < i || (a == i && b < j) then old(mtr[a, b]).(cmx := 0.0, cmy := 0.0) else old(mtr[a, b])
        {
          mtr[i, j] := mtr[i, j].(cmx := 0.0, cmy := 0.0);
        }
      }
    }

    /** The term contributed by cell (ci, cj) to a particle's force along `axis`. */
    function CellForce(ci: int, cj: int, axis: Axis, wrapped: bool): real
      reads mtr
      requires Shaped() && InGrid(ci, cj)
    {
      var c := mtr[ci, cj];
      ForceTerm(CellCoord(c, axis), wrapped, c.mass)
    }

    /** Sum of the terms of the cells (rows.At(t), cols.At(u)) for u < b. */
    function RowForce(rows: Window, cols: Window, t: int, b: nat, axis: Axis, wrapped: bool): real
      reads mtr
      requires Shaped() && rows.InRange(ncside) && cols.InRange(ncside) && 0 <= t < 3 && b <= 3
    {
      if b == 0 then 0.0 else RowForce(rows, cols, t, b - 1, axis, wrapped) + CellForce(rows.At(t), cols.At(b - 1), axis, wrapped)
    }

    /** Sum of the terms of the cells of the first a rows of the 3 x 3 window. */
    function WindowForce(rows: Window, cols: Window, a: nat, axis: Axis, wrapped: bool): real
      reads mtr
      requires Shaped() && rows.InRange(ncside) && cols.InRange(ncside) && a <= 3
    {
      if a == 0 then 0.0 else WindowForce(rows, cols, a - 1, axis, wrapped) + RowForce(rows, cols, a - 1, 3, axis, wrapped)
    }

    /**
     The velocity increment of a particle along `axis`: the sum over the 3 x 3
     window around its cell, with the sign flip of that axis's wrap flag.
     */
    function Force(p: Particle, axis: Axis): real
      reads mtr
      requires Shaped() && OnTorus(p)
    {
      var rows := NeighbourWindow(CellIndex(p.x, ncside), ncside);
      var cols := NeighbourWindow(CellIndex(p.y, ncside), ncside);
      WindowForce(rows, cols, 3, axis, if axis == X then rows.wrapped else cols.wrapped)
    }

    lemma {:induction false} RowForceZero(rows: Window, cols: Window, t: int, b: nat, axis: Axis, wrapped: bool)
      requires Shaped() && rows.InRange(ncside) && cols.InRange(ncside) && 0 <= t < 3 && b <= 3
      requires forall i, j :: InGrid(i, j) ==> mtr[i, j].mass == 0.0
      ensures RowForce(rows, cols, t, b, axis, wrapped) == 0.0
    {
      if b > 0 {
        RowForceZero(rows, cols, t, b - 1, axis, wrapped);
        assert InGrid(rows.At(t), cols.At(b - 1));
      }
    }

    lemma {:induction false} WindowForceZero(rows: Window, cols: Window, a: nat, axis: Axis, wrapped: bool)
      requires Shaped() && rows.InRange(ncside) && cols.InRange(ncside) && a <= 3
      requires forall i, j :: InGrid(i, j) ==> mtr[i, j].mass == 0.0
      ensures WindowForce(rows, cols, a, axis, wrapped) == 0.0
    {
      if a > 0 {
        WindowForceZero(rows, cols, a - 1, axis, wrapped);
        RowForceZero(rows, cols, a - 1, 3, axis, wrapped);
      }
    }

    /** Over a grid whose masses are all 0 no particle feels any force. */
    lemma ZeroMassNoForce(p: Particle, axis: Axis)
      requires Shaped() && OnTorus(p)
      requires forall i, j :: InGrid(i, j) ==> mtr[i, j].mass == 0.0
      ensures Force(p, axis) == 0.0
    {
      var rows := NeighbourWindow(CellIndex(p.x, ncside), ncside);
      var cols := NeighbourWindow(CellIndex(p.y, ncside), ncside);
      WindowForceZero(rows, cols, 3, axis, if axis == X then rows.wrapped else cols.wrapped);
    }

    /**
     The force loop of one particle: the nested t, u loops over the window
     around its cell, accumulating each cell's term.
     */
    method ComputeForce(p: Particle, axis: Axis) returns (f: real)
      requires Shaped() && OnTorus(p)
      ensures f == Force(p, axis)
    {
      var rows := NeighbourWindow(CellIndex(p.x, ncside), ncside);
      var cols := NeighbourWindow(CellIndex(p.y, ncside), ncside);
      var wrapped := if axis == X then rows.wrapped else cols.wrapped;
      f := 0.0;
      for t := 0 to 3
        invariant f == WindowForce(rows, cols, t, axis, wrapped)
      {
        for u := 0 to 3
          invariant f == WindowForce(rows, cols, t, axis, wrapped) + RowForce(rows, cols, t, u, axis, wrapped)
        {
          var c := mtr[rows.At(t), cols.At(u)];
          f := f + ForceTerm(CellCoord(c, axis), wrapped, c.mass);
        }
      }
    }

    /**
     One of the two velocity phases: for every particle in index order, the
     force along `axis` from the current grid, then its velocity and its
     wrapped coordinate along that axis.
     */
    method Advance(axis: Axis)
      requires Valid()
      modifies par
      ensures Valid()
      ensures forall k :: 0 <= k < par.Length ==> par[k] == Moved(old(par[k]), axis, Force(old(par[k]), axis))
    {
      for k := 0 to par.Length
        invariant forall q :: 0 <= q < par.Length ==>
          par[q] == if q < k then Moved(old(par[q]), axis, Force(old(par[q]), axis)) else old(par[q])
      {
        var p := par[k];
        assert OnTorus(old(par[k]));
        var f := ComputeForce(p, axis);
        var v := Velocity(p, axis) + f;
        var c := WrapUnit(Coord(p, axis) + v + f * 0.5);
        par[k] := match axis
          case X => p.(vx := v, x := c)
          case Y => p.(vy := v, y := c);
      }
      assert Valid() by {
        forall q | 0 <= q < par.Length ensures OnTorus(par[..][q]) && par[..][q].m > 0.0 {
          assert OnTorus(old(par[q])) && old(par[q]).m > 0.0;
        }
      }
    }

    /**
     The re-aggregation loop: each particle, in index order, is located and
     its mass added to its cell, then m * x and m * y divided by the cell's
     mass so far; on the last iteration m * x / masssum and m * y / masssum
     are added to the system centre.
     */
    method Reaggregate(last: bool, masssum: real, xcm0: real, ycm0: real) returns (xcm: real, ycm: real)
      requires Valid() && GridEmpty()
      requires last && par.Length > 0 ==> masssum != 0.0
      modifies par, mtr
      ensures Valid()
      ensures forall k :: 0 <= k < par.Length ==> par[k] == Located(old(par[k]), ncside)
      ensures forall i, j :: InGrid(i, j) ==> mtr[i, j] == RunningPass(par[..], i, j, ncside)
      ensures GridMass(ncside) == TotalMass(par[..])
      ensures last ==> xcm == xcm0 + ScaledMoment(par[..], X, masssum) && ycm == ycm0 + ScaledMoment(par[..], Y, masssum)
      ensures !last ==> xcm == xcm0 && ycm == ycm0
    {
      xcm, ycm := xcm0, ycm0;
      for k := 0 to par.Length
        invariant forall q :: 0 <= q < par.Length ==> par[q] == if q < k then Located(old(par[q]), ncside) else old(par[q])
        invariant AllPositive(par[..k])
        invariant forall i, j :: InGrid(i, j) ==> mtr[i, j] == RunningPass(par[..k], i, j, ncside)
        invariant last ==> xcm == xcm0 + ScaledMoment(par[..k], X, masssum) && ycm == ycm0 + ScaledMoment(par[..k], Y, masssum)
        invariant !last ==> xcm == xcm0 && ycm == ycm0
      {
        ghost var done := par[..k];
        var p := Located(par[k], ncside);
        assert OnTorus(old(par[k])) && old(par[k]).m > 0.0;
        par[k] := p;
        assert par[..k] == done && par[..k + 1] == done + [p];
        assert AllPositive(done + [p]);
        RunningUpdate(done, p);
        if last {
          xcm := xcm + Weight(p, X) / masssum;
          ycm := ycm + Weight(p, Y) / masssum;
        }
      }
      assert par[..par.Length] == par[..];
      assert Valid() by {
        forall q | 0 <= q < par.Length ensures OnTorus(par[..][q]) && par[..][q].m > 0.0 {
          assert OnTorus(old(par[q])) && old(par[q]).m > 0.0;
        }
      }
      StoredMassConserved(par[..]);
    }

    /**
     The single-pass update of one particle's cell in the re-aggregation
     loop: its mass is added, then m * x and m * y divided by the new mass.
     */
    method RunningUpdate(ghost done: seq<Particle>, p: Particle)
      requires Shaped() && OnTorus(p) && Indexed(p, ncside) && AllPositive(done) && p.m > 0.0
      requires forall i, j :: InGrid(i, j) ==> mtr[i, j] == RunningPass(done, i, j, ncside)
      modifies mtr
      ensures forall i, j :: InGrid(i, j) ==> mtr[i, j] == RunningPass(done + [p], i, j, ncside)
    {
      assert AllPositive(done + [p]);
      RunningPassSnoc(done, p, p.ix, p.jy, ncside);
      var c := mtr[p.ix, p.jy];
      var mass := c.mass + p.m;
      mtr[p.ix, p.jy] := Cell(mass, c.cmx + Weight(p, X) / mass, c.cmy + Weight(p, Y) / mass);
      forall i, j | InGrid(i, j)
        ensures mtr[i, j] == RunningPass(done + [p], i, j, ncside)
      {
        RunningPassSnoc(done, p, i, j, ncside);
      }
    }

    /**
     One iteration of the time-stepping loop as written: the masses are
     cleared before the velocity phases, so every force term is 0 and each
     particle only drifts by its unchanged velocity before it is re-aggregated.
     */
    method Step(last: bool, masssum: real, xcm0: real, ycm0: real) returns (xcm: real, ycm: real)
      requires Valid()
      requires last && par.Length > 0 ==> masssum != 0.0
      modifies par, mtr
      ensures Valid()
      ensures forall k :: 0 <= k < par.Length ==> par[k] == Located(Drifted(old(par[k])), ncside)
      ensures forall i, j :: InGrid(i, j) ==> mtr[i, j] == RunningPass(par[..], i, j, ncside)
      ensures GridMass(ncside) == TotalMass(par[..])
      ensures last ==> xcm == xcm0 + ScaledMoment(par[..], X, masssum) && ycm == ycm0 + ScaledMoment(par[..], Y, masssum)
      ensures !last ==> xcm == xcm0 && ycm == ycm0
    {
      ResetMass();
      forall p: Particle | OnTorus(p) ensures Force(p, X) == 0.0 && Force(p, Y) == 0.0 {
        ZeroMassNoForce(p, X);
        ZeroMassNoForce(p, Y);
      }
      Advance(X);
      Advance(Y);
      ResetCentres();
      forall k | 0 <= k < par.Length ensures par[k] == Drifted(old(par[k])) {
        UnforcedIsDrift(old(par[k]));
      }
      xcm, ycm := Reaggregate(last, masssum, xcm0, ycm0);
    }

    /** A particle after both velocity phases over the current grid. */
    function Kicked(p: Particle): (q: Particle)
      reads mtr
      requires Shaped() && OnTorus(p)
      ensures OnTorus(q) && q.m == p.m && q.ix == p.ix && q.jy == p.jy
      ensures q.vx == p.vx + Force(p, X)
      ensures q.x == Frac(p.x + q.vx + Force(p, X) * 0.5)
      ensures var p1 := p.(vx := q.vx, x := q.x); q.vy == p.vy + Force(p1, Y)
      ensures var p1 := p.(vx := q.vx, x := q.x); q.y == Frac(p.y + q.vy + Force(p1, Y) * 0.5)
    {
      var p1 := Moved(p, X, Force(p, X));
      Moved(p1, Y, Force(p1, Y))
    }

    /**
     The system centre of mass loop: sum of m * x / masssum and of
     m * y / masssum over all particles.
     */
    method SystemCentre(masssum: real) returns (xcm: real, ycm: real)
      requires par.Length > 0 ==> masssum != 0.0
      ensures xcm == ScaledMoment(par[..], X, masssum) && ycm == ScaledMoment(par[..], Y, masssum)
    {
      xcm, ycm := 0.0, 0.0;
      for k := 0 to par.Length
        invariant xcm == ScaledMoment(par[..k], X, masssum) && ycm == ScaledMoment(par[..k], Y, masssum)
      {
        assert par[..k + 1][..k] == par[..k];
        xcm := xcm + Weight(par[k], X) / masssum;
        ycm := ycm + Weight(par[k], Y) / masssum;
      }
      assert par[..par.Length] == par[..];
    }

    /**
     One iteration with the evident intent restored: the velocity phases use
     the grid aggregated at the end of the previous iteration, and the grid is
     then re-aggregated with the two-pass rule, so every cell holds its true
     centre of mass.
     */
    method StepCorrected(last: bool, masssum: real, xcm0: real, ycm0: real) returns (xcm: real, ycm: real)
      requires Valid()
      requires last && par.Length > 0 ==> masssum != 0.0
      modifies par, mtr
      ensures Valid()
      ensures forall k :: 0 <= k < par.Length ==> par[k] == Located(old(Kicked(par[k])), ncside)
      ensures forall i, j :: InGrid(i, j) ==> mtr[i, j] == Cell(CellMass(par[..], i, j, ncside),
                                                          CellCentre(par[..], i, j, ncside, X),
                                                          CellCentre(par[..], i, j, ncside, Y))
      ensures GridMass(ncside) == TotalMass(par[..])
      ensures last ==> xcm == xcm0 + ScaledMoment(par[..], X, masssum) && ycm == ycm0 + ScaledMoment(par[..], Y, masssum)
      ensures !last ==> xcm == xcm0 && ycm == ycm0
    {
      Advance(X);
      Advance(Y);
      ResetMass();
      ResetCentres();
      var total := AggregateInit(0.0);
      xcm, ycm := xcm0, ycm0;
      if last {
        var sx, sy := SystemCentre(masssum);
        xcm, ycm := xcm0 + sx, ycm0 + sy;
      }
    }

    /**
     `wrapcalc` as written: `iters` iterations of Step, the system centre
     accumulated on the last one only. Every particle drifts freely, so after
     n iterations it sits at its start plus n times its initial velocity.
     */
    method WrapCalc(iters: int, masssum: real) returns (xcm: real, ycm: real)
      requires Valid()
      requires iters > 0 && par.Length > 0 ==> masssum != 0.0
      modifies par, mtr
      ensures Valid()
      ensures iters <= 0 ==> par[..] == old(par[..]) && xcm == 0.0 && ycm == 0.0
      ensures iters > 0 ==> forall k :: 0 <= k < par.Length ==> par[k] == Located(Ballistic(old(par[k]), iters), ncside)
      ensures iters > 0 ==> forall i, j :: InGrid(i, j) ==> mtr[i, j] == RunningPass(par[..], i, j, ncside)
      ensures iters > 0 ==> xcm == ScaledMoment(par[..], X, masssum) && ycm == ScaledMoment(par[..], Y, masssum)
    {
      ghost var init := par[..];
      xcm, ycm := 0.0, 0.0;
      var l := 0;
      while l < iters
        invariant Valid()
        invariant 0 <= l && (l <= iters || l == 0)
        invariant par[..] == Trajectory(init, l, ncside)
        invariant l < iters || l == 0 ==> xcm == 0.0 && ycm == 0.0
        invariant 0 < l ==> forall i, j :: InGrid(i, j) ==> mtr[i, j] == RunningPass(par[..], i, j, ncside)
        invariant 0 < l == iters ==> xcm == ScaledMoment(par[..], X, masssum) && ycm == ScaledMoment(par[..], Y, masssum)
      {
        ghost var prev := par[..];
        xcm, ycm := Step(l == iters - 1, masssum, xcm, ycm);
        TrajectoryStep(init, prev, par[..], l, ncside);
        l := l + 1;
      }
      forall k | 0 <= k < par.Length && iters > 0
        ensures par[k] == Located(Ballistic(init[k], iters), ncside)
      {
        assert par[k] == Trajectory(init, iters, ncside)[k];
      }
    }

    /**
     The corrected iteration repeated `iters` times: masses never change, the
     grid holds the true cell centres, and the system centre is that of the
     final positions.
     */
    method WrapCalcCorrected(iters: int, masssum: real) returns (xcm: real, ycm: real)
      requires Valid()
      requires iters > 0 && par.Length > 0 ==> masssum != 0.0
      modifies par, mtr
      ensures Valid()
      ensures forall k :: 0 <= k < par.Length ==> par[k].m == old(par[k].m)
      ensures iters <= 0 ==> par[..] == old(par[..]) && xcm == 0.0 && ycm == 0.0
      ensures iters > 0 ==> forall i, j :: InGrid(i, j) ==> mtr[i, j] == Cell(CellMass(par[..], i, j, ncside),
                                                                         CellCentre(par[..], i, j, ncside, X),
                                                                         CellCentre(par[..], i, j, ncside, Y))
      ensures iters > 0 ==> xcm == ScaledMoment(par[..], X, masssum) && ycm == ScaledMoment(par[..], Y, masssum)
    {
      xcm, ycm := 0.0, 0.0;
      var l := 0;
      while l < iters
        invariant Valid()
        invariant 0 <= l && (l <= iters || l == 0)
        invariant forall k :: 0 <= k < par.Length ==> par[k].m == old(par[k].m)
        invariant l == 0 ==> par[..] == old(par[..])
        invariant l < iters || l == 0 ==> xcm == 0.0 && ycm == 0.0
        invariant 0 < l ==> forall i, j :: InGrid(i, j) ==> mtr[i, j] == Cell(CellMass(par[..], i, j, ncside),
                                                                          CellCentre(par[..], i, j, ncside, X),
                                                                          CellCentre(par[..], i, j, ncside, Y))
        invariant 0 < l == iters ==> xcm == ScaledMoment(par[..], X, masssum) && ycm == ScaledMoment(par[..], Y, masssum)
      {
        xcm, ycm := StepCorrected(l == iters - 1, masssum, xcm, ycm);
        l := l + 1;
      }
    }
  }

  /** The particles after `iters` free iterations from the draws, located in their cells. */
  function Evolved(draws: seq<Draw>, ncside: int, iters: nat): (ps: seq<Particle>)
    requires ncside >= 1 && |draws| >= 1
    requires forall k :: 0 <= k < |draws| ==> UnitDraw(draws[k])
    ensures |ps| == |draws|
  {
    seq(|draws|, k requires 0 <= k < |draws| => Located(Ballistic(Seeded(draws[k], ncside, |draws|), iters), ncside))
  }

  /**
   The whole run of the program on accepted arguments: initialisation from
   the draws, the initial aggregation, `iters` iterations, and the four
   printed values (the first particle's position and the system centre).
   */
  method Simulate(ncside: int, draws: seq<Draw>, iters: int) returns (px: real, py: real, xcm: real, ycm: real)
    requires ncside >= 1 && |draws| >= 1 && iters >= 1
    requires forall k :: 0 <= k < |draws| ==> UnitDraw(draws[k]) && draws[k].m > 0.0
    ensures var p := Seeded(draws[0], ncside, |draws|); px == Orbit(p.x, p.vx, iters) && py == Orbit(p.y, p.vy, iters)
    ensures var ps := Evolved(draws, ncside, iters);
      && AllPositive(ps) && AllOnTorus(ps)
      && xcm == Moment(ps, X) / TotalMass(ps) && ycm == Moment(ps, Y) / TotalMass(ps)
    ensures 0.0 <= px < 1.0 && 0.0 <= py < 1.0 && 0.0 <= xcm < 1.0 && 0.0 <= ycm < 1.0
  {
    var sim := new Simulation(ncside, draws);
    ghost var seeded := sim.par[..];
    var masssum := sim.AggregateInit(0.0);
    ghost var located := sim.par[..];
    assert TotalMass(located) > 0.0;
    xcm, ycm := sim.WrapCalc(iters, masssum);
    px, py := sim.par[0].x, sim.par[0].y;
    ghost var ps := Evolved(draws, ncside, iters);
    forall k | 0 <= k < |draws| ensures sim.par[k] == ps[k] {
      assert sim.par[k] == Located(Ballistic(Located(seeded[k], ncside), iters), ncside);
    }
    assert sim.par[..] == ps;
    TotalMassOfMasses(located, ps);
    ScaledMomentIsQuotient(ps, X, TotalMass(ps));
    ScaledMomentIsQuotient(ps, Y, TotalMass(ps));
    SystemCentreInUnit(ps, X);
    SystemCentreInUnit(ps, Y);
  }
}
