/**
 Integer and wrap-around arithmetic on the unit torus [0,1) x [0,1) that is
 divided into ncside x ncside cells: the mapping of a coordinate to its cell,
 the three-wide neighbour window around a cell, and the wrap of a coordinate
 back into [0,1).
 */
module Torus {

  /** C's conversion of a double to a long: truncation toward zero. */
  function Trunc(v: real): (t: int)
    ensures v >= 0.0 ==> 0 <= t && t as real <= v < t as real + 1.0
    ensures v < 0.0 ==> t <= 0 && t as real - 1.0 < v <= t as real
  {
    if v >= 0.0 then v.Floor else -((-v).Floor)
  }

  /** The cell coordinate `(long)(pos * ncside)` of a position. */
  function CellIndex(pos: real, ncside: int): (ix: int)
    ensures pos >= 0.0 && ncside >= 0 ==> ix == (pos * ncside as real).Floor
    ensures 0.0 <= pos < 1.0 && ncside > 0 ==> 0 <= ix < ncside
  {
    var scaled := pos * ncside as real;
    ScaleInUnit(pos, ncside);
    TruncIsFloor(scaled);
    Trunc(scaled)
  }

  /** On a non-negative value truncation is the floor, the only integer shift into [0,1). */
  lemma TruncIsFloor(v: real)
    ensures v >= 0.0 ==> Trunc(v) == v.Floor
  {
    if v >= 0.0 {
      ShiftIsFloor(v, Trunc(v));
    }
  }

  /** A unit-interval position scaled by ncside lies in [0, ncside). */
  lemma ScaleInUnit(pos: real, ncside: int)
    ensures pos >= 0.0 && ncside >= 0 ==> pos * ncside as real >= 0.0
    ensures 0.0 <= pos < 1.0 && ncside > 0 ==> pos * ncside as real < ncside as real
  {
    if pos >= 0.0 && ncside > 0 {
      assert ncside as real - pos * ncside as real == (1.0 - pos) * ncside as real;
    }
  }

  /** The index triple m[0], m[1], m[2] around a home cell, and the wrap flag. */
  datatype Window = Window(lo: int, home: int, hi: int, wrapped: bool)
  {
    /** m[t] */
    function At(t: int): int
      requires 0 <= t < 3
    {
      if t == 0 then lo else if t == 1 then home else hi
    }

    /** Every entry of the window indexes a row (column) of an ncside-wide grid. */
    predicate InRange(ncside: int)
    {
      0 <= lo < ncside && 0 <= home < ncside && 0 <= hi < ncside
    }
  }

  /**
   The window exactly as the source computes it: the high neighbour is
   wrapped to 0 when it leaves the grid, and only otherwise ("else if") the
   low neighbour is wrapped to ncside - 1.
   */
  function WindowAsWritten(home: int, ncside: int): (w: Window)
    ensures w.home == home
    ensures ncside >= 2 && 0 <= home < ncside ==>
      && w.InRange(ncside)
      && w.lo == (home - 1) % ncside
      && w.hi == (home + 1) % ncside
      && (w.wrapped <==> home == 0 || home == ncside - 1)
  {
    var hi, lo := home + 1, home - 1;
    WrapIndex(home, ncside);
    if hi >= ncside then Window(lo, home, 0, true)
    else if lo < 0 then Window(ncside - 1, home, hi, true)
    else Window(lo, home, hi, false)
  }

  /** The neighbours of a cell index on a ring of ncside cells. */
  lemma WrapIndex(home: int, ncside: int)
    ensures ncside >= 1 && 0 <= home < ncside ==>
      && (home - 1) % ncside == (if home == 0 then ncside - 1 else home - 1)
      && (home + 1) % ncside == (if home == ncside - 1 then 0 else home + 1)
  {
    if ncside >= 1 && 0 <= home < ncside {
      if home == 0 {
        assert -1 == -1 * ncside + (ncside - 1);
      }
      if home == ncside - 1 {
        assert home + 1 == 1 * ncside + 0;
      }
    }
  }

  /**
   On a one-cell grid the high neighbour wraps, so the low neighbour is never
   corrected and stays at -1: the force loop reads the cell at index -1.
   */
  lemma OneCellWindowReadsOutside()
    ensures WindowAsWritten(0, 1).lo == -1
    ensures !WindowAsWritten(0, 1).InRange(1)
  {
  }

  /**
   The window with both wrap tests made independently, which is what the
   source evidently means: every entry is a valid index for every ncside >= 1,
   and for ncside >= 2 it is exactly the window the source computes.
   */
  function NeighbourWindow(home: int, ncside: int): (w: Window)
    ensures w.home == home
    ensures ncside >= 1 && 0 <= home < ncside ==>
      && w.InRange(ncside)
      && w.lo == (home - 1) % ncside
      && w.hi == (home + 1) % ncside
      && (w.wrapped <==> home == 0 || home == ncside - 1)
    ensures ncside >= 2 ==> w == WindowAsWritten(home, ncside)
  {
    WrapIndex(home, ncside);
    var hi := if home + 1 >= ncside then 0 else home + 1;
    var lo := if home - 1 < 0 then ncside - 1 else home - 1;
    Window(lo, home, hi, home + 1 >= ncside || home - 1 < 0)
  }

  /** On a 4 x 4 grid the window of corner cell 0 is {3, 0, 1}, and it wrapped. */
  lemma CornerWindow()
    ensures NeighbourWindow(0, 4) == Window(3, 0, 1, true)
    ensures WindowAsWritten(0, 4) == Window(3, 0, 1, true)
  {
  }

  /** The representative in [0,1) of a coordinate on the unit circle. */
  function Frac(v: real): (w: real)
    ensures 0.0 <= w < 1.0
    ensures v - w == (v - w).Floor as real
  {
    v - v.Floor as real
  }

  /** A value already in [0,1) is its own representative. */
  lemma FracOfUnit(v: real)
    requires 0.0 <= v < 1.0
    ensures Frac(v) == v
  {
  }

  /** The only integer shift that lands v in [0,1) is its floor. */
  lemma ShiftIsFloor(v: real, k: int)
    requires 0.0 <= v - k as real < 1.0
    ensures k == v.Floor
  {
  }

  /** Shifting by an integer does not change the representative. */
  lemma FracShift(a: real, b: real)
    ensures Frac(Frac(a) + b) == Frac(a + b)
  {
    var k := a.Floor + (Frac(a) + b).Floor;
    assert Frac(Frac(a) + b) == a + b - k as real;
    ShiftIsFloor(a + b, k);
  }

  /**
   The two `while` loops that bring a coordinate back into [0,1) by
   subtracting and then adding 1; the result is the coordinate's
   representative, so it differs from the input by an integer.
   */
  method WrapUnit(v: real) returns (w: real)
    ensures w == Frac(v)
  {
    w := v;
    ghost var k: int := 0;
    while w >= 1.0
      invariant w == v - k as real
      decreases w.Floor
    {
      w := w - 1.0;
      k := k + 1;
    }
    while w < 0.0
      invariant w == v - k as real
      invariant w < 1.0
      decreases -w.Floor
    {
      w := w + 1.0;
      k := k - 1;
    }
    ShiftIsFloor(v, k);
  }
}
