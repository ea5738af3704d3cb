/**
 The per-neighbour force rule of the grid approximation: the neighbour
 cell's centre-of-mass coordinate is used as the separation r, negated when
 the window wrapped, and a term G*mass/(9 r^2) with the sign of r is added
 unless |r| lies within the dead band EPSLON.
 */
module Gravity {

  /** The gravitational constant of the source. */
  const G: real := 6.67408e-11

  /** Half-width of the dead band around a zero separation. */
  const EPSLON: real := 0.0005

  /** The separation after the sign flip applied on a wrapped window. */
  function Separation(r: real, wrapped: bool): real
  {
    if wrapped then -r else r
  }

  /** The contribution of one neighbour cell with centre coordinate r and mass `mass`. */
  function ForceTerm(r: real, wrapped: bool, mass: real): (f: real)
    ensures var s := Separation(r, wrapped);
      && (-EPSLON <= s <= EPSLON ==> f == 0.0)
      && (s < -EPSLON || s > EPSLON ==> f * (9.0 * s * s) == (if s > 0.0 then G * mass else -(G * mass)))
      && (mass == 0.0 ==> f == 0.0)
      && (mass > 0.0 ==> (f > 0.0 <==> s > EPSLON) && (f < 0.0 <==> s < -EPSLON))
  {
    var s := Separation(r, wrapped);
    if s < 0.0 && -s > EPSLON then -(G * mass / (s * s * 9.0))
    else if s > EPSLON then G * mass / (s * s * 9.0)
    else 0.0
  }

  /** The wrap flag only flips the sign of the term. */
  lemma ForceTermWrapFlips(r: real, mass: real)
    ensures ForceTerm(r, true, mass) == -ForceTerm(r, false, mass)
  {
    if r < -EPSLON || r > EPSLON {
      var d := r * r * 9.0;
      assert (-r) * (-r) * 9.0 == d;
      assert -(G * mass / d) == -(G * mass) / d;
    }
  }
}
