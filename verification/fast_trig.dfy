/** The angle normalisation of jk.math.FastTrig, the only part of that class
    the model needs: trigonometric approximations are left to callers. */
module FastTrig {

  /** Math.PI as a double, written as a decimal. */
  const PI: real := 3.141592653589793

  /** `k` whole turns, in radians. */
  function Turns(k: int): real {
    (k as real) * (2.0 * PI)
  }

  /** `a` and `b` denote the same direction: they differ by whole turns. */
  ghost predicate SameDirection(a: real, b: real) {
    exists k: int :: a == b + Turns(k)
  }

  /** FastTrig.normalRelativeAngle: shifts `d` by a whole number of turns into
      the half-open interval [-PI, PI). */
  function NormalRelativeAngle(d: real): (r: real)
    ensures -PI <= r < PI
    ensures SameDirection(r, d)
  {
    var shifted := d + PI;
    var turns := (shifted / (2.0 * PI)).Floor;
    var r := shifted - (turns as real) * (2.0 * PI) - PI;
    assert r == d + Turns(-turns);
    r
  }

  /** Angles already in [-PI, PI) are left exactly as they are. */
  lemma NormalRelativeAngleIdentity(d: real)
    requires -PI <= d < PI
    ensures NormalRelativeAngle(d) == d
  {
    var shifted := d + PI;
    assert 0.0 <= shifted / (2.0 * PI) < 1.0;
    assert (shifted / (2.0 * PI)).Floor == 0;
  }

  /** Normalising twice is the same as normalising once. */
  lemma NormalRelativeAngleIdempotent(d: real)
    ensures NormalRelativeAngle(NormalRelativeAngle(d)) == NormalRelativeAngle(d)
  {
    NormalRelativeAngleIdentity(NormalRelativeAngle(d));
  }
}
