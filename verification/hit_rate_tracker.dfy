/** kc.mega.game.HitRateTracker: hit and damage counts for one bot, and the
    hit rate with a heuristic confidence interval built from them. Math.sqrt
    and Geom.simpleMaxEscapeAngle are oracles passed in by the caller. */
module HitRates {
  import opened MathUtils
  import opened Physics

  const PRIOR_HITS: int := 1
  const PRIOR_SHOTS: int := 12

  datatype HitRateTracker = HitRateTracker(
    hits: nat, shots: nat, shotsPassed: nat,
    damage: real, damageThisRound: real, totalWeight: real, approximateScore: real)

  /** A square-root oracle never returns a negative number. */
  ghost predicate NonNegative(sqrt: real -> real) {
    forall x: real :: sqrt(x) >= 0.0
  }

  function Fresh(): HitRateTracker {
    HitRateTracker(0, 0, 0, 0.0, 0.0, 0.0, 0.0)
  }

  /** HitRateTracker.init: a new round starts with no damage dealt in it. */
  function Init(t: HitRateTracker): (u: HitRateTracker)
    ensures u.damageThisRound == 0.0
    ensures u == t.(damageThisRound := 0.0)
  {
    t.(damageThisRound := 0.0)
  }

  /** HitRateTracker.clear: forgets every statistic except the score. */
  function Clear(t: HitRateTracker): (u: HitRateTracker)
    ensures u.approximateScore == t.approximateScore
    ensures u == Fresh().(approximateScore := t.approximateScore)
  {
    HitRateTracker(0, 0, 0, 0.0, 0.0, 0.0, t.approximateScore)
  }

  /** HitRateTracker.getHitRate: hits per passed shot, with at least one shot
      assumed in the denominator. */
  function HitRate(t: HitRateTracker): (r: real)
    ensures r >= 0.0
    ensures t.hits <= t.shotsPassed ==> r <= 1.0
    ensures t.shotsPassed > 0 ==> r * (t.shotsPassed as real) == t.hits as real
    ensures t.shotsPassed == 0 ==> r == t.hits as real
  {
    var denom := Max(1.0, t.shotsPassed as real);
    QuotientBounds(t.hits as real, denom);
    (t.hits as real) / denom
  }

  /** HitRateTracker.estimateHitRate: a prior-smoothed hit rate, corrected by
      how the average escape angle of past shots compares with that of a
      bullet of `power`; always clipped to [0.001, 0.999]. */
  function EstimateHitRate(t: HitRateTracker, power: real, maxEscapeAngle: real -> real): (r: real)
    requires t.shotsPassed > 0 ==> maxEscapeAngle(BulletSpeed(power)) != 0.0
    ensures 0.001 <= r <= 0.999
    ensures t.shotsPassed == 0 ==>
              r == Clip(((t.hits + PRIOR_HITS) as real) / (PRIOR_SHOTS as real), 0.001, 0.999)
  {
    var prior := ((t.hits + PRIOR_HITS) as real) / ((t.shotsPassed + PRIOR_SHOTS) as real);
    var correction :=
      if t.shotsPassed == 0 then 1.0
      else (t.totalWeight / (t.shotsPassed as real)) / maxEscapeAngle(BulletSpeed(power));
    Clip(prior * correction, 0.001, 0.999)
  }

  /** HitRateTracker.hitRateCIWidth: z * sqrt(p (1 - p) / n), with a wider z
      while fewer than 50 shots have passed. */
  function CIWidth(t: HitRateTracker, sqrt: real -> real): (w: real)
    requires NonNegative(sqrt)
    ensures w >= 0.0
  {
    var z := if t.shotsPassed < 50 then 1.282 else 0.842;
    var p := HitRate(t);
    var root := sqrt(p * (1.0 - p) / Max(1.0, t.shotsPassed as real));
    MulNonNegative(z, root);
    z * root
  }

  /** HitRateTracker.getMinHitRate: the lower confidence bound, never below 0
      and never above the hit rate. */
  function MinHitRate(t: HitRateTracker, sqrt: real -> real): (r: real)
    requires NonNegative(sqrt)
    ensures 0.0 <= r <= HitRate(t)
  {
    Max(HitRate(t) - CIWidth(t, sqrt), 0.0)
  }

  /** HitRateTracker.getMaxHitRate: the upper confidence bound, never above 1
      and, while hits do not outnumber passed shots, never below the hit rate. */
  function MaxHitRate(t: HitRateTracker, sqrt: real -> real): (r: real)
    requires NonNegative(sqrt)
    ensures r <= 1.0
    ensures t.hits <= t.shotsPassed ==> HitRate(t) <= r
  {
    Min(HitRate(t) + CIWidth(t, sqrt), 1.0)
  }

  /** HitRateTracker.hitRateInBounds: the confidence interval overlaps [lo, hi]. */
  predicate HitRateInBounds(t: HitRateTracker, lo: real, hi: real, sqrt: real -> real)
    requires NonNegative(sqrt)
  {
    lo <= MaxHitRate(t, sqrt) && hi >= MinHitRate(t, sqrt)
  }

  /** A band that contains the observed hit rate always counts as in bounds. */
  lemma HitRateInOwnBand(t: HitRateTracker, lo: real, hi: real, sqrt: real -> real)
    requires NonNegative(sqrt)
    requires t.hits <= t.shotsPassed
    requires lo <= HitRate(t) <= hi
    ensures HitRateInBounds(t, lo, hi, sqrt)
  {
  }

  /** A band entirely above 1 or below 0 is never in bounds. */
  lemma HitRateOutsideUnitNeverInBounds(t: HitRateTracker, lo: real, hi: real, sqrt: real -> real)
    requires NonNegative(sqrt)
    requires lo > 1.0 || hi < 0.0
    ensures !HitRateInBounds(t, lo, hi, sqrt)
  {
  }

  /** HitRateTracker.logShot. */
  function LogShot(t: HitRateTracker): (u: HitRateTracker)
    ensures u.shots == t.shots + 1
    ensures u == t.(shots := t.shots + 1)
  {
    t.(shots := t.shots + 1)
  }

  /** HitRateTracker.logShotPassed: one more passed shot, weighted by the escape
      angle of its bullet. */
  function LogShotPassed(t: HitRateTracker, power: real, maxEscapeAngle: real -> real): (u: HitRateTracker)
    ensures u.shotsPassed == t.shotsPassed + 1
    ensures u.totalWeight - t.totalWeight == maxEscapeAngle(BulletSpeed(power))
    ensures u.hits == t.hits && u.shots == t.shots && u.damage == t.damage
  {
    t.(shotsPassed := t.shotsPassed + 1,
       totalWeight := t.totalWeight + maxEscapeAngle(BulletSpeed(power)))
  }

  /** HitRateTracker.logHit: counts the hit and adds its damage to both totals. */
  function LogHit(t: HitRateTracker, bulletDamage: real): (u: HitRateTracker)
    ensures u.hits == t.hits + 1
    ensures u.damage - t.damage == bulletDamage
    ensures u.damageThisRound - t.damageThisRound == bulletDamage
    ensures u.shotsPassed == t.shotsPassed
  {
    t.(hits := t.hits + 1, damage := t.damage + bulletDamage,
       damageThisRound := t.damageThisRound + bulletDamage)
  }

  /** Logging a hit together with its passed shot keeps hits <= passed shots,
      so the hit rate stays a probability. */
  lemma HitWithPassedShotKeepsRateBelowOne(t: HitRateTracker, d: real, power: real, mea: real -> real)
    requires t.hits <= t.shotsPassed
    ensures LogShotPassed(LogHit(t, d), power, mea).hits <= LogShotPassed(LogHit(t, d), power, mea).shotsPassed
    ensures HitRate(LogShotPassed(LogHit(t, d), power, mea)) <= 1.0
  {
  }

  /** HitRateTracker.onRoundEnd: adds the round's approximate Robocode score,
      damage (with a 20% bonus for the survivor) plus 60 for surviving. */
  function OnRoundEnd(t: HitRateTracker, won: bool): (u: HitRateTracker)
    ensures won ==> u.approximateScore - t.approximateScore == 1.2 * t.damageThisRound + 60.0
    ensures !won ==> u.approximateScore - t.approximateScore == t.damageThisRound
    ensures u.(approximateScore := t.approximateScore) == t
  {
    t.(approximateScore := t.approximateScore + t.damageThisRound * (if won then 1.2 else 1.0)
                                              + (if won then 60.0 else 0.0))
  }

  /** With non-negative round damage, winning never scores less than losing. */
  lemma WinningScoresAtLeastLosing(t: HitRateTracker)
    requires t.damageThisRound >= 0.0
    ensures OnRoundEnd(t, true).approximateScore >= OnRoundEnd(t, false).approximateScore + 60.0
  {
  }
}
