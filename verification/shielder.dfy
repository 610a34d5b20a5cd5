/** kc.mega.shield.Shielder: bullet shielding. Five predictors guess where
    the enemy aims from the bearings recorded with each wave and learn a
    most-likely offset from the bullets they see; a plan fires one of a list of
    candidate powers so that our bullet's shadow covers the predicted enemy
    bullet, optionally after a small wiggle. Geometry, the enemy bullet's
    flight and the shadow computation are inputs. */
module Shielding {
  import opened Wrappers
  import opened MathUtils
  import opened FastTrig
  import opened Ranges

  /** How many geometric bullet powers to try. */
  const POWERS: nat := 10
  /** How far a wiggle moves before firing, and back after. */
  const WIGGLE_SIZE: real := 0.1
  /** How many offsets a predictor remembers. */
  const MAX_OFFSETS: nat := 500
  /** How many recent offsets count when choosing the most likely offset... */
  const CHOICE_HISTORY: nat := 20
  /** ...and when scoring it. */
  const SCORE_HISTORY: nat := 1000

  // ---------------------------------------------------------------------------
  // Predictors

  datatype Kind =
    | ApproxAbsBearing
    | AbsBearing
    | PrevAbsBearing
    | NoAdjustPrevAbsBearing
    | PrevAbsBearingWithDirectionalOffset

  /** The predictors in the order the Shielder lists them. */
  const KINDS: seq<Kind> :=
    [ApproxAbsBearing, AbsBearing, PrevAbsBearing, NoAdjustPrevAbsBearing,
     PrevAbsBearingWithDirectionalOffset]

  /** getBaseScore: the prior preference among predictors. */
  function BaseScore(k: Kind): (r: real)
    ensures r > 0.0
  {
    match k
    case ApproxAbsBearing => 0.00003
    case AbsBearing => 0.00002
    case PrevAbsBearing => 0.00005
    case NoAdjustPrevAbsBearing => 0.00004
    case PrevAbsBearingWithDirectionalOffset => 0.00001
  }

  /** What the predictors read from an enemy wave: the absolute bearing now
      and one tick earlier, the headings of the robot when the enemy fired and
      now, the precise bearing from our predicted next location to the enemy
      (a geometry oracle's answer), and our orbit direction. */
  datatype ShotWave = ShotWave(absoluteBearing: real, prevAbsoluteBearing: real,
                               fireHeading: real, myHeading: real, nextBearing: real,
                               orbitDirection: int)

  /** getHeadOnBearing of each predictor. */
  function HeadOnBearing(k: Kind, w: ShotWave): real {
    match k
    case ApproxAbsBearing => w.nextBearing
    case AbsBearing => w.absoluteBearing
    case PrevAbsBearing => w.prevAbsoluteBearing
    case NoAdjustPrevAbsBearing => w.prevAbsoluteBearing + w.fireHeading - w.myHeading
    case PrevAbsBearingWithDirectionalOffset => w.prevAbsoluteBearing
  }

  /** adjustOffset: only the directional predictor mirrors offsets by orbit direction. */
  function AdjustOffset(k: Kind, offset: real, w: ShotWave): real {
    if k == PrevAbsBearingWithDirectionalOffset then offset * (w.orbitDirection as real) else offset
  }

  predicate UnitOrbit(w: ShotWave) {
    w.orbitDirection == 1 || w.orbitDirection == -1
  }

  /** For an orbit direction of +-1, adjusting twice gives the offset back. */
  lemma AdjustOffsetInvolution(k: Kind, offset: real, w: ShotWave)
    requires UnitOrbit(w)
    ensures AdjustOffset(k, AdjustOffset(k, offset, w), w) == offset
  {
  }

  datatype Predictor = Predictor(kind: Kind, hitOffsets: seq<real>, mostLikelyOffset: real, score: real)

  /** A predictor that has seen no bullet. */
  function Fresh(k: Kind): Predictor {
    Predictor(k, [], 0.0, BaseScore(k))
  }

  /** BulletPredictor.predictBulletHeading. */
  function PredictBulletHeading(p: Predictor, w: ShotWave): real {
    HeadOnBearing(p.kind, w) + AdjustOffset(p.kind, p.mostLikelyOffset, w)
  }

  /** A predictor that has seen nothing fires head-on. */
  lemma FreshPredictsHeadOn(k: Kind, w: ShotWave)
    ensures PredictBulletHeading(Fresh(k), w) == HeadOnBearing(k, w)
  {
  }

  /** How many of the first `n` offsets other than `idx` lie within 1e-5 of offset `idx`. */
  function CountNear(offsets: seq<real>, idx: nat, n: nat): (c: nat)
    requires idx < |offsets| && n <= |offsets|
    ensures c <= n
  {
    if n == 0 then 0
    else CountNear(offsets, idx, n - 1)
         + (if n - 1 != idx && Abs(offsets[n - 1] - offsets[idx]) < 0.00001 then 1 else 0)
  }

  /** BulletPredictor.getOffsetScore: a bonus for an offset of (nearly) zero,
      a penalty for its size, a tie-breaker towards later offsets, and one point
      per agreeing offset among the first `historySize`. */
  function OffsetScore(offsets: seq<real>, idx: nat, historySize: nat): real
    requires idx < |offsets|
  {
    var o := offsets[idx];
    (if Abs(o) < 0.01 then 2.0 else 0.0) - Abs(o) + (idx as real) * 0.00000001
      + (CountNear(offsets, idx, MinInt(|offsets|, historySize)) as real)
  }

  /** BulletPredictor.setOffsetAndScore: the most likely offset is the first
      one whose score beats every other score and 0 (the first offset when none
      does); the predictor's score is its base score plus that offset's score. */
  method SetOffsetAndScore(k: Kind, offsets: seq<real>) returns (p: Predictor, best: nat)
    ensures p.kind == k && p.hitOffsets == offsets
    ensures best == 0 || best < |offsets|
    ensures |offsets| == 0 ==> p == Fresh(k)
    ensures |offsets| > 0 ==> best < |offsets| && p.mostLikelyOffset == offsets[best]
    ensures |offsets| > 0 ==> p.score == BaseScore(k) + OffsetScore(offsets, best, SCORE_HISTORY)
    ensures |offsets| > 0 ==> forall j :: 0 <= j < |offsets| ==>
              OffsetScore(offsets, j, CHOICE_HISTORY) <= Max(0.0, OffsetScore(offsets, best, CHOICE_HISTORY))
    ensures best > 0 ==> OffsetScore(offsets, best, CHOICE_HISTORY) > 0.0
    ensures forall j :: 0 <= j < best ==> OffsetScore(offsets, j, CHOICE_HISTORY) < OffsetScore(offsets, best, CHOICE_HISTORY)
  {
    var bestScore := 0.0;
    best := 0;
    var i := 0;
    while i < |offsets|
      invariant 0 <= i <= |offsets|
      invariant best == 0 || best < i
      invariant i == 0 ==> bestScore == 0.0
      invariant i > 0 ==> bestScore == Max(0.0, OffsetScore(offsets, best, CHOICE_HISTORY))
      invariant forall j :: 0 <= j < i ==> OffsetScore(offsets, j, CHOICE_HISTORY) <= bestScore
      invariant best > 0 ==> OffsetScore(offsets, best, CHOICE_HISTORY) > 0.0
      invariant forall j :: 0 <= j < best ==> OffsetScore(offsets, j, CHOICE_HISTORY) < OffsetScore(offsets, best, CHOICE_HISTORY)
    {
      var offsetScore := OffsetScore(offsets, i, CHOICE_HISTORY);
      if offsetScore > bestScore {
        bestScore := offsetScore;
        best := i;
      }
      i := i + 1;
    }
    if |offsets| == 0 {
      p := Fresh(k);
    } else {
      p := Predictor(k, offsets, offsets[best], BaseScore(k) + OffsetScore(offsets, best, SCORE_HISTORY));
    }
  }

  /** The offset list after logging one more: appended, and the oldest dropped
      once there are more than 500. */
  function Logged(offsets: seq<real>, x: real): (r: seq<real>)
    requires |offsets| <= MAX_OFFSETS
    ensures |r| == MinInt(|offsets| + 1, MAX_OFFSETS)
    ensures r == (offsets + [x])[|offsets| + 1 - |r|..]
  {
    var added := offsets + [x];
    if |added| > MAX_OFFSETS then added[1..] else added
  }

  /** BulletPredictor.logBullet: record the adjusted, normalised offset of a
      seen bullet from the head-on bearing, then choose again. */
  method LogBullet(p: Predictor, w: ShotWave, bulletHeading: real) returns (q: Predictor)
    requires |p.hitOffsets| <= MAX_OFFSETS
    ensures q.kind == p.kind
    ensures q.hitOffsets == Logged(p.hitOffsets,
              AdjustOffset(p.kind, NormalRelativeAngle(bulletHeading - HeadOnBearing(p.kind, w)), w))
    ensures |q.hitOffsets| <= MAX_OFFSETS
    ensures |p.hitOffsets| == 0 && UnitOrbit(w) ==> SameDirection(PredictBulletHeading(q, w), bulletHeading)
  {
    var headOn := HeadOnBearing(p.kind, w);
    var offsets := Logged(p.hitOffsets,
                          AdjustOffset(p.kind, NormalRelativeAngle(bulletHeading - headOn), w));
    var best;
    q, best := SetOffsetAndScore(p.kind, offsets);
    if |p.hitOffsets| == 0 && UnitOrbit(w) {
      var d := bulletHeading - headOn;
      assert best == 0;
      AdjustOffsetInvolution(p.kind, NormalRelativeAngle(d), w);
      assert PredictBulletHeading(q, w) == headOn + NormalRelativeAngle(d);
      var t: int :| NormalRelativeAngle(d) == d + Turns(t);
      assert PredictBulletHeading(q, w) == bulletHeading + Turns(t);
    }
  }

  // ---------------------------------------------------------------------------
  // Choosing the best of a list

  /** Stream.max with the comparator (int) Math.signum(a - b): a left fold
      that keeps the earlier element on ties. The index among the first `n`. */
  function MaxBy(scores: seq<real>, n: nat): (i: nat)
    requires 0 < n <= |scores|
    ensures i < n
    ensures forall j :: 0 <= j < n ==> scores[j] <= scores[i]
    ensures forall j :: 0 <= j < i ==> scores[j] < scores[i]
  {
    if n == 1 then 0
    else
      var a := MaxBy(scores, n - 1);
      if Truncate(Signum(scores[a] - scores[n - 1])) >= 0 then a else n - 1
  }

  function Scores(ps: seq<Predictor>): (r: seq<real>)
    ensures |r| == |ps| && forall i :: 0 <= i < |ps| ==> r[i] == ps[i].score
  {
    seq(|ps|, i requires 0 <= i < |ps| => ps[i].score)
  }

  /** getBestPredictor. */
  function BestPredictor(ps: seq<Predictor>): (r: Predictor)
    requires |ps| > 0
    ensures r in ps && forall p :: p in ps ==> p.score <= r.score
  {
    var s := Scores(ps);
    ps[MaxBy(s, |s|)]
  }

  /** Before any bullet is seen, the Shielder trusts the standard head-on
      predictor (previous-tick absolute bearing). */
  lemma InitiallyPrevAbsBearing()
    ensures BestPredictor(seq(|KINDS|, i requires 0 <= i < |KINDS| => Fresh(KINDS[i]))).kind == PrevAbsBearing
  {
    var ps := seq(|KINDS|, i requires 0 <= i < |KINDS| => Fresh(KINDS[i]));
    var s := Scores(ps);
    assert s == [0.00003, 0.00002, 0.00005, 0.00004, 0.00001];
    var i := MaxBy(s, |s|);
    assert s[2] <= s[i];
    assert i == 2;
  }

  // ---------------------------------------------------------------------------
  // Bullet powers

  /** The ten powers rising geometrically from 0.1 by the tenth root of ten
      times the wave's power (at least 0.2); `root` is that tenth root. */
  function GeometricPowers(wavePower: real, root: real -> real): (r: seq<real>)
    ensures |r| == POWERS
  {
    var q := root(Max(0.2, wavePower) * 10.0);
    seq(POWERS, i requires 0 <= i < POWERS => 0.1 * Pow(q, i))
  }

  /** The geometric powers start at 0.1, each is the ratio times the previous,
      and one more step would reach the wave's power (at least 0.2). */
  lemma GeometricPowersClimb(wavePower: real, root: real -> real)
    requires Pow(root(Max(0.2, wavePower) * 10.0), POWERS) == Max(0.2, wavePower) * 10.0
    ensures var r := GeometricPowers(wavePower, root);
            var q := root(Max(0.2, wavePower) * 10.0);
            && r[0] == 0.1
            && (forall i :: 0 <= i < POWERS - 1 ==> r[i + 1] == r[i] * q)
            && r[POWERS - 1] * q == Max(0.2, wavePower)
  {
    var r := GeometricPowers(wavePower, root);
    var q := root(Max(0.2, wavePower) * 10.0);
    forall i | 0 <= i < POWERS - 1 ensures r[i + 1] == r[i] * q {
      GeometricStep(q, i);
    }
    GeometricStep(q, POWERS - 1);
  }

  lemma GeometricStep(q: real, i: nat)
    ensures 0.1 * Pow(q, i + 1) == (0.1 * Pow(q, i)) * q
  {
    var p := Pow(q, i);
    assert Pow(q, i + 1) == q * p;
  }

  /** Shielder.getPowers. Before the enemy has moved only 0.1 is tried.
      Otherwise the geometric powers, then every power that makes our bullet
      meet the predicted enemy bullet: while that bullet keeps getting closer to
      the fire location, each tick's distance over the flight time gives a
      needed speed, and a speed in (11, 19.7) whose power is below the wave's is
      added. `dist(t)` is the enemy bullet's distance from the fire location at
      time t; the bullet has passed by `fireTime + horizon + 1`. */
  method GetPowers(enemyHasMoved: bool, wavePower: real, root: real -> real,
                   dist: int -> real, fireTime: int, horizon: nat) returns (powers: seq<real>)
    requires dist(fireTime + horizon + 1) >= dist(fireTime + horizon)
    ensures !enemyHasMoved ==> powers == [0.1]
    ensures enemyHasMoved ==> |powers| >= POWERS && powers[..POWERS] == GeometricPowers(wavePower, root)
    ensures enemyHasMoved ==> forall i :: POWERS <= i < |powers| ==>
              0.1 < powers[i] < 3.0 && powers[i] < wavePower
  {
    if !enemyHasMoved {
      return [0.1];
    }
    powers := GeometricPowers(wavePower, root);
    var bulletDist := dist(fireTime);
    var lastBulletDist: Option<real> := None;
    var time := fireTime;
    while lastBulletDist.None? || bulletDist < lastBulletDist.value
      invariant fireTime <= time <= fireTime + horizon + 1
      invariant bulletDist == dist(time)
      invariant time > fireTime ==> lastBulletDist == Some(dist(time - 1))
      invariant time == fireTime ==> lastBulletDist.None?
      invariant |powers| >= POWERS && powers[..POWERS] == GeometricPowers(wavePower, root)
      invariant forall i :: POWERS <= i < |powers| ==> 0.1 < powers[i] < 3.0 && powers[i] < wavePower
      decreases fireTime + horizon + 1 - time
    {
      lastBulletDist := Some(bulletDist);
      time := time + 1;
      bulletDist := dist(time);
      var neededSpeed := bulletDist / ((time - fireTime) as real + 0.5);
      if neededSpeed > 11.0 && neededSpeed < 19.7 {
        var power := (20.0 - neededSpeed) / 3.0;
        if power < wavePower {
          powers := powers + [power];
        }
      }
    }
  }

  // ---------------------------------------------------------------------------
  // Plans

  /** A shielding plan: when to fire, with what power, whether to wiggle first
      and in which direction, and its heuristic score. */
  datatype Plan = Plan(fireTime: int, bulletPower: real, wiggle: bool, direction: int, score: real)

  /** The Plan constructor's heuristic score: above all make a shadow, then a
      wide one, prefer standing still, and prefer powers below the ones that
      would win the energy race. `shadow` is our wave's shadow on the enemy
      bullet, if any. */
  function PlanScore(shadow: Option<Range>, wiggle: bool, bulletPower: real,
                     targetPower: real, targetPowerConservative: real): real
  {
    var width := if shadow.None? then 0.0 else Width(shadow.value);
    (if shadow.None? then 0.0 else 1.0)
      + (if width > 0.000001 then 0.2 else 0.0)
      + (if width > 0.00001 then 0.03 else 0.0)
      + (if !wiggle && width > 0.0001 then 0.1 else 0.0)
      + (if bulletPower < targetPower then 0.01 else 0.0)
      + (if bulletPower < targetPowerConservative then 0.01 else 0.0)
      + width
      - bulletPower * 0.0000000001
  }

  /** Any plan whose bullet casts a shadow outscores every plan whose bullet
      does not, whatever their legal powers. */
  lemma ShadowBeatsNoShadow(shadow: Range, w1: bool, p1: real, w2: bool, p2: real,
                            t1: real, c1: real, t2: real, c2: real)
    requires shadow.start <= shadow.end
    requires 0.1 <= p1 <= 3.0 && 0.1 <= p2 <= 3.0
    ensures PlanScore(Some(shadow), w1, p1, t1, c1) > PlanScore(None, w2, p2, t2, c2)
  {
  }

  /** The commands one tick of a plan gives: fire with a power, move ahead by a distance. */
  datatype Command = Command(fire: Option<real>, ahead: Option<real>)

  /** Plan.execute: wiggle out the tick before firing, fire (and wiggle back)
      on the fire tick; done once the fire tick is reached. Turning the body
      and gun is left to the robot interface. */
  function Execute(plan: Plan, gameTime: int): (r: (bool, Command))
    ensures r.0 <==> gameTime >= plan.fireTime
    ensures r.1.fire.Some? <==> gameTime == plan.fireTime
    ensures r.1.fire.Some? ==> r.1.fire.value == plan.bulletPower
    ensures r.1.ahead.Some? ==> plan.wiggle && plan.fireTime - 1 <= gameTime <= plan.fireTime
  {
    if gameTime == plan.fireTime - 1 && plan.wiggle then
      (false, Command(None, Some((plan.direction as real) * WIGGLE_SIZE)))
    else if gameTime == plan.fireTime then
      (true, Command(Some(plan.bulletPower), if plan.wiggle then Some(-(plan.direction as real) * WIGGLE_SIZE) else None))
    else (gameTime >= plan.fireTime, Command(None, None))
  }

  /** A wiggle returns exactly to where it started. */
  lemma WiggleReturns(plan: Plan)
    requires plan.wiggle
    ensures Execute(plan, plan.fireTime - 1).1.ahead.Some?
    ensures Execute(plan, plan.fireTime).1.ahead.Some?
    ensures Execute(plan, plan.fireTime - 1).1.ahead.value + Execute(plan, plan.fireTime).1.ahead.value == 0.0
  {
  }

  /** The end of Shielder.shield: run the first plan, and drop it once it is done. */
  function ExecuteFirst(plans: seq<Plan>, gameTime: int): (r: (seq<Plan>, Option<Command>))
    ensures |plans| == 0 ==> r == ([], None)
    ensures |plans| > 0 ==> r.1.Some? && (r.0 == plans[1..] <==> gameTime >= plans[0].fireTime)
    ensures |plans| > 0 && gameTime < plans[0].fireTime ==> r.0 == plans
  {
    if |plans| == 0 then ([], None)
    else
      var (done, command) := Execute(plans[0], gameTime);
      (if done then plans[1..] else plans, Some(command))
  }

  /** The plan Shielder.shield adopts: the best-scoring option, earliest on ties. */
  function BestPlan(options: seq<Plan>): (r: Option<Plan>)
    ensures r.None? <==> |options| == 0
    ensures r.Some? ==> r.value in options && forall o :: o in options ==> o.score <= r.value.score
  {
    if |options| == 0 then None
    else
      var s := seq(|options|, i requires 0 <= i < |options| => options[i].score);
      var best := MaxBy(s, |s|);
      assert forall j :: 0 <= j < |options| ==> s[j] == options[j].score;
      Some(options[best])
  }
}
