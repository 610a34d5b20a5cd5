/** kc.mega.wave.Wave: one expanding circle of possible bullet positions.
    The geometry the Java code computes with trigonometry and square roots
    (distances to the bot, circle intercepts, the offsets of points seen from
    the wave's source) is supplied by the caller as oracle values; everything
    decided from those values is modelled. */
module WaveModel {
  import opened Wrappers
  import opened MathUtils
  import opened FastTrig
  import opened Ranges
  import opened GFBins
  import opened Physics

  /** The wave status codes, in the order the code compares them. */
  const MIDAIR: int := 0
  const BREAKING: int := 1
  const WILL_PASS_THIS_TICK: int := 2
  const PASSED: int := 3

  /** Wave.BINS: the shadow and danger grid of every wave. */
  const NBINS: nat := 151
  const BINS: Bins := Bins(NBINS)

  /** Geom.MAX_BOT_HALF_WIDTH = sqrt(2) * 18.001, as a decimal. */
  const MAX_BOT_HALF_WIDTH: real := 25.457258336278088

  /** The initial hitOffset, meaning "no offset recorded yet". */
  const NO_HIT_OFFSET: real := 1000.0
  /** Offsets beyond this mark are treated as unset. */
  const HIT_OFFSET_SET_BELOW: real := 100.0

  /** getGF clips guess factors to this magnitude. */
  const GF_LIMIT: real := 0.99999

  /** The smallest escape angle Geom.inFieldMaxEscapeAngles reports. */
  const MIN_ESCAPE_ANGLE: real := 0.001

  datatype Wave = Wave(
    id: nat,
    fireTime: int,
    power: real,
    speed: real,
    absoluteBearing: real,
    orbitDirection: int,
    /** maePrecise[0] and maePrecise[1]: escape angles on the negative and positive side. */
    maeNeg: real,
    maePos: real,
    ticksUntilBreak: int,
    radius: real,
    hasBullet: bool,
    didHit: bool,
    didCollide: bool,
    hitOffset: real,
    visitOffsetRange: Range,
    trackPreciseShadows: bool,
    shadows: seq<real>,
    shadow: Option<Range>,
    /** MovementWave.isVirtual; false for our own waves. */
    isVirtual: bool,
    /** AimWave.bullet: our bullet riding the wave; None for the enemy's waves. */
    bullet: Option<Bullet>)

  /** A bullet in flight (Bullet.java). Its positions are computed with sin and
      cos from the heading, so only the geometry oracle reads the heading. */
  datatype Bullet = Bullet(id: nat, fireTime: int, heading: real)

  /** The invariant every constructed wave keeps. */
  predicate WellFormed(w: Wave) {
    && w.maeNeg >= MIN_ESCAPE_ANGLE && w.maePos >= MIN_ESCAPE_ANGLE
    && (w.orbitDirection == 1 || w.orbitDirection == -1)
    && w.speed > 0.0
    && |w.shadows| == NBINS
  }

  predicate InUnit(s: seq<real>) {
    forall i :: 0 <= i < |s| ==> 0.0 <= s[i] <= 1.0
  }

  /** The movement direction the constructor reads from the enemy's history:
      the sign of the first non-zero velocity after the newest state. */
  function FirstMoveDirection(velocities: seq<real>): (d: int)
    ensures d == 0 <==> forall i :: 0 <= i < |velocities| ==> velocities[i] == 0.0
    ensures d != 0 ==> exists i :: 0 <= i < |velocities| && velocities[i] != 0.0
                                   && (forall j :: 0 <= j < i ==> velocities[j] == 0.0)
                                   && (d as real) == Signum(velocities[i])
  {
    if |velocities| == 0 then 0
    else if velocities[0] > 0.0 then 1
    else if velocities[0] < 0.0 then -1
    else
      var d := FirstMoveDirection(velocities[1..]);
      assert forall i :: 1 <= i < |velocities| ==> velocities[i] == velocities[1..][i - 1];
      d
  }

  /** The Wave constructor. `enemyVelocities` is the enemy history's velocities,
      newest first; `sinHeadingOffset` is FastTrig.sin(heading - bearing) for
      the enemy state the wave aims at; `escapeRange` is the offset range
      Geom.inFieldMaxEscapeAngles spans before it takes magnitudes; `gunHeading`
      is the AimWave builder's gun heading, absent for the enemy's waves. */
  function Create(id: nat, fireTime: int, power: real, hasBullet: bool, trackPreciseShadows: bool,
                  lastOrbitDirection: int, enemyVelocities: seq<real>, sinHeadingOffset: real,
                  absoluteBearing: real, escapeRange: Range, isVirtual: bool,
                  gunHeading: Option<real>): (w: Wave)
    requires lastOrbitDirection == 1 || lastOrbitDirection == -1
    ensures WellFormed(w)
    ensures InUnit(w.shadows) && forall i :: 0 <= i < NBINS ==> w.shadows[i] == 0.0
    ensures w.speed == BulletSpeed(power)
    ensures w.hitOffset == NO_HIT_OFFSET && IsEmpty(w.visitOffsetRange)
    ensures !w.didHit && !w.didCollide && w.hasBullet == hasBullet
    ensures w.maeNeg == Max(Abs(escapeRange.start), MIN_ESCAPE_ANGLE)
    ensures w.maePos == Max(escapeRange.end, MIN_ESCAPE_ANGLE)
    ensures |enemyVelocities| <= 1 ==> w.orbitDirection == lastOrbitDirection
    ensures w.bullet.Some? <==> hasBullet && gunHeading.Some?
    ensures w.bullet.Some? ==> w.bullet.value == Bullet(id, fireTime, gunHeading.value)
  {
    var moveDirection := if |enemyVelocities| <= 1 then 0 else FirstMoveDirection(enemyVelocities[1..]);
    var orbit := if moveDirection == 0 then lastOrbitDirection
                 else NonzeroSign(sinHeadingOffset * (moveDirection as real));
    Wave(id, fireTime, power, BulletSpeed(power), absoluteBearing, orbit,
         Max(Abs(escapeRange.start), MIN_ESCAPE_ANGLE), Max(escapeRange.end, MIN_ESCAPE_ANGLE),
         0, 0.0, hasBullet, false, false, NO_HIT_OFFSET, Empty(), trackPreciseShadows,
         seq(NBINS, _ => 0.0), None, isVirtual,
         if hasBullet && gunHeading.Some? then Some(Bullet(id, fireTime, gunHeading.value)) else None)
  }

  /** The escape angle on the side an offset (or a signed guess factor) lies. */
  function SideEscapeAngle(w: Wave, x: real): real {
    if x < 0.0 then w.maeNeg else w.maePos
  }

  /** Wave.getGF(double): the offset as a fraction of the escape angle on its
      side, signed by the orbit direction and clipped. */
  function GetGF(w: Wave, offset: real): (gf: real)
    requires WellFormed(w)
    ensures -GF_LIMIT <= gf <= GF_LIMIT
  {
    var o := NormalRelativeAngle(offset);
    Clip(o / SideEscapeAngle(w, o) * (w.orbitDirection as real), -GF_LIMIT, GF_LIMIT)
  }

  /** Wave.getOffset: the inverse scaling, from a guess factor to an offset. */
  function GetOffset(w: Wave, gf: real): real {
    var g := gf * (w.orbitDirection as real);
    g * SideEscapeAngle(w, g)
  }

  /** Wave.getBearing. */
  function GetBearing(w: Wave, gf: real): (b: real)
    ensures b - w.absoluteBearing == GetOffset(w, gf)
  {
    w.absoluteBearing + GetOffset(w, gf)
  }

  /** A guess factor inside the clip limits survives the trip to an offset and
      back, as long as that offset is already a normalised angle. */
  lemma GFOffsetRoundTrip(w: Wave, gf: real)
    requires WellFormed(w)
    requires -GF_LIMIT <= gf <= GF_LIMIT
    requires -PI <= GetOffset(w, gf) < PI
    ensures GetGF(w, GetOffset(w, gf)) == gf
  {
    GetGFOfNormalized(w, GetOffset(w, gf));
    OffsetScalesBack(w, gf);
    OrbitCancels(gf, w.orbitDirection);
  }

  /** Dividing an offset by the escape angle on its side undoes getOffset's
      scaling: the result is the guess factor signed by the orbit direction. */
  lemma OffsetScalesBack(w: Wave, gf: real)
    requires WellFormed(w)
    ensures GetOffset(w, gf) / SideEscapeAngle(w, GetOffset(w, gf)) == gf * (w.orbitDirection as real)
  {
    var g := gf * (w.orbitDirection as real);
    var m := SideEscapeAngle(w, g);
    ScaleCancels(g, m);
    assert GetOffset(w, gf) == g * m;
  }

  /** On an already normalised offset, getGF is the plain scaling. */
  lemma GetGFOfNormalized(w: Wave, o: real)
    requires WellFormed(w) && -PI <= o < PI
    ensures GetGF(w, o) == Clip(o / SideEscapeAngle(w, o) * (w.orbitDirection as real), -GF_LIMIT, GF_LIMIT)
  {
    NormalRelativeAngleIdentity(o);
  }

  /** Signing by an orbit direction twice is the identity. */
  lemma OrbitCancels(x: real, direction: int)
    requires direction == 1 || direction == -1
    ensures (x * (direction as real)) * (direction as real) == x
  {
  }

  lemma ScaleCancels(g: real, m: real)
    requires m > 0.0
    ensures (g * m) / m == g
    ensures g * m < 0.0 <==> g < 0.0
  {
    if g < 0.0 {
      assert g * m < 0.0;
    } else {
      assert g * m >= 0.0;
    }
  }

  /** An offset whose guess factor is not clipped comes back, normalised, from
      the trip to a guess factor and back. */
  lemma OffsetGFRoundTrip(w: Wave, offset: real)
    requires WellFormed(w)
    requires -GF_LIMIT <= NormalRelativeAngle(offset) / SideEscapeAngle(w, NormalRelativeAngle(offset)) <= GF_LIMIT
    ensures GetOffset(w, GetGF(w, offset)) == NormalRelativeAngle(offset)
  {
    var o := NormalRelativeAngle(offset);
    var m := SideEscapeAngle(w, o);
    var d := w.orbitDirection as real;
    SignedQuotient(o, m, d, GF_LIMIT);
    var q := o / m;
    assert GetGF(w, offset) == q * d;
    OffsetOfSigned(w, q);
    assert SideEscapeAngle(w, q) == m;
  }

  /** Scaling by the orbit direction twice is the identity, so the offset of
      the signed fraction `q` is `q` times its side's escape angle. */
  lemma OffsetOfSigned(w: Wave, q: real)
    requires WellFormed(w)
    ensures GetOffset(w, q * (w.orbitDirection as real)) == Times(q, SideEscapeAngle(w, q))
  {
    var d := w.orbitDirection as real;
    assert q * d * d == q;
  }

  /** The arithmetic of the round trip: a quotient by a positive divisor keeps
      the dividend's sign, a unit sign flip is undone by a second one, and the
      divisor scales the quotient back. */
  lemma SignedQuotient(o: real, m: real, d: real, lim: real)
    requires m > 0.0 && (d == 1.0 || d == -1.0) && -lim <= o / m <= lim
    ensures -lim <= (o / m) * d <= lim
    ensures (o / m) * d * d == o / m
    ensures Times(o / m, m) == o
    ensures o / m < 0.0 <==> o < 0.0
  {
  }

  /** Wave.getGFRange: the guess factors of both ends of an offset range, sorted. */
  function GetGFRange(w: Wave, offsets: Range): (r: Range)
    requires WellFormed(w)
    ensures -GF_LIMIT <= r.start <= r.end <= GF_LIMIT
    ensures multiset{r.start, r.end} == multiset{GetGF(w, offsets.start), GetGF(w, offsets.end)}
  {
    FromUnsorted(GetGF(w, offsets.start), GetGF(w, offsets.end))
  }

  /** Wave.hitGF and Wave.hitGFRange. */
  function HitGF(w: Wave): (gf: real)
    requires WellFormed(w)
    ensures -GF_LIMIT <= gf <= GF_LIMIT
  {
    GetGF(w, w.hitOffset)
  }

  function HitGFRange(w: Wave): (r: Range)
    requires WellFormed(w)
    ensures -GF_LIMIT <= r.start <= r.end <= GF_LIMIT
  {
    GetGFRange(w, w.visitOffsetRange)
  }

  // ---------------------------------------------------------------------------
  // Wave status: getTicksUntilBreak, getFoam, update
  // ---------------------------------------------------------------------------

  /** What the geometry code reports about the enemy bot seen from the wave's
      source at one game time: the distance to the nearest bot corner, to the
      bot's centre and to its farthest corner, and the offsets of the bot
      corners and edge crossings that lie between this tick's and the next
      tick's radius. Offsets come from Geom.offset, so they are normalised
      angles. */
  datatype Sighting = Sighting(minDistance: real, distance: real, maxCornerDistance: real,
                               interceptOffsets: seq<real>)

  predicate ValidSighting(s: Sighting) {
    forall i :: 0 <= i < |s.interceptOffsets| ==> -PI <= s.interceptOffsets[i] < PI
  }

  /** The smallest range covering `r` and every offset, built by range.update in order. */
  function Span(r: Range, xs: seq<real>): (u: Range)
    ensures forall i :: 0 <= i < |xs| ==> Contains(u, xs[i])
    ensures u.start <= r.start && u.end >= r.end
    ensures u.start == r.start || exists i :: 0 <= i < |xs| && u.start == xs[i]
    ensures u.end == r.end || exists i :: 0 <= i < |xs| && u.end == xs[i]
    decreases |xs|
  {
    if |xs| == 0 then r
    else
      var front := xs[..|xs| - 1];
      var prev := Span(r, front);
      assert forall i :: 0 <= i < |front| ==> xs[i] == front[i];
      Ranges.Update(prev, xs[|xs| - 1])
  }

  datatype Foam = Foam(status: int, hitOffsetRange: Option<Range>)

  /** Wave radius at a game time. */
  function RadiusAt(w: Wave, gameTime: int): real {
    ((gameTime - w.fireTime) as real) * w.speed
  }

  /** Wave.getFoam: the wave's status relative to the bot, and while it is
      breaking over the bot the range of offsets it covers. */
  function GetFoam(w: Wave, gameTime: int, s: Sighting): (f: Foam)
    requires WellFormed(w)
    ensures MIDAIR <= f.status <= PASSED
    ensures f.hitOffsetRange.Some? <==> (f.status == BREAKING || f.status == WILL_PASS_THIS_TICK)
    ensures RadiusAt(w, gameTime) <= 0.0 ==> f.status == MIDAIR
    ensures (RadiusAt(w, gameTime) > 0.0 && RadiusAt(w, gameTime) > s.distance + MAX_BOT_HALF_WIDTH)
              ==> f.status == PASSED
    ensures f.status == BREAKING || f.status == WILL_PASS_THIS_TICK ==>
              && 0.0 < RadiusAt(w, gameTime) <= s.maxCornerDistance
              && |s.interceptOffsets| > 0
              && (forall i :: 0 <= i < |s.interceptOffsets| ==>
                    Contains(f.hitOffsetRange.value, s.interceptOffsets[i]))
    ensures f.status == WILL_PASS_THIS_TICK <==>
              f.hitOffsetRange.Some? && RadiusAt(w, gameTime) + w.speed > s.maxCornerDistance
    ensures ValidSighting(s) && f.hitOffsetRange.Some? ==>
              -PI <= f.hitOffsetRange.value.start <= f.hitOffsetRange.value.end < PI
  {
    var radius := RadiusAt(w, gameTime);
    var nextRadius := radius + w.speed;
    if radius <= 0.0 then Foam(MIDAIR, None)
    else if nextRadius < s.distance - MAX_BOT_HALF_WIDTH then Foam(MIDAIR, None)
    else if radius > s.distance + MAX_BOT_HALF_WIDTH then Foam(PASSED, None)
    else if radius > s.maxCornerDistance then Foam(PASSED, None)
    else if |s.interceptOffsets| == 0 then Foam(MIDAIR, None)
    else
      var range := Span(Empty(), s.interceptOffsets);
      assert Contains(range, s.interceptOffsets[0]);
      Foam(if nextRadius > s.maxCornerDistance then WILL_PASS_THIS_TICK else BREAKING, Some(range))
  }

  /** Wave.getTicksUntilBreak, with Java's int casts written out. */
  function TicksUntilBreak(w: Wave, gameTime: int, minDistance: real): (t: int)
    requires w.speed > 0.0
    ensures minDistance >= 0.0 ==> t + (gameTime - w.fireTime) >= 0
  {
    Truncate(minDistance / w.speed) - (gameTime - w.fireTime)
  }

  /** The visit ranges a wave can hold: untouched, or a range of normalised angles. */
  predicate VisitsWithinAngles(w: Wave) {
    w.visitOffsetRange == Empty() || -PI <= w.visitOffsetRange.start <= w.visitOffsetRange.end < PI
  }

  datatype Updated = Updated(wave: Wave, status: int)

  /** Wave.update AS WRITTEN: once the wave reaches WILL_PASS_THIS_TICK or
      PASSED with no offset recorded, hitOffset becomes the middle of the visit
      range, even when that range was never touched. */
  function UpdateAsWritten(w: Wave, gameTime: int, s: Sighting): (u: Updated)
    requires WellFormed(w)
    ensures u.status == GetFoam(w, gameTime, s).status
    ensures WellFormed(u.wave) && u.wave.shadows == w.shadows
    ensures w.hitOffset <= HIT_OFFSET_SET_BELOW ==> u.wave.hitOffset == w.hitOffset
  {
    var foam := GetFoam(w, gameTime, s);
    var visits := if foam.hitOffsetRange.Some? then Merge(w.visitOffsetRange, foam.hitOffsetRange.value)
                  else w.visitOffsetRange;
    var hitOffset := if foam.status >= WILL_PASS_THIS_TICK && w.hitOffset > HIT_OFFSET_SET_BELOW
                     then Middle(visits) else w.hitOffset;
    Updated(w.(ticksUntilBreak := TicksUntilBreak(w, gameTime, s.minDistance),
               radius := RadiusAt(w, gameTime),
               visitOffsetRange := visits,
               hitOffset := hitOffset),
            foam.status)
  }

  /** As written, a wave that reaches PASSED always has a hit offset below 100:
      even a wave that never broke over the bot gets the middle of the empty
      range, 0, so the "passed with no data" branch of Waves.update cannot run. */
  lemma PassedWaveAlwaysHasOffsetAsWritten(w: Wave, gameTime: int, s: Sighting)
    requires WellFormed(w) && VisitsWithinAngles(w)
    requires w.hitOffset == NO_HIT_OFFSET
    requires GetFoam(w, gameTime, s).status == PASSED
    ensures UpdateAsWritten(w, gameTime, s).wave.hitOffset < HIT_OFFSET_SET_BELOW
    ensures w.visitOffsetRange == Empty() ==> UpdateAsWritten(w, gameTime, s).wave.hitOffset == 0.0
  {
  }

  /** Wave.update, recording a hit offset only once the wave has actually
      covered part of the bot, which is what the "passed with no data" branch
      of Waves.update expects. The rest of the model uses this version. */
  function Update(w: Wave, gameTime: int, s: Sighting): (u: Updated)
    requires WellFormed(w)
    ensures u.status == GetFoam(w, gameTime, s).status
    ensures WellFormed(u.wave)
    ensures u.wave == w.(ticksUntilBreak := u.wave.ticksUntilBreak, radius := u.wave.radius,
                         visitOffsetRange := u.wave.visitOffsetRange, hitOffset := u.wave.hitOffset)
    ensures u.wave.radius == RadiusAt(w, gameTime)
    ensures u.wave.ticksUntilBreak == TicksUntilBreak(w, gameTime, s.minDistance)
    // the visit range grows only on BREAKING or WILL_PASS_THIS_TICK, to cover the foam
    ensures (u.status == BREAKING || u.status == WILL_PASS_THIS_TICK) ==>
              u.wave.visitOffsetRange == Merge(w.visitOffsetRange, GetFoam(w, gameTime, s).hitOffsetRange.value)
    ensures !(u.status == BREAKING || u.status == WILL_PASS_THIS_TICK) ==>
              u.wave.visitOffsetRange == w.visitOffsetRange
    // the hit offset is set at most once, from the visit range
    ensures w.hitOffset <= HIT_OFFSET_SET_BELOW ==> u.wave.hitOffset == w.hitOffset
    ensures u.wave.hitOffset != w.hitOffset ==>
              u.status >= WILL_PASS_THIS_TICK && u.wave.hitOffset == Middle(u.wave.visitOffsetRange)
    ensures ValidSighting(s) && VisitsWithinAngles(w) ==> VisitsWithinAngles(u.wave)
  {
    var foam := GetFoam(w, gameTime, s);
    var visits := if foam.hitOffsetRange.Some? then Merge(w.visitOffsetRange, foam.hitOffsetRange.value)
                  else w.visitOffsetRange;
    var hitOffset := if foam.status >= WILL_PASS_THIS_TICK && w.hitOffset > HIT_OFFSET_SET_BELOW
                        && !IsEmpty(visits)
                     then Middle(visits) else w.hitOffset;
    Updated(w.(ticksUntilBreak := TicksUntilBreak(w, gameTime, s.minDistance),
               radius := RadiusAt(w, gameTime),
               visitOffsetRange := visits,
               hitOffset := hitOffset),
            foam.status)
  }

  /** With the correction, a wave that passes without ever breaking over the bot
      keeps its "no data" offset, and one that did break gets an offset inside
      the range it covered. */
  lemma UpdateRecordsOnlyObservedOffsets(w: Wave, gameTime: int, s: Sighting)
    requires WellFormed(w) && VisitsWithinAngles(w) && ValidSighting(s)
    requires w.hitOffset == NO_HIT_OFFSET
    ensures var u := Update(w, gameTime, s);
            && (u.wave.visitOffsetRange == Empty() ==> u.wave.hitOffset == NO_HIT_OFFSET)
            && (u.status >= WILL_PASS_THIS_TICK && u.wave.visitOffsetRange != Empty() ==>
                  Contains(u.wave.visitOffsetRange, u.wave.hitOffset) && u.wave.hitOffset < HIT_OFFSET_SET_BELOW)
  {
    var u := Update(w, gameTime, s);
    if u.wave.visitOffsetRange != Empty() {
      assert -PI <= u.wave.visitOffsetRange.start <= u.wave.visitOffsetRange.end < PI;
    }
  }

  // ---------------------------------------------------------------------------
  // Bullet shadows: addBulletShadowsForTime and addBulletShadows
  // ---------------------------------------------------------------------------

  /** The points a shadow can start or end at: the bullet's positions at the
      start and end of the step, or where its path crosses the wave's outer
      (end of step) or inner (start of step) circle. */
  datatype ShadowPoint = BulletStart | BulletEnd | OuterIntercept | InnerIntercept

  /** The geometry of one step of a bullet against a wave: the bullet's
      distances from the wave source at the start and end of the step, and the
      offset of each shadow point, either FastTrig-approximate (false) or
      precise (true). */
  datatype SegmentGeometry = SegmentGeometry(startDistance: real, endDistance: real,
                                             offsetOf: (ShadowPoint, bool) -> real)

  /** The geometry oracle: for a wave id, a bullet, a game time, a bullet tick
      offset and a wave tick offset. */
  type Geometry = (nat, Bullet, int, int, int) -> SegmentGeometry

  /** What one (bulletOffset, waveOffset) step finds. */
  datatype StepOutcome =
    | NotFired          // bullet or wave not yet in flight
    | Receded           // the bullet is inside the wave or moving away from its source
    | Outside           // the bullet is still outside the wave at the step's end
    | Crossing(gfRange: Range, preciseRange: Range, sameTick: bool)

  /** The step pairs examined each tick, in the order of the nested loops. */
  function Combos(w: Wave): (c: seq<(int, int)>)
    ensures |c| >= 1 && c[|c| - 1] == (0, 0)
    ensures forall k :: 0 <= k < |c| ==> c[k] != (-1, -1)
  {
    if w.trackPreciseShadows then [(0, 0)] else [(-1, 0), (0, -1), (0, 0)]
  }

  function Classify(w: Wave, b: Bullet, t: int, bo: int, wo: int, g: SegmentGeometry): (o: StepOutcome)
    requires WellFormed(w)
    ensures o.Crossing? ==> -GF_LIMIT <= o.gfRange.start <= o.gfRange.end <= GF_LIMIT
    ensures o.Crossing? ==> o.preciseRange.start <= o.preciseRange.end
    ensures o.Crossing? ==> o.sameTick == (bo == wo)
  {
    if t - b.fireTime + bo <= 0 || t - w.fireTime + wo <= 0 then NotFired
    else
      var startRadius := ((t - w.fireTime + wo) as real) * w.speed;
      var endRadius := ((t - w.fireTime + 1 + wo) as real) * w.speed;
      if g.startDistance < startRadius || g.endDistance > g.startDistance then Receded
      else if g.endDistance > endRadius then Outside
      else
        var sp := if g.startDistance <= endRadius then BulletStart else OuterIntercept;
        var ep := if g.endDistance >= startRadius then BulletEnd else InnerIntercept;
        Crossing(GetGFRange(w, Range(g.offsetOf(sp, false), g.offsetOf(ep, false))),
                 FromUnsorted(g.offsetOf(sp, true), g.offsetOf(ep, true)),
                 bo == wo)
  }

  function Outcome(w: Wave, b: Bullet, t: int, k: int, geo: Geometry): StepOutcome
    requires WellFormed(w) && 0 <= k < |Combos(w)|
  {
    var c := Combos(w)[k];
    Classify(w, b, t, c.0, c.1, geo(w.id, b, t, c.0, c.1))
  }

  /** The first result of addBulletShadowsForTime: every examined step found
      the bullet already inside the wave or receding from it. */
  predicate BulletPassed(w: Wave, b: Bullet, t: int, geo: Geometry)
    requires WellFormed(w)
  {
    forall k :: 0 <= k < |Combos(w)| ==> Outcome(w, b, t, k, geo).Receded?
  }

  /** The guard in front of the bin loop. */
  predicate ShadowGuard(gfRange: Range) {
    gfRange.start < 0.999 || gfRange.end > -0.999
  }

  /** The guard never fails for a sorted range, so every crossing casts a shadow. */
  lemma ShadowGuardAlwaysHolds(gfRange: Range)
    requires gfRange.start <= gfRange.end
    ensures ShadowGuard(gfRange)
  {
  }

  /** The bin loop: adds one crossing's shadow to the tick's new-shadow buffer,
      saturating for a same-tick step and adding half for a straddling one. */
  function CastShadow(n: seq<real>, gfRange: Range, sameTick: bool): (r: seq<real>)
    requires |n| == NBINS
    requires -GF_LIMIT <= gfRange.start <= gfRange.end <= GF_LIMIT
    ensures |r| == NBINS
    ensures forall i :: 0 <= i < NBINS && !(GetBin(BINS, gfRange.start) <= i <= GetBin(BINS, gfRange.end))
              ==> r[i] == n[i]
    ensures sameTick ==> forall i :: 0 <= i < NBINS && 0.0 <= n[i] <= 1.0 ==> n[i] <= r[i] <= 1.0
    ensures !sameTick ==> forall i :: 0 <= i < NBINS ==> n[i] <= r[i] <= n[i] + 0.5
  {
    var lo := GetBin(BINS, gfRange.start);
    var hi := GetBin(BINS, gfRange.end);
    seq(NBINS, i requires 0 <= i < NBINS =>
      if lo <= i <= hi then ShadowBin(n[i], BinWeight(BINS, gfRange, i), sameTick) else n[i])
  }

  /** One bin of the bin loop: `n += (1 - n) * weight` for a same-tick step,
      `n += 0.5 * weight` otherwise. */
  function ShadowBin(n: real, weight: real, sameTick: bool): (r: real)
    requires 0.0 <= weight <= 1.0
    ensures sameTick && 0.0 <= n <= 1.0 ==> n <= r <= 1.0
    ensures !sameTick ==> n <= r <= n + 0.5
  {
    if sameTick then
      AccumulateOne(n, weight);
      n + (1.0 - n) * weight
    else n + 0.5 * weight
  }

  /** The per-tick state of addBulletShadowsForTime: the new-shadow buffer
      (null until the first crossing) and the wave's precise shadow. */
  datatype TickShadows = TickShadows(newShadows: Option<seq<real>>, shadow: Option<Range>)

  function Step(w: Wave, o: StepOutcome, acc: TickShadows): (r: TickShadows)
    requires WellFormed(w)
    requires acc.newShadows.Some? ==> |acc.newShadows.value| == NBINS
    requires o.Crossing? ==> -GF_LIMIT <= o.gfRange.start <= o.gfRange.end <= GF_LIMIT
    ensures r.newShadows.Some? ==> |r.newShadows.value| == NBINS
    ensures !o.Crossing? ==> r == acc
  {
    if !o.Crossing? then acc
    else
      var shadow := if w.trackPreciseShadows then Some(o.preciseRange) else acc.shadow;
      if ShadowGuard(o.gfRange) then
        var n := if acc.newShadows.Some? then acc.newShadows.value else seq(NBINS, _ => 0.0);
        TickShadows(Some(CastShadow(n, o.gfRange, o.sameTick)), shadow)
      else TickShadows(acc.newShadows, shadow)
  }

  /** The steps of one tick folded in loop order. */
  function StepsFrom(w: Wave, b: Bullet, t: int, geo: Geometry, k: nat, acc: TickShadows): (r: TickShadows)
    requires WellFormed(w) && k <= |Combos(w)|
    requires acc.newShadows.Some? ==> |acc.newShadows.value| == NBINS
    ensures r.newShadows.Some? ==> |r.newShadows.value| == NBINS
    decreases |Combos(w)| - k
  {
    if k == |Combos(w)| then acc
    else StepsFrom(w, b, t, geo, k + 1, Step(w, Outcome(w, b, t, k, geo), acc))
  }

  function ShadowsForTime(w: Wave, b: Bullet, t: int, geo: Geometry, shadow: Option<Range>): (r: TickShadows)
    requires WellFormed(w)
    ensures r.newShadows.Some? ==> |r.newShadows.value| == NBINS
  {
    StepsFrom(w, b, t, geo, 0, TickShadows(None, shadow))
  }

  /** A tick on which the bullet has passed adds no shadow. */
  lemma {:induction false} PassedTickCastsNoShadow(w: Wave, b: Bullet, t: int, geo: Geometry,
                                                   k: nat, acc: TickShadows)
    requires WellFormed(w) && k <= |Combos(w)|
    requires acc.newShadows.Some? ==> |acc.newShadows.value| == NBINS
    requires BulletPassed(w, b, t, geo)
    ensures StepsFrom(w, b, t, geo, k, acc) == acc
    decreases |Combos(w)| - k
  {
    if k < |Combos(w)| {
      assert Outcome(w, b, t, k, geo).Receded?;
      PassedTickCastsNoShadow(w, b, t, geo, k + 1, acc);
    }
  }

  predicate AllAtMost(n: seq<real>, c: real) {
    forall i :: 0 <= i < |n| ==> 0.0 <= n[i] <= c
  }

  lemma StepBounded(w: Wave, o: StepOutcome, acc: TickShadows, c: real)
    requires WellFormed(w)
    requires acc.newShadows.Some? ==> |acc.newShadows.value| == NBINS && AllAtMost(acc.newShadows.value, c)
    requires o.Crossing? ==> -GF_LIMIT <= o.gfRange.start <= o.gfRange.end <= GF_LIMIT
    requires 0.0 <= c <= 1.0
    requires o.Crossing? && !o.sameTick ==> c <= 0.5
    ensures var r := Step(w, o, acc);
            r.newShadows.Some? ==> AllAtMost(r.newShadows.value, if o.Crossing? then (if o.sameTick then 1.0 else c + 0.5) else c)
  {
  }

  /** Every new-shadow buffer stays in [0, 1]: at most two half steps come before
      the saturating same-tick step. */
  lemma ShadowsForTimeBounded(w: Wave, b: Bullet, t: int, geo: Geometry, shadow: Option<Range>)
    requires WellFormed(w)
    ensures var r := ShadowsForTime(w, b, t, geo, shadow);
            r.newShadows.Some? ==> InUnit(r.newShadows.value)
  {
    var a0 := TickShadows(None, shadow);
    var o0 := Outcome(w, b, t, 0, geo);
    var a1 := Step(w, o0, a0);
    StepBounded(w, o0, a0, 0.0);
    if w.trackPreciseShadows {
      assert StepsFrom(w, b, t, geo, 1, a1) == a1;
    } else {
      assert a1.newShadows.Some? ==> AllAtMost(a1.newShadows.value, 0.5);
      var o1 := Outcome(w, b, t, 1, geo);
      var a2 := Step(w, o1, a1);
      StepBounded(w, o1, a1, 0.5);
      assert a2.newShadows.Some? ==> AllAtMost(a2.newShadows.value, 1.0);
      var o2 := Outcome(w, b, t, 2, geo);
      var a3 := Step(w, o2, a2);
      StepBounded(w, o2, a2, 1.0);
      assert StepsFrom(w, b, t, geo, 3, a3) == a3;
      assert StepsFrom(w, b, t, geo, 2, a2) == a3;
      assert StepsFrom(w, b, t, geo, 1, a1) == a3;
    }
  }

  /** The saturating merge of a tick's new shadows into `s`. */
  function Accumulate(s: seq<real>, n: seq<real>): (r: seq<real>)
    requires |s| == |n|
    ensures |r| == |s|
    ensures forall i :: 0 <= i < |s| && n[i] > 0.0 ==> 1.0 - r[i] == (1.0 - s[i]) * (1.0 - n[i])
    ensures forall i :: 0 <= i < |s| && n[i] <= 0.0 ==> r[i] == s[i]
  {
    seq(|s|, i requires 0 <= i < |s| => if n[i] > 0.0 then s[i] + (1.0 - s[i]) * n[i] else s[i])
  }

  /** Accumulation keeps shadows in [0, 1], never lowers one, and a full shadow stays full. */
  lemma AccumulateBounds(s: seq<real>, n: seq<real>)
    requires |s| == |n| && InUnit(n)
    ensures InUnit(s) ==> InUnit(Accumulate(s, n))
    ensures InUnit(s) ==> forall i :: 0 <= i < |s| ==> s[i] <= Accumulate(s, n)[i]
    ensures forall i :: 0 <= i < |s| && s[i] == 1.0 ==> Accumulate(s, n)[i] == 1.0
  {
    var r := Accumulate(s, n);
    forall i | 0 <= i < |s|
      ensures 0.0 <= s[i] <= 1.0 ==> 0.0 <= r[i] <= 1.0 && s[i] <= r[i]
    {
      if n[i] > 0.0 {
        assert r[i] == s[i] + (1.0 - s[i]) * n[i];
        AccumulateOne(s[i], n[i]);
      } else {
        assert r[i] == s[i];
      }
    }
  }

  lemma AccumulateOne(x: real, y: real)
    requires 0.0 <= y <= 1.0
    ensures 0.0 <= x <= 1.0 ==> x <= x + (1.0 - x) * y <= 1.0
  {
    if 0.0 <= x <= 1.0 {
      var a := 1.0 - x;
      var p := a * y;
      ScaleDown(a, y);
      assert p <= a;
      assert 0.0 <= p;
      assert x <= x + p <= 1.0;
      assert x + (1.0 - x) * y == x + p;
    }
  }

  lemma AccumulateBoundsIfAny(s: seq<real>, n: Option<seq<real>>)
    requires n.Some? ==> |n.value| == |s| && InUnit(n.value)
    ensures n.Some? && InUnit(s) ==> InUnit(Accumulate(s, n.value))
    ensures n.Some? && InUnit(s) ==> forall i :: 0 <= i < |s| ==> s[i] <= Accumulate(s, n.value)[i]
  {
    if n.Some? {
      AccumulateBounds(s, n.value);
    }
  }

  /** The order in which two bullets' shadows are accumulated does not matter. */
  lemma AccumulateCommutes(s: seq<real>, n1: seq<real>, n2: seq<real>)
    requires |s| == |n1| == |n2|
    ensures Accumulate(Accumulate(s, n1), n2) == Accumulate(Accumulate(s, n2), n1)
  {
    var a := Accumulate(Accumulate(s, n1), n2);
    var b := Accumulate(Accumulate(s, n2), n1);
    forall i | 0 <= i < |s|
      ensures a[i] == b[i]
    {
      if n1[i] > 0.0 && n2[i] > 0.0 {
        assert 1.0 - a[i] == (1.0 - s[i]) * (1.0 - n1[i]) * (1.0 - n2[i]);
        assert 1.0 - b[i] == (1.0 - s[i]) * (1.0 - n2[i]) * (1.0 - n1[i]);
      }
    }
  }

  /** The outcome of one addBulletShadows loop: the final shadows and precise
      shadow, and whether some tick cast no shadow / some tick cast one. */
  datatype ShadowPass = ShadowPass(shadows: seq<real>, shadow: Option<Range>,
                                   tickWithoutShadow: bool, tickWithShadow: bool)

  /** addBulletShadows from tick `t` on. The Java loop has no bound; `limit` is
      a tick at which the bullet is known to have passed, which makes the
      loop finite. */
  function ShadowTicks(w: Wave, b: Bullet, geo: Geometry, t: int, limit: int,
                       s: seq<real>, shadow: Option<Range>): (r: ShadowPass)
    requires WellFormed(w) && |s| == NBINS
    requires t <= limit && BulletPassed(w, b, limit, geo)
    ensures |r.shadows| == NBINS
    ensures r.tickWithoutShadow
    ensures !r.tickWithShadow ==> r.shadows == s
    ensures InUnit(s) ==> InUnit(r.shadows) && forall i :: 0 <= i < NBINS ==> s[i] <= r.shadows[i]
    decreases limit - t
  {
    var tick := ShadowsForTime(w, b, t, geo, shadow);
    ShadowsForTimeBounded(w, b, t, geo, shadow);
    var s' := if tick.newShadows.Some? then Accumulate(s, tick.newShadows.value) else s;
    AccumulateBoundsIfAny(s, tick.newShadows);
    if BulletPassed(w, b, t, geo) then
      PassedTickCastsNoShadow(w, b, t, geo, 0, TickShadows(None, shadow));
      ShadowPass(s', tick.shadow, tick.newShadows.None?, tick.newShadows.Some?)
    else
      var rest := ShadowTicks(w, b, geo, t + 1, limit, s', tick.shadow);
      ShadowPass(rest.shadows, rest.shadow,
                 tick.newShadows.None? || rest.tickWithoutShadow,
                 tick.newShadows.Some? || rest.tickWithShadow)
  }

  /** The first tick the loop examines. */
  function FirstShadowTick(w: Wave, b: Bullet): int {
    if b.fireTime >= w.fireTime then b.fireTime else w.fireTime
  }

  datatype ShadowResult = ShadowResult(changed: bool, shadows: seq<real>, shadow: Option<Range>)

  /** Wave.addBulletShadows AS WRITTEN: `shadowsChanged |= result[1]`, where
      result[1] is "no new shadows this tick". */
  function AddBulletShadowsAsWritten(w: Wave, b: Bullet, geo: Geometry, limit: int, s: seq<real>): (r: ShadowResult)
    requires WellFormed(w) && |s| == NBINS
    requires FirstShadowTick(w, b) <= limit && BulletPassed(w, b, limit, geo)
  {
    var p := ShadowTicks(w, b, geo, FirstShadowTick(w, b), limit, s, w.shadow);
    ShadowResult(p.tickWithoutShadow, p.shadows, p.shadow)
  }

  /** As written the result is always true: the tick that ends the loop has the
      bullet passed, and such a tick never casts a shadow. */
  lemma AddBulletShadowsAsWrittenAlwaysTrue(w: Wave, b: Bullet, geo: Geometry, limit: int, s: seq<real>)
    requires WellFormed(w) && |s| == NBINS
    requires FirstShadowTick(w, b) <= limit && BulletPassed(w, b, limit, geo)
    ensures AddBulletShadowsAsWritten(w, b, geo, limit, s).changed
  {
  }

  /** A bullet that passes the wave on the first tick examined, e.g. one fired
      from inside an already expanded wave, still reports a change as written. */
  lemma AsWrittenReportsChangeWithoutShadow(w: Wave, b: Bullet, geo: Geometry, s: seq<real>)
    requires WellFormed(w) && |s| == NBINS
    requires BulletPassed(w, b, FirstShadowTick(w, b), geo)
    ensures AddBulletShadowsAsWritten(w, b, geo, FirstShadowTick(w, b), s).changed
    ensures AddBulletShadows(w, b, geo, FirstShadowTick(w, b), s, w.shadow).shadows == s
    ensures !AddBulletShadows(w, b, geo, FirstShadowTick(w, b), s, w.shadow).changed
  {
    var t := FirstShadowTick(w, b);
    PassedTickCastsNoShadow(w, b, t, geo, 0, TickShadows(None, w.shadow));
  }

  /** Wave.addBulletShadows as intended, from shadows `s` and precise shadow
      `shadow`: true exactly when some tick cast a shadow, so a false result
      guarantees the shadows are untouched. The rest of the model uses this
      version. */
  function AddBulletShadows(w: Wave, b: Bullet, geo: Geometry, limit: int, s: seq<real>, shadow: Option<Range>)
    : (r: ShadowResult)
    requires WellFormed(w) && |s| == NBINS
    requires FirstShadowTick(w, b) <= limit && BulletPassed(w, b, limit, geo)
    ensures |r.shadows| == NBINS
    ensures !r.changed ==> r.shadows == s
    ensures InUnit(s) ==> InUnit(r.shadows) && forall i :: 0 <= i < NBINS ==> s[i] <= r.shadows[i]
  {
    var p := ShadowTicks(w, b, geo, FirstShadowTick(w, b), limit, s, shadow);
    ShadowResult(p.tickWithShadow, p.shadows, p.shadow)
  }

  /** Wave.addBulletShadows(Bullet): the one-argument overload writes into the
      wave's own shadows. */
  function AddBulletShadowsToWave(w: Wave, b: Bullet, geo: Geometry, limit: int): (r: (bool, Wave))
    requires WellFormed(w)
    requires FirstShadowTick(w, b) <= limit && BulletPassed(w, b, limit, geo)
    ensures WellFormed(r.1)
    ensures r.1 == w.(shadows := r.1.shadows, shadow := r.1.shadow)
    ensures !r.0 ==> r.1.shadows == w.shadows
    ensures InUnit(w.shadows) ==> InUnit(r.1.shadows)
  {
    var res := AddBulletShadows(w, b, geo, limit, w.shadows, w.shadow);
    (res.changed, w.(shadows := res.shadows, shadow := res.shadow))
  }
}
