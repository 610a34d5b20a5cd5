/** kc.mega.game.BattleField: the field rectangle that a bot's centre must
    stay inside (18 units from each wall), wall collisions, wall distance and
    the orbital wall distance feature. Geom.project is folded into an oracle
    that says whether the enemy, moved around this bot by a given angle, would
    still be inside the field. */
module BattleFields {
  import opened MathUtils
  import opened BotStates

  const BOT_HALF_WIDTH: real := 18.0
  const WALL_SEARCH_STEPS: nat := 12

  datatype Field = Field(width: real, height: real, gunCoolingRate: real)

  datatype Point = Point(x: real, y: real)

  /** Rectangle2D.contains on the field rectangle: half-open, so the far edges
      are outside. */
  predicate Contains(f: Field, p: Point) {
    BOT_HALF_WIDTH <= p.x < f.width - BOT_HALF_WIDTH &&
    BOT_HALF_WIDTH <= p.y < f.height - BOT_HALF_WIDTH
  }

  function Center(f: Field): Point {
    Point(f.width / 2.0, f.height / 2.0)
  }

  /** BattleField.mirrorLocation: the point reflected through the centre. */
  function MirrorLocation(f: Field, p: Point): (m: Point)
    ensures m.x + p.x == f.width && m.y + p.y == f.height
  {
    Point(2.0 * Center(f).x - p.x, 2.0 * Center(f).y - p.y)
  }

  /** Mirroring is an involution. */
  lemma MirrorInvolution(f: Field, p: Point)
    ensures MirrorLocation(f, MirrorLocation(f, p)) == p
  {
  }

  /** BattleField.wallCollisionCheck: a state inside the field is unchanged; a
      state outside is pushed back to the nearest point inside the closed
      field and stopped, keeping its heading and time. */
  function WallCollisionCheck(f: Field, s: PredictState): (r: PredictState)
    ensures Contains(f, Point(s.x, s.y)) ==> r == s
    ensures !Contains(f, Point(s.x, s.y)) ==>
              r.velocity == 0.0 && r.heading == s.heading && r.gameTime == s.gameTime &&
              r.x == Clip(s.x, BOT_HALF_WIDTH, f.width - BOT_HALF_WIDTH) &&
              r.y == Clip(s.y, BOT_HALF_WIDTH, f.height - BOT_HALF_WIDTH)
    ensures f.width >= 2.0 * BOT_HALF_WIDTH && f.height >= 2.0 * BOT_HALF_WIDTH ==>
              BOT_HALF_WIDTH <= r.x <= f.width - BOT_HALF_WIDTH &&
              BOT_HALF_WIDTH <= r.y <= f.height - BOT_HALF_WIDTH
  {
    if !Contains(f, Point(s.x, s.y)) then
      PredictState(Clip(s.x, BOT_HALF_WIDTH, f.width - BOT_HALF_WIDTH),
                   Clip(s.y, BOT_HALF_WIDTH, f.height - BOT_HALF_WIDTH),
                   s.heading, 0.0, s.gameTime)
    else s
  }

  /** A collision check is idempotent: the clipped point is already inside
      the bounds and the bot already stopped, so a second check changes nothing. */
  lemma WallCollisionCheckSettles(f: Field, s: PredictState)
    requires f.width >= 2.0 * BOT_HALF_WIDTH && f.height >= 2.0 * BOT_HALF_WIDTH
    ensures WallCollisionCheck(f, WallCollisionCheck(f, s)) == WallCollisionCheck(f, s)
  {
  }

  /** BattleField.wallDistance: the distance to the nearest wall. */
  function WallDistance(f: Field, p: Point): (d: real)
    ensures d <= p.x && d <= p.y && d <= f.width - p.x && d <= f.height - p.y
    ensures d == p.x || d == p.y || d == f.width - p.x || d == f.height - p.y
  {
    Min(Min(p.x, p.y), Min(f.width - p.x, f.height - p.y))
  }

  /** Mirroring a point keeps its distance to the nearest wall. */
  lemma MirrorKeepsWallDistance(f: Field, p: Point)
    ensures WallDistance(f, MirrorLocation(f, p)) == WallDistance(f, p)
  {
  }

  /** The oracle's field is "inside up to angle t": moving the enemy by an
      angle keeps it in the field exactly while the angle is at most t. */
  ghost predicate InsideUpTo(inField: real -> bool, t: real) {
    forall a: real :: inField(a) <==> a <= t
  }

  /** The search interval of the orbital wall distance: 1.5 escape angles and
      a little slack. */
  function SearchTop(maxEscapeAngle: real): real {
    1.5 * maxEscapeAngle + 0.01
  }

  lemma PowTwoTwelve()
    ensures Pow(2.0, WALL_SEARCH_STEPS) == 4096.0
  {
    assert Pow(2.0, 0) == 1.0;
    assert Pow(2.0, 1) == 2.0;
    assert Pow(2.0, 2) == 4.0;
    assert Pow(2.0, 3) == 8.0;
    assert Pow(2.0, 4) == 16.0;
    assert Pow(2.0, 5) == 32.0;
    assert Pow(2.0, 6) == 64.0;
    assert Pow(2.0, 7) == 128.0;
    assert Pow(2.0, 8) == 256.0;
    assert Pow(2.0, 9) == 512.0;
    assert Pow(2.0, 10) == 1024.0;
    assert Pow(2.0, 11) == 2048.0;
  }

  lemma {:induction false} PowTwoPositive(i: nat)
    ensures Pow(2.0, i) >= 1.0
  {
    if i > 0 {
      PowTwoPositive(i - 1);
    }
  }

  /** The width of the search interval after `i` halvings. */
  function Step(top: real, i: nat): (w: real)
    ensures top > 0.0 ==> w > 0.0
  {
    PowTwoPositive(i);
    top / Pow(2.0, i)
  }

  lemma HalveInterval(lo: real, hi: real, top: real, i: nat)
    requires lo - hi == Step(top, i)
    ensures (lo + hi) / 2.0 - hi == Step(top, i + 1)
    ensures lo - (lo + hi) / 2.0 == Step(top, i + 1)
  {
    PowTwoPositive(i);
    var p := Pow(2.0, i);
    assert Pow(2.0, i + 1) == 2.0 * p;
    assert (top / p) / 2.0 == top / (2.0 * p);
  }

  /** BattleField.orbitalWallDistance as written. The twelve bisection steps
      move the upper end `lo` down when the probe is inside the field and the
      lower end `hi` up when it is outside, so on a field that is inside up to
      some angle the search runs to one end of the interval: the result is
      either one step above 0 or one step below the top, wherever the wall is. */
  method OrbitalWallDistanceAsWritten(maxEscapeAngle: real, inField: real -> bool, ghost t: real)
    returns (r: real, wallDistance: real)
    requires maxEscapeAngle > 0.0
    ensures r == Min(wallDistance / maxEscapeAngle, 1.5)
    ensures InsideUpTo(inField, t) ==>
              wallDistance == SearchTop(maxEscapeAngle) / 4096.0 ||
              wallDistance == SearchTop(maxEscapeAngle) - SearchTop(maxEscapeAngle) / 4096.0
    ensures InsideUpTo(inField, t) && t >= SearchTop(maxEscapeAngle) / 2.0 ==>
              wallDistance == SearchTop(maxEscapeAngle) / 4096.0
    ensures InsideUpTo(inField, t) && t < SearchTop(maxEscapeAngle) / 2.0 ==>
              wallDistance == SearchTop(maxEscapeAngle) - SearchTop(maxEscapeAngle) / 4096.0
  {
    var top := SearchTop(maxEscapeAngle);
    var hi := 0.0;
    var lo := top;
    wallDistance := 0.0;
    var i := 0;
    while i < WALL_SEARCH_STEPS
      invariant 0 <= i <= WALL_SEARCH_STEPS
      invariant 0.0 <= hi <= lo <= top
      invariant lo - hi == Step(top, i)
      invariant InsideUpTo(inField, t) ==> hi == 0.0 || lo == top
      invariant InsideUpTo(inField, t) && hi != 0.0 ==> hi > t
      invariant InsideUpTo(inField, t) && lo != top ==> lo <= t
      invariant i > 0 && InsideUpTo(inField, t) ==> (hi == 0.0 <==> t >= top / 2.0)
      invariant i > 0 ==> (wallDistance == lo && lo != top) || (wallDistance == hi && hi != 0.0)
    {
      HalveInterval(lo, hi, top, i);
      PowTwoPositive(i + 1);
      wallDistance := (lo + hi) / 2.0;
      if inField(wallDistance) {
        lo := wallDistance;
      } else {
        hi := wallDistance;
      }
      i := i + 1;
    }
    PowTwoTwelve();
    r := Min(wallDistance / maxEscapeAngle, 1.5);
  }

  /** The corrected orbitalWallDistance: a probe inside the field raises the
      lower end, a probe outside lowers the upper end, so on a field that is
      inside up to angle t the search ends within one step of t (clamped to
      the interval). */
  method OrbitalWallDistance(maxEscapeAngle: real, inField: real -> bool, ghost t: real)
    returns (r: real, wallDistance: real)
    requires maxEscapeAngle > 0.0
    ensures r == Min(wallDistance / maxEscapeAngle, 1.5)
    ensures 0.0 <= wallDistance <= SearchTop(maxEscapeAngle)
    ensures 0.0 <= r <= 1.5
    ensures InsideUpTo(inField, t) && 0.0 <= t < SearchTop(maxEscapeAngle) ==>
              Abs(wallDistance - t) <= SearchTop(maxEscapeAngle) / 4096.0
  {
    var top := SearchTop(maxEscapeAngle);
    var below := 0.0;
    var above := top;
    wallDistance := 0.0;
    var i := 0;
    while i < WALL_SEARCH_STEPS
      invariant 0 <= i <= WALL_SEARCH_STEPS
      invariant 0.0 <= below <= above <= top
      invariant above - below == Step(top, i)
      invariant 0.0 <= wallDistance <= top
      invariant InsideUpTo(inField, t) && 0.0 <= t < top ==> below <= t < above
      invariant i > 0 ==> wallDistance == below || wallDistance == above
    {
      HalveInterval(above, below, top, i);
      PowTwoPositive(i + 1);
      wallDistance := (above + below) / 2.0;
      if inField(wallDistance) {
        below := wallDistance;
      } else {
        above := wallDistance;
      }
      i := i + 1;
    }
    PowTwoTwelve();
    r := Min(wallDistance / maxEscapeAngle, 1.5);
    DivideMonotone(0.0, wallDistance, maxEscapeAngle);
  }
}
