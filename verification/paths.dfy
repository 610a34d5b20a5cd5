/** kc.mega.move.Paths: the library of movement plans. A plan says, tick by
    tick, whether to drive forward (1), halt (0) or back up (-1). For every
    starting speed the library holds each plan of up to 50 ticks that keeps
    one intended direction and may switch to another once, filed by length
    and keyed by the end velocity and the distance covered; a lookup finds
    the plan nearest a desired end velocity and distance. */
module Paths {
  import opened MathUtils
  import opened Physics

  const FORWARD_PATH: seq<int> := [1]
  const BACKWARD_PATH: seq<int> := [-1]
  const HALT_PATH: seq<int> := [0]

  const MAX_PATH_LENGTH: nat := 50
  const VELOCITY_STEP: real := 0.5
  const VELOCITY_DISTANCE_SCALE: real := 3.0
  /** The starting speeds 0, 0.5, .., 8 the constructor enumerates. */
  const NUM_VELOCITIES: nat := 17

  /** A plan as the library files it: the stored steps, the directions the
      enumeration intended for them, the velocity after the last tick and
      the distance covered. */
  datatype Entry = Entry(path: seq<int>, directions: seq<int>, endVelocity: real, distance: real)

  predicate IsDirection(d: int) { d == -1 || d == 0 || d == 1 }

  predicate AllDirections(s: seq<int>) {
    forall i :: 0 <= i < |s| ==> IsDirection(s[i])
  }

  /** The number of ticks at which the sequence differs from the tick before. */
  function Changes(s: seq<int>): nat {
    if |s| <= 1 then 0
    else Changes(s[..|s| - 1]) + if s[|s| - 2] != s[|s| - 1] then 1 else 0
  }

  /** Whether appending `d` to `s` would change direction. */
  function Turn(s: seq<int>, d: int): nat {
    if |s| > 0 && s[|s| - 1] != d then 1 else 0
  }

  lemma ChangesAppend(s: seq<int>, d: int)
    ensures Changes(s + [d]) == Changes(s) + Turn(s, d)
  {
    if |s| > 0 {
      assert (s + [d])[..|s|] == s;
    }
  }

  /** The step addPaths stores: halting (0) stands in for reversing while the
      bot is still moving fast the other way. */
  function StoredStep(velocity: real, direction: int): (step: int)
    requires IsDirection(direction)
    ensures IsDirection(step)
    ensures step == 0 <==> direction == 0 || (Abs(velocity) > 1.99 && velocity * (direction as real) < 0.0)
    ensures step != 0 ==> step == direction
  {
    if Abs(velocity) > 1.99 && velocity * (direction as real) < 0.0 then 0 else direction
  }

  /** The two directions other than `d`, in the order addPaths branches to them. */
  function FirstOther(d: int): int { if d == 1 then -1 else d + 1 }
  function SecondOther(d: int): int { if d == -1 then 1 else d - 1 }

  lemma OthersDiffer(d: int)
    requires IsDirection(d)
    ensures IsDirection(FirstOther(d)) && IsDirection(SecondOther(d))
    ensures FirstOther(d) != d && SecondOther(d) != d && FirstOther(d) != SecondOther(d)
  {
  }

  /** What every filed plan satisfies: 1 to 50 ticks, each step one of the
      three directions and either the intended direction or a halt, and the
      intended direction changing at most once. */
  predicate WellFiled(e: Entry) {
    && 1 <= |e.path| <= MAX_PATH_LENGTH
    && |e.directions| == |e.path|
    && AllDirections(e.directions)
    && (forall i :: 0 <= i < |e.path| ==> e.path[i] == e.directions[i] || e.path[i] == 0)
    && Changes(e.directions) <= 1
  }

  /** Paths.addPaths: the plans filed from a partial plan on. Before the
      direction has changed, the enumeration first branches to each other
      direction; then it extends the plan by one tick in the current
      direction, files it, and carries on. */
  function AddPaths(direction: int, velocity: real, distance: real, path: seq<int>, directions: seq<int>,
                    dirChanged: bool): (r: seq<Entry>)
    requires IsDirection(direction) && |path| == |directions| <= MAX_PATH_LENGTH
    decreases MAX_PATH_LENGTH - |path|, if dirChanged then 0 else 1
  {
    if |path| == MAX_PATH_LENGTH then []
    else
      var branches :=
        if dirChanged then []
        else
          AddPaths(FirstOther(direction), velocity, distance, path, directions, true)
            + AddPaths(SecondOther(direction), velocity, distance, path, directions, true);
      var extended := path + [StoredStep(velocity, direction)];
      var v := NextVelocity(velocity, direction);
      var filed := Entry(extended, directions + [direction], v, distance + v);
      branches + [filed] + AddPaths(direction, v, distance + v, extended, directions + [direction], dirChanged)
  }

  /** The partial plan a call of addPaths starts from is itself well formed
      and leaves room for at most one more change of direction. */
  predicate Partial(direction: int, path: seq<int>, directions: seq<int>, dirChanged: bool) {
    && |directions| == |path|
    && AllDirections(directions)
    && (forall i :: 0 <= i < |path| ==> path[i] == directions[i] || path[i] == 0)
    && Changes(directions) + Turn(directions, direction) <= if dirChanged then 1 else 0
  }

  /** A well-filed plan that extends `path` by at least one tick. */
  predicate FiledFrom(e: Entry, path: seq<int>) {
    WellFiled(e) && |path| < |e.path| && e.path[..|path|] == path
  }

  lemma FiledFromShorter(e: Entry, extended: seq<int>, path: seq<int>)
    requires FiledFrom(e, extended) && |path| < |extended| && extended[..|path|] == path
    ensures FiledFrom(e, path)
  {
    assert e.path[..|extended|][..|path|] == e.path[..|path|];
  }

  /** Extending a partial plan by one tick in the current direction gives a
      well-filed plan and a partial plan to carry on from. */
  lemma ExtendPartial(direction: int, velocity: real, path: seq<int>, directions: seq<int>, dirChanged: bool)
    requires IsDirection(direction) && |path| < MAX_PATH_LENGTH
    requires Partial(direction, path, directions, dirChanged)
    ensures Partial(direction, path + [StoredStep(velocity, direction)], directions + [direction], dirChanged)
    ensures WellFiled(Entry(path + [StoredStep(velocity, direction)], directions + [direction], 0.0, 0.0))
  {
    ChangesAppend(directions, direction);
    var extended := path + [StoredStep(velocity, direction)];
    assert extended[..|path|] == path;
  }

  /** Every plan addPaths files extends the partial plan it started from and
      is well filed. */
  lemma {:induction false} AddPathsWellFiled(direction: int, velocity: real, distance: real, path: seq<int>,
                                             directions: seq<int>, dirChanged: bool)
    requires IsDirection(direction) && |path| <= MAX_PATH_LENGTH
    requires Partial(direction, path, directions, dirChanged)
    ensures AllFiledFrom(AddPaths(direction, velocity, distance, path, directions, dirChanged), path)
    decreases MAX_PATH_LENGTH - |path|, if dirChanged then 0 else 1, 2
  {
    if |path| < MAX_PATH_LENGTH {
      AddPathsWellFiledFrom(direction, velocity, distance, path, directions, dirChanged);
    } else {
      assert AddPaths(direction, velocity, distance, path, directions, dirChanged) == [];
    }
  }

  lemma {:induction false} AddPathsWellFiledFrom(direction: int, velocity: real, distance: real, path: seq<int>,
                                                 directions: seq<int>, dirChanged: bool)
    requires IsDirection(direction) && |path| < MAX_PATH_LENGTH
    requires Partial(direction, path, directions, dirChanged)
    ensures AllFiledFrom(AddPaths(direction, velocity, distance, path, directions, dirChanged), path)
    decreases MAX_PATH_LENGTH - |path|, if dirChanged then 0 else 1, 1
  {
    BranchesFiled(direction, velocity, distance, path, directions, dirChanged);
    ExtensionFiled(direction, velocity, distance, path, directions, dirChanged);
    FiledLevel(direction, velocity, distance, path, directions, dirChanged);
  }

  /** One level of addPaths files well when its three parts do. */
  lemma FiledLevel(direction: int, velocity: real, distance: real, path: seq<int>,
                   directions: seq<int>, dirChanged: bool)
    requires IsDirection(direction) && |path| == |directions| < MAX_PATH_LENGTH
    ensures var extended := path + [StoredStep(velocity, direction)];
            var v := NextVelocity(velocity, direction);
            (&& AllFiledFrom(Branches(direction, velocity, distance, path, directions, dirChanged), path)
             && AllFiledFrom([Entry(extended, directions + [direction], v, distance + v)], path)
             && AllFiledFrom(AddPaths(direction, v, distance + v, extended, directions + [direction], dirChanged), path))
            ==> AllFiledFrom(AddPaths(direction, velocity, distance, path, directions, dirChanged), path)
  {
    var extended := path + [StoredStep(velocity, direction)];
    var v := NextVelocity(velocity, direction);
    AddPathsUnfold(direction, velocity, distance, path, directions, dirChanged);
    AllFiledFromConcat(Branches(direction, velocity, distance, path, directions, dirChanged),
                       [Entry(extended, directions + [direction], v, distance + v)],
                       AddPaths(direction, v, distance + v, extended, directions + [direction], dirChanged), path);
  }

  /** The plan extended by one tick, and everything enumerated from it. */
  lemma {:induction false} ExtensionFiled(direction: int, velocity: real, distance: real, path: seq<int>,
                                          directions: seq<int>, dirChanged: bool)
    requires IsDirection(direction) && |path| < MAX_PATH_LENGTH
    requires Partial(direction, path, directions, dirChanged)
    ensures var extended := path + [StoredStep(velocity, direction)];
            var v := NextVelocity(velocity, direction);
            && AllFiledFrom([Entry(extended, directions + [direction], v, distance + v)], path)
            && AllFiledFrom(AddPaths(direction, v, distance + v, extended, directions + [direction], dirChanged), path)
    decreases MAX_PATH_LENGTH - |path|, if dirChanged then 0 else 1, 0
  {
    var extended := path + [StoredStep(velocity, direction)];
    var dirs := directions + [direction];
    var v := NextVelocity(velocity, direction);
    ExtendPartial(direction, velocity, path, directions, dirChanged);
    assert extended[..|path|] == path;
    AddPathsWellFiled(direction, v, distance + v, extended, dirs, dirChanged);
    AllFiledFromShorter(AddPaths(direction, v, distance + v, extended, dirs, dirChanged), extended, path);
  }

  /** The enumerations addPaths starts in the two other directions while the
      plan has not yet changed direction. */
  function Branches(direction: int, velocity: real, distance: real, path: seq<int>, directions: seq<int>,
                    dirChanged: bool): seq<Entry>
    requires IsDirection(direction) && |path| == |directions| < MAX_PATH_LENGTH
  {
    if dirChanged then []
    else
      AddPaths(FirstOther(direction), velocity, distance, path, directions, true)
        + AddPaths(SecondOther(direction), velocity, distance, path, directions, true)
  }

  lemma {:induction false} BranchesFiled(direction: int, velocity: real, distance: real, path: seq<int>,
                                         directions: seq<int>, dirChanged: bool)
    requires IsDirection(direction) && |path| < MAX_PATH_LENGTH
    requires Partial(direction, path, directions, dirChanged)
    ensures AllFiledFrom(Branches(direction, velocity, distance, path, directions, dirChanged), path)
    decreases MAX_PATH_LENGTH - |path|, if dirChanged then 0 else 1, 0
  {
    if !dirChanged {
      OthersDiffer(direction);
      AddPathsWellFiled(FirstOther(direction), velocity, distance, path, directions, true);
      AddPathsWellFiled(SecondOther(direction), velocity, distance, path, directions, true);
      AllFiledFromConcat(AddPaths(FirstOther(direction), velocity, distance, path, directions, true),
                         AddPaths(SecondOther(direction), velocity, distance, path, directions, true), [], path);
      assert Branches(direction, velocity, distance, path, directions, dirChanged) ==
        AddPaths(FirstOther(direction), velocity, distance, path, directions, true)
          + AddPaths(SecondOther(direction), velocity, distance, path, directions, true) + [];
    }
  }

  /** One level of addPaths: the two turned branches (before any change of
      direction), the extended plan, then the enumeration carried on from it. */
  lemma AddPathsUnfold(direction: int, velocity: real, distance: real, path: seq<int>,
                       directions: seq<int>, dirChanged: bool)
    requires IsDirection(direction) && |path| == |directions| < MAX_PATH_LENGTH
    ensures var v := NextVelocity(velocity, direction);
            var extended := path + [StoredStep(velocity, direction)];
            AddPaths(direction, velocity, distance, path, directions, dirChanged) ==
              Branches(direction, velocity, distance, path, directions, dirChanged)
              + [Entry(extended, directions + [direction], v, distance + v)]
              + AddPaths(direction, v, distance + v, extended, directions + [direction], dirChanged)
  {
  }

  /** Every entry of `s` is filed from `path`. */
  predicate AllFiledFrom(s: seq<Entry>, path: seq<int>) {
    forall e :: e in s ==> FiledFrom(e, path)
  }

  lemma AllFiledFromShorter(s: seq<Entry>, extended: seq<int>, path: seq<int>)
    requires AllFiledFrom(s, extended) && |path| < |extended| && extended[..|path|] == path
    ensures AllFiledFrom(s, path)
  {
    forall e | e in s ensures FiledFrom(e, path) {
      FiledFromShorter(e, extended, path);
    }
  }

  lemma AllFiledFromConcat(a: seq<Entry>, b: seq<Entry>, c: seq<Entry>, path: seq<int>)
    ensures AllFiledFrom(a, path) && AllFiledFrom(b, path) && AllFiledFrom(c, path) ==> AllFiledFrom(a + b + c, path)
  {
  }

  /** The plans the constructor files for one starting speed: the three
      enumerations from an empty plan, forward, halting and backward. */
  function VelocityPaths(velocity: real): seq<Entry> {
    AddPaths(1, velocity, 0.0, [], [], false)
      + AddPaths(0, velocity, 0.0, [], [], false)
      + AddPaths(-1, velocity, 0.0, [], [], false)
  }

  lemma VelocityPathsWellFiled(velocity: real)
    ensures forall e :: e in VelocityPaths(velocity) ==> WellFiled(e)
  {
    AddPathsWellFiled(1, velocity, 0.0, [], [], false);
    AddPathsWellFiled(0, velocity, 0.0, [], [], false);
    AddPathsWellFiled(-1, velocity, 0.0, [], [], false);
  }

  /** The constructor's loop over starting speeds: 0, 0.5, .. while below 8.001. */
  method StartingVelocities() returns (vs: seq<real>)
    ensures |vs| == NUM_VELOCITIES
    ensures forall b :: 0 <= b < |vs| ==> vs[b] == (b as real) * VELOCITY_STEP
  {
    vs := [];
    var velocity := 0.0;
    while velocity < 8.001
      invariant velocity == (|vs| as real) * VELOCITY_STEP
      invariant |vs| <= NUM_VELOCITIES
      invariant forall b :: 0 <= b < |vs| ==> vs[b] == (b as real) * VELOCITY_STEP
      decreases NUM_VELOCITIES - |vs|
    {
      vs := vs + [velocity];
      velocity := velocity + VELOCITY_STEP;
    }
  }

  /** The tree a plan of `length` ticks from starting speed bucket `bucket`
      is filed in holds `path`. */
  ghost predicate Filed(bucket: int, length: int, path: seq<int>) {
    exists e :: e in VelocityPaths((bucket as real) * VELOCITY_STEP) && |e.path| == length && e.path == path
  }

  /** The nearest-neighbour lookup of the KD-tree, as an oracle: bucket,
      tree index, scaled target velocity and target distance to a plan. */
  type NearestPath = (int, int, real, real) -> seq<int>

  /** The lookup answers with a plan filed in the tree it searched. */
  ghost predicate ReturnsFiled(nearest: NearestPath) {
    forall b: int, i: int, x: real, y: real :: 0 <= b < NUM_VELOCITIES && 0 <= i < MAX_PATH_LENGTH ==>
      Filed(b, i + 1, nearest(b, i, x, y))
  }

  /** The starting-speed bucket of a velocity: (int)(|v| / 0.5). */
  function Bucket(velocity: real): (b: int)
    requires Abs(velocity) <= MAX_VELOCITY
    ensures 0 <= b < NUM_VELOCITIES
    ensures (b as real) * VELOCITY_STEP <= Abs(velocity) < ((b + 1) as real) * VELOCITY_STEP
  {
    var reversal := if velocity < 0.0 then -1.0 else 1.0;
    Truncate(reversal * velocity / VELOCITY_STEP)
  }

  /** Paths.getMatchingPath: the plan of min(ticks, 50) ticks nearest the
      target end velocity and distance, looked up for |velocity| and turned
      around when the bot is moving backwards. */
  function GetMatchingPath(velocity: real, ticks: int, targetDistance: real, targetEndVelocity: real,
                           nearest: NearestPath): (path: seq<int>)
    requires Abs(velocity) <= MAX_VELOCITY && ticks >= 1
  {
    var reversal := if velocity < 0.0 then -1 else 1;
    var found := nearest(Bucket(velocity), MinInt(ticks, MAX_PATH_LENGTH) - 1,
                         VELOCITY_DISTANCE_SCALE * (reversal as real) * targetEndVelocity,
                         (reversal as real) * targetDistance);
    if reversal == 1 then found else Negate(found)
  }

  function Negate(s: seq<int>): (r: seq<int>)
    ensures |r| == |s| && forall i :: 0 <= i < |s| ==> r[i] == -s[i]
  {
    seq(|s|, i requires 0 <= i < |s| => -s[i])
  }

  /** Moving backwards is moving forwards mirrored: the lookup for a negative
      velocity is the negation of the lookup for the mirrored velocity,
      distance and end velocity. */
  lemma MatchingPathMirrors(velocity: real, ticks: int, targetDistance: real, targetEndVelocity: real,
                            nearest: NearestPath)
    requires Abs(velocity) <= MAX_VELOCITY && ticks >= 1 && velocity < 0.0
    ensures GetMatchingPath(velocity, ticks, targetDistance, targetEndVelocity, nearest)
         == Negate(GetMatchingPath(-velocity, ticks, -targetDistance, -targetEndVelocity, nearest))
  {
    assert Bucket(velocity) == Bucket(-velocity);
  }

  /** A filed plan has the length of its tree and only direction steps. */
  lemma FiledShape(bucket: int, length: int, path: seq<int>)
    requires Filed(bucket, length, path)
    ensures |path| == length && AllDirections(path)
  {
    var e :| e in VelocityPaths((bucket as real) * VELOCITY_STEP) && |e.path| == length && e.path == path;
    VelocityPathsWellFiled((bucket as real) * VELOCITY_STEP);
    assert WellFiled(e);
  }

  /** Every answer of the lookup has the length of the tree it searched and
      only direction steps. */
  ghost predicate AnswersShaped(nearest: NearestPath) {
    forall b: int, i: int, x: real, y: real :: 0 <= b < NUM_VELOCITIES && 0 <= i < MAX_PATH_LENGTH ==>
      |nearest(b, i, x, y)| == i + 1 && AllDirections(nearest(b, i, x, y))
  }

  lemma FiledAnswersAreShaped(nearest: NearestPath)
    requires ReturnsFiled(nearest)
    ensures AnswersShaped(nearest)
  {
    forall b: int, i: int, x: real, y: real | 0 <= b < NUM_VELOCITIES && 0 <= i < MAX_PATH_LENGTH
      ensures |nearest(b, i, x, y)| == i + 1 && AllDirections(nearest(b, i, x, y))
    {
      FiledShape(b, i + 1, nearest(b, i, x, y));
    }
  }

  /** Given a lookup that answers from the tree it searched, a matching plan
      has min(ticks, 50) steps, each of them a direction. */
  lemma MatchingPathShape(velocity: real, ticks: int, targetDistance: real, targetEndVelocity: real,
                          nearest: NearestPath)
    requires Abs(velocity) <= MAX_VELOCITY && ticks >= 1 && ReturnsFiled(nearest)
    ensures |GetMatchingPath(velocity, ticks, targetDistance, targetEndVelocity, nearest)| == MinInt(ticks, MAX_PATH_LENGTH)
    ensures AllDirections(GetMatchingPath(velocity, ticks, targetDistance, targetEndVelocity, nearest))
  {
    FiledAnswersAreShaped(nearest);
    ShapedMatchingPath(velocity, ticks, targetDistance, targetEndVelocity, nearest);
  }

  lemma ShapedMatchingPath(velocity: real, ticks: int, targetDistance: real, targetEndVelocity: real,
                           nearest: NearestPath)
    requires Abs(velocity) <= MAX_VELOCITY && ticks >= 1 && AnswersShaped(nearest)
    ensures |GetMatchingPath(velocity, ticks, targetDistance, targetEndVelocity, nearest)| == MinInt(ticks, MAX_PATH_LENGTH)
    ensures AllDirections(GetMatchingPath(velocity, ticks, targetDistance, targetEndVelocity, nearest))
  {
  }
}
