/** The list bookkeeping of kc.mega.game.GameState: the capped histories of
    past bot states (newest first), the predicted futures, collisions, and the
    accounting of a bullet hit. */
module GameStates {
  import opened Wrappers
  import opened MathUtils
  import opened Physics
  import opened BotStates
  import opened HitRates

  const HISTORY_SIZE: nat := 100
  const FUTURE_SIZE: nat := 10
  const COLLISION_ENERGY: real := 0.6

  datatype GameState = GameState(
    myState: Option<BotState>, enemyState: Option<BotState>,
    myHistory: seq<BotState>, enemyHistory: seq<BotState>,
    myFuture: seq<BotState>, enemyFuture: seq<BotState>,
    lastCollideTime: int, lastEnemyCollideTime: int,
    myTracker: HitRateTracker, enemyTracker: HitRateTracker)

  /** GameState.updateStates: the new state goes in front, and the oldest one
      falls off once more than HISTORY_SIZE are kept. */
  function UpdateStates(newState: BotState, previous: seq<BotState>): (r: seq<BotState>)
    requires |previous| <= HISTORY_SIZE
    ensures |r| == MinInt(|previous| + 1, HISTORY_SIZE)
    ensures r[0] == newState
    ensures forall i :: 0 < i < |r| ==> r[i] == previous[i - 1]
  {
    var added := [newState] + previous;
    if |added| > HISTORY_SIZE then added[..|added| - 1] else added
  }

  /** GameState.getState: tick <= 0 looks -tick ticks into the history,
      tick > 0 looks tick - 1 ticks into the future; past either end it gives
      the last entry, and with no entries at all the current state. */
  function GetState(gs: GameState, mine: bool, tick: int): (r: Option<BotState>)
    ensures tick <= 0 && |(if mine then gs.myHistory else gs.enemyHistory)| > 0 ==>
              r == Some((if mine then gs.myHistory else gs.enemyHistory)
                        [MinInt(|(if mine then gs.myHistory else gs.enemyHistory)| - 1, -tick)])
    ensures tick > 0 && |(if mine then gs.myFuture else gs.enemyFuture)| > 0 ==>
              r == Some((if mine then gs.myFuture else gs.enemyFuture)
                        [MinInt(|(if mine then gs.myFuture else gs.enemyFuture)| - 1, tick - 1)])
    ensures |(if tick <= 0 then (if mine then gs.myHistory else gs.enemyHistory)
              else (if mine then gs.myFuture else gs.enemyFuture))| == 0 ==>
              r == (if mine then gs.myState else gs.enemyState)
  {
    var states := if tick <= 0 then (if mine then gs.myHistory else gs.enemyHistory)
                  else (if mine then gs.myFuture else gs.enemyFuture);
    var index := if tick <= 0 then -tick else tick - 1;
    if |states| == 0 then (if mine then gs.myState else gs.enemyState)
    else Some(states[MinInt(|states| - 1, index)])
  }

  /** Reading the history at tick 0 after recording a state gives that state
      back: the newest history entry is the state just added. */
  lemma GetStateAfterUpdate(gs: GameState, b: BotState)
    requires |gs.myHistory| <= HISTORY_SIZE
    ensures GetState(gs.(myHistory := UpdateStates(b, gs.myHistory)), true, 0) == Some(b)
  {
  }

  /** The Java fields myState and enemyState are the very objects at the head
      of their histories: every new state is assigned and then pushed by
      updateStates, so a change made through one is seen through the other. */
  predicate HeadsAliased(gs: GameState) {
    && (|gs.myHistory| > 0 ==> gs.myState == Some(gs.myHistory[0]))
    && (|gs.enemyHistory| > 0 ==> gs.enemyState == Some(gs.enemyHistory[0]))
  }

  /** A state change made through a field that aliases the head of `history`. */
  function WithHead(history: seq<BotState>, s: BotState): (r: seq<BotState>)
    ensures |r| == |history|
    ensures |history| > 0 ==> r[0] == s && r[1..] == history[1..]
  {
    if |history| == 0 then history else history[0 := s]
  }

  /** GameState.onHitRobot: once this bot has a history, a collision costs both
      bots 0.6 energy and records whose fault it was. The energy is taken
      through myState and enemyState, so the history heads they alias lose it
      too. With no enemy state yet the Java code dereferences null; that
      outcome is None. */
  function OnHitRobot(gs: GameState, isMyFault: bool, time: int): (r: Option<GameState>)
    ensures |gs.myHistory| == 0 ==> r == Some(gs)
    ensures |gs.myHistory| > 0 && gs.myState.Some? && gs.enemyState.Some? ==>
              r.Some? && r.value.myState.Some? && r.value.enemyState.Some? &&
              r.value.myState.value == gs.myState.value.(energy := gs.myState.value.energy - COLLISION_ENERGY) &&
              r.value.enemyState.value == gs.enemyState.value.(energy := gs.enemyState.value.energy - COLLISION_ENERGY) &&
              r.value.myHistory == WithHead(gs.myHistory, r.value.myState.value) &&
              r.value.enemyHistory == WithHead(gs.enemyHistory, r.value.enemyState.value) &&
              (isMyFault ==> r.value.lastCollideTime == time &&
                             r.value.lastEnemyCollideTime == gs.lastEnemyCollideTime) &&
              (!isMyFault ==> r.value.lastEnemyCollideTime == time &&
                              r.value.lastCollideTime == gs.lastCollideTime) &&
              r.value.(myState := gs.myState, enemyState := gs.enemyState,
                       myHistory := gs.myHistory, enemyHistory := gs.enemyHistory,
                       lastCollideTime := gs.lastCollideTime,
                       lastEnemyCollideTime := gs.lastEnemyCollideTime) == gs
    ensures |gs.myHistory| > 0 && (gs.myState.None? || gs.enemyState.None?) ==> r.None?
  {
    if |gs.myHistory| == 0 then Some(gs)
    else if gs.myState.None? || gs.enemyState.None? then None
    else
      var me := gs.myState.value.(energy := gs.myState.value.energy - COLLISION_ENERGY);
      var enemy := gs.enemyState.value.(energy := gs.enemyState.value.energy - COLLISION_ENERGY);
      var hit := gs.(myState := Some(me), enemyState := Some(enemy),
                     myHistory := WithHead(gs.myHistory, me),
                     enemyHistory := WithHead(gs.enemyHistory, enemy));
      Some(if isMyFault then hit.(lastCollideTime := time) else hit.(lastEnemyCollideTime := time))
  }

  /** A collision keeps the fields aliasing the history heads, so reading
      either bot's history at tick 0 afterwards sees the lowered energy. */
  lemma OnHitRobotKeepsAliasing(gs: GameState, isMyFault: bool, time: int)
    requires HeadsAliased(gs)
    ensures var r := OnHitRobot(gs, isMyFault, time);
            r.Some? ==> && HeadsAliased(r.value)
                        && (|r.value.myHistory| > 0 ==> GetState(r.value, true, 0) == r.value.myState)
                        && (|r.value.enemyHistory| > 0 ==> GetState(r.value, false, 0) == r.value.enemyState)
  {
  }

  /** GameState.onRoundEnd: each tracker scores the round, the enemy's as the
      loser when this bot won and vice versa. */
  function OnRoundEnd(gs: GameState, won: bool): (r: GameState)
    ensures r.myTracker == HitRates.OnRoundEnd(gs.myTracker, won)
    ensures r.enemyTracker == HitRates.OnRoundEnd(gs.enemyTracker, !won)
    ensures r.(myTracker := gs.myTracker, enemyTracker := gs.enemyTracker) == gs
  {
    gs.(myTracker := HitRates.OnRoundEnd(gs.myTracker, won),
        enemyTracker := HitRates.OnRoundEnd(gs.enemyTracker, !won))
  }

  /** BotState.predictNextState: the bot one tick on, its motion predicted by
      the kinematic oracle from its current and previous states. */
  function PredictNext(current: BotState, previous: BotState,
                       predictMotion: (PredictState, PredictState) -> PredictState,
                       coolingRate: real): BotState
  {
    NextState(current, predictMotion(AsPredictState(current), AsPredictState(previous)), coolingRate)
  }

  /** The state `back` steps behind the end of the predictions: a prediction
      while there is one, otherwise the history, newest first. */
  function Behind(history: seq<BotState>, future: seq<BotState>, back: nat): BotState
    requires back < |future| + |history|
  {
    if back < |future| then future[|future| - 1 - back] else history[back - |future|]
  }

  /** GameState.addPredictedFutureStates: extends the predictions to
      FUTURE_SIZE states, each predicted from the two before it, reaching into
      the history while there are fewer than two predictions. */
  function AddPredictedFutureStates(history: seq<BotState>, future: seq<BotState>,
                                    predictMotion: (PredictState, PredictState) -> PredictState,
                                    coolingRate: real): (r: seq<BotState>)
    requires |future| + |history| >= 2
    ensures |r| == MaxInt(|future|, FUTURE_SIZE)
    ensures r[..|future|] == future
    ensures forall k :: |future| <= k < |r| ==>
              r[k] == PredictNext(Behind(history, r[..k], 0), Behind(history, r[..k], 1),
                                  predictMotion, coolingRate)
    decreases FUTURE_SIZE - |future|
  {
    if |future| >= FUTURE_SIZE then future
    else
      var next := PredictNext(Behind(history, future, 0), Behind(history, future, 1),
                              predictMotion, coolingRate);
      var r := AddPredictedFutureStates(history, future + [next], predictMotion, coolingRate);
      assert r[..|future| + 1] == future + [next];
      assert r[..|future|] == (future + [next])[..|future|];
      r
  }

  /** Every predicted state is one tick after the one before it, as long as
      the newest history entry is the latest known state. */
  lemma {:induction false} PredictedTimesAreConsecutive(
    history: seq<BotState>, future: seq<BotState>,
    predictMotion: (PredictState, PredictState) -> PredictState, coolingRate: real, k: int)
    requires |future| + |history| >= 2
    requires |future| <= k < MaxInt(|future|, FUTURE_SIZE)
    ensures AddPredictedFutureStates(history, future, predictMotion, coolingRate)[k].gameTime
            == Behind(history, AddPredictedFutureStates(history, future, predictMotion, coolingRate)[..k], 0).gameTime + 1
  {
    var r := AddPredictedFutureStates(history, future, predictMotion, coolingRate);
    assert r[k] == PredictNext(Behind(history, r[..k], 0), Behind(history, r[..k], 1), predictMotion, coolingRate);
  }

  /** GameState.updateFromBulletHit as written: the damage logged for the hit
      is capped by the target's energy AFTER the hit was applied. */
  function UpdateFromBulletHitAsWritten(power: real, hitter: BotState, hitBot: BotState,
                                        tracker: HitRateTracker, maxEscapeAngle: real -> real)
    : (r: (BotState, BotState, HitRateTracker))
    ensures r.0 == BotStates.UpdateFromBulletHit(hitter, power)
    ensures r.1 == UpdateFromHitByBullet(hitBot, power)
    ensures r.2.damage - tracker.damage == BulletDamageCapped(power, r.1.energy)
    ensures r.2.hits == tracker.hits + 1 && r.2.shotsPassed == tracker.shotsPassed + 1
  {
    var hitBotAfter := UpdateFromHitByBullet(hitBot, power);
    var hitterAfter := BotStates.UpdateFromBulletHit(hitter, power);
    var logged := LogShotPassed(LogHit(tracker, BulletDamageCapped(power, hitBotAfter.energy)),
                                power, maxEscapeAngle);
    (hitterAfter, hitBotAfter, logged)
  }

  /** A target on 5 energy hit by a power-1 bullet loses 4 energy, but the
      as-written accounting logs only 1. */
  lemma AsWrittenUnderLogsDamage(hitter: BotState, hitBot: BotState, tracker: HitRateTracker,
                                 maxEscapeAngle: real -> real)
    requires hitBot.energy == 5.0
    ensures hitBot.energy - UpdateFromBulletHitAsWritten(1.0, hitter, hitBot, tracker, maxEscapeAngle).1.energy == 4.0
    ensures UpdateFromBulletHitAsWritten(1.0, hitter, hitBot, tracker, maxEscapeAngle).2.damage - tracker.damage == 1.0
  {
  }

  /** The corrected accounting: damage is capped by the target's energy before
      the hit, so the logged damage is exactly the energy the target lost. */
  function UpdateFromBulletHit(power: real, hitter: BotState, hitBot: BotState,
                               tracker: HitRateTracker, maxEscapeAngle: real -> real)
    : (r: (BotState, BotState, HitRateTracker))
    requires hitBot.energy >= 0.0
    ensures r.0.energy - hitter.energy == 3.0 * power
    ensures r.2.damage - tracker.damage == hitBot.energy - r.1.energy
    ensures r.2.damageThisRound - tracker.damageThisRound == hitBot.energy - r.1.energy
    ensures r.1.energy >= 0.0
    ensures r.2.hits == tracker.hits + 1 && r.2.shotsPassed == tracker.shotsPassed + 1
  {
    var damage := BulletDamageCapped(power, hitBot.energy);
    HitByBulletLosesCappedDamage(hitBot, power);
    var logged := LogShotPassed(LogHit(tracker, damage), power, maxEscapeAngle);
    (BotStates.UpdateFromBulletHit(hitter, power), UpdateFromHitByBullet(hitBot, power), logged)
  }
}
