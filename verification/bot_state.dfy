/** kc.mega.game.BotState: a bot's kinematic state (the PredictState part:
    location, heading, velocity, time) plus its energy, gun heat and firing
    record. The kinematic prediction itself is an oracle passed in. */
module BotStates {
  import opened MathUtils
  import opened Physics

  datatype PredictState = PredictState(x: real, y: real, heading: real, velocity: real, gameTime: int)

  datatype BotState = BotState(
    x: real, y: real, heading: real, velocity: real,
    energy: real, gunHeat: real, shotsFired: int, lastFireTime: int, gameTime: int)

  /** BotState.asPredictState: the kinematic part only. */
  function AsPredictState(b: BotState): (p: PredictState)
    ensures p.x == b.x && p.y == b.y && p.heading == b.heading
    ensures p.velocity == b.velocity && p.gameTime == b.gameTime
  {
    PredictState(b.x, b.y, b.heading, b.velocity, b.gameTime)
  }

  /** The private BotState.getNextState(predicted): the bot one tick later.
      Motion comes from the predicted kinematic state; energy and the firing
      record carry over, the gun cools by one tick, and the clock advances by
      one from the bot's own time. */
  function NextState(b: BotState, predicted: PredictState, coolingRate: real): (n: BotState)
    ensures n.x == predicted.x && n.y == predicted.y
    ensures n.heading == predicted.heading && n.velocity == predicted.velocity
    ensures n.energy == b.energy && n.shotsFired == b.shotsFired && n.lastFireTime == b.lastFireTime
    ensures b.gunHeat - n.gunHeat == coolingRate
    ensures n.gameTime == b.gameTime + 1
  {
    BotState(predicted.x, predicted.y, predicted.heading, predicted.velocity,
             b.energy, b.gunHeat - coolingRate, b.shotsFired, b.lastFireTime, b.gameTime + 1)
  }

  /** Rolling a bot forward `k` ticks along a sequence of predicted motions. */
  function RollForward(b: BotState, motions: seq<PredictState>, coolingRate: real): BotState
    decreases |motions|
  {
    if |motions| == 0 then b
    else RollForward(NextState(b, motions[0], coolingRate), motions[1..], coolingRate)
  }

  /** However the bot moves, k ticks cool its gun by k cooling steps, advance
      its clock by k and leave its energy and firing record unchanged. */
  lemma {:induction false} RollForwardBookkeeping(b: BotState, motions: seq<PredictState>, coolingRate: real)
    ensures RollForward(b, motions, coolingRate).gunHeat == b.gunHeat - (|motions| as real) * coolingRate
    ensures RollForward(b, motions, coolingRate).gameTime == b.gameTime + |motions|
    ensures RollForward(b, motions, coolingRate).energy == b.energy
    ensures RollForward(b, motions, coolingRate).shotsFired == b.shotsFired
    ensures RollForward(b, motions, coolingRate).lastFireTime == b.lastFireTime
    decreases |motions|
  {
    if |motions| > 0 {
      RollForwardBookkeeping(NextState(b, motions[0], coolingRate), motions[1..], coolingRate);
    }
  }

  /** BotState.updateFromFire: the gun heats, the bullet's power is paid in
      energy, and the shot is recorded at the current time. */
  function UpdateFromFire(b: BotState, power: real): (u: BotState)
    ensures u.gunHeat == GunHeat(power)
    ensures b.energy - u.energy == power
    ensures u.lastFireTime == b.gameTime && u.shotsFired == b.shotsFired + 1
    ensures AsPredictState(u) == AsPredictState(b)
  {
    b.(gunHeat := GunHeat(power), energy := b.energy - power,
       lastFireTime := b.gameTime, shotsFired := b.shotsFired + 1)
  }

  /** BotState.updateFromBulletHit: the shooter regains three times the power. */
  function UpdateFromBulletHit(b: BotState, power: real): (u: BotState)
    ensures u.energy - b.energy == 3.0 * power
    ensures u.(energy := b.energy) == b
  {
    b.(energy := b.energy + power * 3.0)
  }

  /** BotState.updateFromHitByBullet: the target loses the bullet's damage, but
      never drops below zero energy. */
  function UpdateFromHitByBullet(b: BotState, power: real): (u: BotState)
    ensures u.energy >= 0.0
    ensures u.energy == 0.0 || b.energy - u.energy == BulletDamage(power)
    ensures u.(energy := b.energy) == b
  {
    b.(energy := Max(b.energy - BulletDamage(power), 0.0))
  }

  /** A hit takes away exactly the damage capped at the target's energy, for
      a target that still has energy. */
  lemma HitByBulletLosesCappedDamage(b: BotState, power: real)
    requires b.energy >= 0.0
    ensures b.energy - UpdateFromHitByBullet(b, power).energy == BulletDamageCapped(power, b.energy)
  {
  }

  /** Firing right after `k` cooling ticks: the heat is the fresh shot's heat
      less k cooling steps, independent of the motion predicted meanwhile. */
  lemma GunHeatAfterFiring(b: BotState, power: real, motions: seq<PredictState>, coolingRate: real)
    ensures RollForward(UpdateFromFire(b, power), motions, coolingRate).gunHeat
            == GunHeat(power) - (|motions| as real) * coolingRate
  {
    RollForwardBookkeeping(UpdateFromFire(b, power), motions, coolingRate);
  }
}
