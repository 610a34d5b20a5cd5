/** kc.mega.game.Physics: Robocode's movement, turning and bullet rules. */
module Physics {
  import opened MathUtils
  import opened FastTrig

  const MAX_VELOCITY: real := 8.0

  /** Physics.decel: braking is 1 + speed/2 per tick, between 1 and 2. */
  function Decel(speed: real): (r: real)
    ensures 1.0 <= r <= 2.0
  {
    Clip(1.0 + speed / 2.0, 1.0, 2.0)
  }

  /** Physics.nextVelocity: one tick of acceleration toward direction `d`
      (1 ahead, -1 back, 0 stop). Moving keeps the speed within 8; stopping
      brakes toward zero without passing through it. */
  function NextVelocity(v: real, d: int): (r: real)
    ensures d != 0 ==> -MAX_VELOCITY <= r <= MAX_VELOCITY
    ensures d == 0 ==> Abs(r) <= Abs(v) && r * v >= 0.0
    ensures d == 0 && Abs(v) <= Decel(Abs(v)) ==> r == 0.0
    ensures d == 0 && Abs(v) > Decel(Abs(v)) ==> Abs(r) == Abs(v) - Decel(Abs(v))
    ensures d > 0 && v <= MAX_VELOCITY ==> r >= v
    ensures d < 0 && v >= -MAX_VELOCITY ==> r <= v
  {
    if d == 0 then
      v - Signum(v) * Min(Decel(Abs(v)), Abs(v))
    else
      Clip(v + (d as real) * (if Signum(v) * (d as real) < 0.0 then Decel(Abs(v)) else 1.0),
           -MAX_VELOCITY, MAX_VELOCITY)
  }

  /** Repeatedly braking. */
  function Brake(v: real, ticks: nat): (r: real)
    ensures Abs(r) <= Abs(v)
    decreases ticks
  {
    if ticks == 0 then v else Brake(NextVelocity(v, 0), ticks - 1)
  }

  /** Braking from any legal velocity stops the bot within 8 ticks, since each
      tick removes at least one unit of speed. */
  lemma {:induction false} BrakeStops(v: real, ticks: nat)
    requires Abs(v) <= ticks as real
    ensures Brake(v, ticks) == 0.0
    decreases ticks
  {
    if ticks > 0 {
      var next := NextVelocity(v, 0);
      assert Abs(next) <= (ticks - 1) as real;
      BrakeStops(next, ticks - 1);
    } else {
      assert v == 0.0;
    }
  }

  lemma BrakeStopsWithinEightTicks(v: real)
    requires -MAX_VELOCITY <= v <= MAX_VELOCITY
    ensures Brake(v, 8) == 0.0
  {
    BrakeStops(v, 8);
  }

  /** Physics.maxTurn: the turn rate limit, in radians, falls with speed. */
  function MaxTurn(v: real): (r: real)
    ensures Abs(v) <= MAX_VELOCITY ==> PI / 18.0 - PI / 30.0 <= r <= PI / 18.0
  {
    PI / 18.0 - Abs(v) * PI / 240.0
  }

  /** Physics.turnIncrement: the requested turn, limited by the turn rate. */
  function TurnIncrement(t: real, v: real): (r: real)
    ensures Abs(v) <= MAX_VELOCITY ==> -MaxTurn(v) <= r <= MaxTurn(v)
    ensures -MaxTurn(v) <= t <= MaxTurn(v) ==> r == t
  {
    var m := MaxTurn(v);
    Clip(t, -m, m)
  }

  /** Physics.bulletSpeed: 20 - 3 * power, with power limited to [0.1, 3]. */
  function BulletSpeed(power: real): (r: real)
    ensures 11.0 <= r <= 19.7
    ensures 0.1 <= power <= 3.0 ==> r == 20.0 - 3.0 * power
  {
    20.0 - 3.0 * Clip(power, 0.1, 3.0)
  }

  /** Physics.bulletDamage: 4 * power, plus 2 * (power - 1) above power 1. */
  function BulletDamage(power: real): (r: real)
    ensures power <= 1.0 ==> r == 4.0 * power
    ensures power > 1.0 ==> r == 6.0 * power - 2.0
  {
    4.0 * power + Max(2.0 * (power - 1.0), 0.0)
  }

  /** Physics.bulletDamage with the target's energy: no more than it has. */
  function BulletDamageCapped(power: real, enemyEnergy: real): (r: real)
    ensures r <= enemyEnergy && r <= BulletDamage(power)
    ensures r == enemyEnergy || r == BulletDamage(power)
  {
    Min(enemyEnergy, BulletDamage(power))
  }

  /** Physics.gunHeat: heat generated by firing, between 1.02 and 1.6 for legal powers. */
  function GunHeat(power: real): (r: real)
    ensures 0.1 <= power <= 3.0 ==> 1.02 <= r <= 1.6
    ensures r - 1.0 == power / 5.0
  {
    1.0 + power / 5.0
  }

  /** Heavier bullets are slower and hit harder: speed and damage move in
      opposite directions across legal powers. */
  lemma HeavierBulletsTradeSpeedForDamage(p1: real, p2: real)
    requires 0.1 <= p1 <= p2 <= 3.0
    ensures BulletSpeed(p1) >= BulletSpeed(p2)
    ensures BulletDamage(p1) <= BulletDamage(p2)
  {
  }
}
