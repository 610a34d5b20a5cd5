/** kc.mega.wave.Waves: the active waves of one bot and the status each had
    at the last update. Java keys the status map by wave object; here a wave's
    identity is its `id`. */
module Waves {
  import opened Wrappers
  import Ranges
  import opened MathUtils
  import opened WaveModel
  import opened Seqs

  /** How close a bullet's power must be to a wave's to match it. */
  const POWER_TOLERANCE: real := 0.0001
  /** How close a collision point must be to a wave's radius to match it. */
  const DISTANCE_TOLERANCE: real := 0.01

  datatype WaveSet = WaveSet(waves: seq<Wave>, statuses: map<nat, int>)

  predicate AllWellFormed(ws: seq<Wave>) {
    forall i :: 0 <= i < |ws| ==> WellFormed(ws[i])
  }

  function Empty(): WaveSet { WaveSet([], map[]) }

  /** Waves.clear: drops every wave; the statuses of the last update stay. */
  function Clear(s: WaveSet): (r: WaveSet)
    ensures |r.waves| == 0 && r.statuses == s.statuses
  {
    s.(waves := [])
  }

  /** Waves.add: appends. */
  function Add(s: WaveSet, w: Wave): (r: WaveSet)
    ensures |r.waves| == |s.waves| + 1 && r.waves[..|s.waves|] == s.waves && r.waves[|s.waves|] == w
    ensures r.statuses == s.statuses
  {
    s.(waves := s.waves + [w])
  }

  /** List.remove(Object): drops the first wave with the given identity. */
  function RemoveFirst(ws: seq<Wave>, id: nat): (r: seq<Wave>)
    ensures (forall i :: 0 <= i < |ws| ==> ws[i].id != id) ==> r == ws
    ensures (exists i :: 0 <= i < |ws| && ws[i].id == id) ==> |r| == |ws| - 1
    ensures forall i :: 0 <= i < |r| ==> r[i] in ws
  {
    match FirstIndex(ws, (w: Wave) => w.id == id)
    case None => ws
    case Some(i) => ws[..i] + ws[i + 1..]
  }

  /** Waves.remove. */
  function Remove(s: WaveSet, id: nat): (r: WaveSet)
    ensures (forall i :: 0 <= i < |s.waves| ==> s.waves[i].id != id) ==> r == s
    ensures (exists i :: 0 <= i < |s.waves| && s.waves[i].id == id) ==> |r.waves| == |s.waves| - 1
    ensures r.statuses == s.statuses
  {
    s.(waves := RemoveFirst(s.waves, id))
  }

  /** Removing a wave whose identity is unique leaves exactly the other waves, in order. */
  lemma RemoveUnique(ws: seq<Wave>, k: nat)
    requires k < |ws|
    requires forall j :: 0 <= j < |ws| && j != k ==> ws[j].id != ws[k].id
    ensures RemoveFirst(ws, ws[k].id) == ws[..k] + ws[k + 1..]
  {
  }

  predicate IsBulletWave(w: Wave) { w.hasBullet }

  /** Waves.getBulletWaves: exactly the waves carrying a real bullet, in order. */
  function GetBulletWaves(s: WaveSet): (r: seq<Wave>)
    ensures forall i :: 0 <= i < |r| ==> r[i].hasBullet && r[i] in s.waves
    ensures forall i :: 0 <= i < |s.waves| && s.waves[i].hasBullet ==> s.waves[i] in r
  {
    Filter(s.waves, IsBulletWave)
  }

  /** The enemy's position from every wave's point of view at the update's time. */
  type Sightings = nat -> Sighting

  /** Every wave after its own Wave.update at this time. */
  function UpdatedWaves(ws: seq<Wave>, gameTime: int, sight: Sightings): (us: seq<Updated>)
    requires AllWellFormed(ws)
    ensures |us| == |ws|
    ensures forall i :: 0 <= i < |ws| ==> us[i] == Update(ws[i], gameTime, sight(ws[i].id))
  {
    seq(|ws|, i requires 0 <= i < |ws| => Update(ws[i], gameTime, sight(ws[i].id)))
  }

  /** waveStatuses after the loop's puts: one entry per wave, the last put winning. */
  function RecordStatuses(ws: seq<Wave>, us: seq<Updated>): (m: map<nat, int>)
    requires |us| == |ws|
    ensures forall id :: id in m <==> exists i :: 0 <= i < |ws| && ws[i].id == id
    ensures |ws| > 0 ==> m[ws[|ws| - 1].id] == us[|ws| - 1].status
    decreases |ws|
  {
    if |ws| == 0 then map[]
    else
      var front := ws[..|ws| - 1];
      var prev := RecordStatuses(front, us[..|ws| - 1]);
      assert forall i :: 0 <= i < |front| ==> front[i] == ws[i];
      prev[ws[|ws| - 1].id := us[|ws| - 1].status]
  }

  predicate StillFlying(u: Updated) { u.status != PASSED }
  predicate PassedWithOffset(u: Updated) { u.status == PASSED && u.wave.hitOffset < HIT_OFFSET_SET_BELOW }

  function WavesOf(us: seq<Updated>): (ws: seq<Wave>)
    ensures |ws| == |us| && forall i :: 0 <= i < |us| ==> ws[i] == us[i].wave
  {
    seq(|us|, i requires 0 <= i < |us| => us[i].wave)
  }

  /** Waves.update: every wave is updated in list order and its status
      recorded; the waves that reach PASSED leave the list, and those of them
      with a hit offset are returned. */
  function UpdateAll(s: WaveSet, gameTime: int, sight: Sightings): (r: (WaveSet, seq<Wave>))
    requires AllWellFormed(s.waves)
    ensures var us := UpdatedWaves(s.waves, gameTime, sight);
            && r.0.waves == WavesOf(Filter(us, StillFlying))
            && r.1 == WavesOf(Filter(us, PassedWithOffset))
    ensures forall id :: id in r.0.statuses <==> exists i :: 0 <= i < |s.waves| && s.waves[i].id == id
  {
    var us := UpdatedWaves(s.waves, gameTime, sight);
    (WaveSet(WavesOf(Filter(us, StillFlying)), RecordStatuses(s.waves, us)), WavesOf(Filter(us, PassedWithOffset)))
  }

  /** Waves.update keeps every wave that did not pass, and returns every passed
      one that recorded a hit offset. */
  lemma UpdateKeepsUnpassed(s: WaveSet, gameTime: int, sight: Sightings, k: nat)
    requires AllWellFormed(s.waves) && k < |s.waves|
    ensures var u := Update(s.waves[k], gameTime, sight(s.waves[k].id));
            var r := UpdateAll(s, gameTime, sight);
            && (u.status != PASSED ==> u.wave in r.0.waves)
            && (u.status == PASSED && u.wave.hitOffset < HIT_OFFSET_SET_BELOW ==> u.wave in r.1)
  {
    var us := UpdatedWaves(s.waves, gameTime, sight);
    var kept := Filter(us, StillFlying);
    var passed := Filter(us, PassedWithOffset);
    if StillFlying(us[k]) {
      var i :| 0 <= i < |kept| && kept[i] == us[k];
      assert WavesOf(kept)[i] == us[k].wave;
    }
    if PassedWithOffset(us[k]) {
      var i :| 0 <= i < |passed| && passed[i] == us[k];
      assert WavesOf(passed)[i] == us[k].wave;
    }
  }

  /** ... and nothing else: every kept wave is the update of a wave that did
      not pass, and every returned wave has a hit offset. */
  lemma UpdateKeepsOnlyUnpassed(s: WaveSet, gameTime: int, sight: Sightings, i: nat)
    requires AllWellFormed(s.waves)
    requires i < |UpdateAll(s, gameTime, sight).0.waves|
    ensures exists j :: 0 <= j < |s.waves|
              && UpdateAll(s, gameTime, sight).0.waves[i] == Update(s.waves[j], gameTime, sight(s.waves[j].id)).wave
              && Update(s.waves[j], gameTime, sight(s.waves[j].id)).status != PASSED
  {
    var us := UpdatedWaves(s.waves, gameTime, sight);
    var kept := Filter(us, StillFlying);
    assert UpdateAll(s, gameTime, sight).0.waves[i] == kept[i].wave;
    assert kept[i] in us && StillFlying(kept[i]);
    var j :| 0 <= j < |us| && us[j] == kept[i];
    assert us[j] == Update(s.waves[j], gameTime, sight(s.waves[j].id));
  }

  lemma UpdateReturnsOnlyRecordedOffsets(s: WaveSet, gameTime: int, sight: Sightings)
    requires AllWellFormed(s.waves)
    ensures forall i :: 0 <= i < |UpdateAll(s, gameTime, sight).1| ==>
              UpdateAll(s, gameTime, sight).1[i].hitOffset < HIT_OFFSET_SET_BELOW
  {
    var us := UpdatedWaves(s.waves, gameTime, sight);
    var passed := Filter(us, PassedWithOffset);
    assert forall i :: 0 <= i < |passed| ==> PassedWithOffset(passed[i]);
  }

  /** Every wave after Wave.update as written. */
  function UpdatedWavesAsWritten(ws: seq<Wave>, gameTime: int, sight: Sightings): (us: seq<Updated>)
    requires AllWellFormed(ws)
    ensures |us| == |ws|
    ensures forall i :: 0 <= i < |ws| ==> us[i] == UpdateAsWritten(ws[i], gameTime, sight(ws[i].id))
  {
    seq(|ws|, i requires 0 <= i < |ws| => UpdateAsWritten(ws[i], gameTime, sight(ws[i].id)))
  }

  /** Waves.update AS WRITTEN, on top of Wave.update as written: the same
      filtering as UpdateAll, but every passed wave now carries an offset. */
  function UpdateAllAsWritten(s: WaveSet, gameTime: int, sight: Sightings): (r: (WaveSet, seq<Wave>))
    requires AllWellFormed(s.waves)
    ensures var us := UpdatedWavesAsWritten(s.waves, gameTime, sight);
            && r.0.waves == WavesOf(Filter(us, StillFlying))
            && r.1 == WavesOf(Filter(us, PassedWithOffset))
    ensures forall id :: id in r.0.statuses <==> exists i :: 0 <= i < |s.waves| && s.waves[i].id == id
    ensures forall i :: 0 <= i < |r.1| ==> r.1[i].hitOffset < HIT_OFFSET_SET_BELOW
  {
    var us := UpdatedWavesAsWritten(s.waves, gameTime, sight);
    (WaveSet(WavesOf(Filter(us, StillFlying)), RecordStatuses(s.waves, us)), WavesOf(Filter(us, PassedWithOffset)))
  }

  /** As written, Waves.update still keeps every wave that did not pass, and
      returns every passed one that has a hit offset. */
  lemma UpdateAllAsWrittenKeepsUnpassed(s: WaveSet, gameTime: int, sight: Sightings, k: nat)
    requires AllWellFormed(s.waves) && k < |s.waves|
    ensures var u := UpdateAsWritten(s.waves[k], gameTime, sight(s.waves[k].id));
            var r := UpdateAllAsWritten(s, gameTime, sight);
            && (u.status != PASSED ==> u.wave in r.0.waves)
            && (u.status == PASSED && u.wave.hitOffset < HIT_OFFSET_SET_BELOW ==> u.wave in r.1)
  {
    var us := UpdatedWavesAsWritten(s.waves, gameTime, sight);
    var kept := Filter(us, StillFlying);
    var passed := Filter(us, PassedWithOffset);
    if StillFlying(us[k]) {
      var i :| 0 <= i < |kept| && kept[i] == us[k];
      assert WavesOf(kept)[i] == us[k].wave;
    }
    if PassedWithOffset(us[k]) {
      var i :| 0 <= i < |passed| && passed[i] == us[k];
      assert WavesOf(passed)[i] == us[k].wave;
    }
  }

  /** ... and nothing else: each kept wave is the as-written update of a wave
      that did not pass, and each returned wave that of a wave that passed. */
  lemma UpdateAllAsWrittenKeepsOnlyUnpassed(s: WaveSet, gameTime: int, sight: Sightings, i: nat)
    requires AllWellFormed(s.waves)
    ensures var r := UpdateAllAsWritten(s, gameTime, sight);
            && (i < |r.0.waves| ==>
                  exists j :: 0 <= j < |s.waves|
                    && r.0.waves[i] == UpdateAsWritten(s.waves[j], gameTime, sight(s.waves[j].id)).wave
                    && UpdateAsWritten(s.waves[j], gameTime, sight(s.waves[j].id)).status != PASSED)
            && (i < |r.1| ==>
                  exists j :: 0 <= j < |s.waves|
                    && r.1[i] == UpdateAsWritten(s.waves[j], gameTime, sight(s.waves[j].id)).wave
                    && UpdateAsWritten(s.waves[j], gameTime, sight(s.waves[j].id)).status == PASSED)
  {
    var us := UpdatedWavesAsWritten(s.waves, gameTime, sight);
    var kept := Filter(us, StillFlying);
    var passed := Filter(us, PassedWithOffset);
    if i < |kept| {
      assert kept[i] in us && StillFlying(kept[i]);
      var j :| 0 <= j < |us| && us[j] == kept[i];
      assert us[j] == UpdateAsWritten(s.waves[j], gameTime, sight(s.waves[j].id));
    }
    if i < |passed| {
      assert passed[i] in us && PassedWithOffset(passed[i]);
      var j :| 0 <= j < |us| && us[j] == passed[i];
      assert us[j] == UpdateAsWritten(s.waves[j], gameTime, sight(s.waves[j].id));
    }
  }

  /** As written, every wave that passes with no offset recorded yet is
      returned, whether or not it ever broke over the bot: the "passed with
      no data" branch of Waves.update never runs. */
  lemma UpdateAllAsWrittenReturnsEveryPassed(s: WaveSet, gameTime: int, sight: Sightings, k: nat)
    requires AllWellFormed(s.waves) && k < |s.waves| && VisitsWithinAngles(s.waves[k])
    requires s.waves[k].hitOffset == NO_HIT_OFFSET
    requires GetFoam(s.waves[k], gameTime, sight(s.waves[k].id)).status == PASSED
    ensures UpdateAsWritten(s.waves[k], gameTime, sight(s.waves[k].id)).wave in UpdateAllAsWritten(s, gameTime, sight).1
  {
    var us := UpdatedWavesAsWritten(s.waves, gameTime, sight);
    var passed := Filter(us, PassedWithOffset);
    PassedWaveAlwaysHasOffsetAsWritten(s.waves[k], gameTime, sight(s.waves[k].id));
    assert PassedWithOffset(us[k]);
    var i :| 0 <= i < |passed| && passed[i] == us[k];
    assert WavesOf(passed)[i] == us[k].wave;
  }

  /** The discrepancy on one wave: a wave that passes without ever being seen
      inside it is returned with offset 0 as written, and is not returned
      with the correction. */
  lemma UnseenPassedWaveReturnedOnlyAsWritten(s: WaveSet, gameTime: int, sight: Sightings, k: nat)
    requires AllWellFormed(s.waves) && k < |s.waves| && ValidSighting(sight(s.waves[k].id))
    requires s.waves[k].hitOffset == NO_HIT_OFFSET && s.waves[k].visitOffsetRange == Ranges.Empty()
    requires GetFoam(s.waves[k], gameTime, sight(s.waves[k].id)).status == PASSED
    ensures UpdateAsWritten(s.waves[k], gameTime, sight(s.waves[k].id)).wave.hitOffset == 0.0
    ensures UpdateAsWritten(s.waves[k], gameTime, sight(s.waves[k].id)).wave in UpdateAllAsWritten(s, gameTime, sight).1
    ensures Update(s.waves[k], gameTime, sight(s.waves[k].id)).wave !in UpdateAll(s, gameTime, sight).1
  {
    var w := s.waves[k];
    UpdateAllAsWrittenReturnsEveryPassed(s, gameTime, sight, k);
    PassedWaveAlwaysHasOffsetAsWritten(w, gameTime, sight(w.id));
    UpdateRecordsOnlyObservedOffsets(w, gameTime, sight(w.id));
    UpdateReturnsOnlyRecordedOffsets(s, gameTime, sight);
  }

  /** With unique wave identities, the recorded status of each wave is the
      one its update reported. */
  lemma {:induction false} RecordStatusesPerWave(ws: seq<Wave>, us: seq<Updated>, k: nat)
    requires |us| == |ws| && k < |ws|
    requires forall i, j :: 0 <= i < j < |ws| ==> ws[i].id != ws[j].id
    ensures RecordStatuses(ws, us)[ws[k].id] == us[k].status
    decreases |ws|
  {
    if k < |ws| - 1 {
      var front := ws[..|ws| - 1];
      RecordStatusesPerWave(front, us[..|ws| - 1], k);
      assert front[k] == ws[k];
    }
  }

  /** The status-based part of Waves.getHitWave's condition. */
  predicate BrokeOver(statuses: map<nat, int>, w: Wave) {
    w.id in statuses && statuses[w.id] > MIDAIR
  }

  predicate MatchesHit(statuses: map<nat, int>, power: real, w: Wave) {
    w.hasBullet && BrokeOver(statuses, w) && Abs(w.power - power) < POWER_TOLERANCE
  }

  datatype Lookup = Lookup(set_: WaveSet, wave: Option<Wave>)

  /** Waves.getHitWave: the first bullet wave that has reached the bot with a
      matching power, now marked as having hit; null when there is none. */
  function GetHitWave(s: WaveSet, power: real): (r: Lookup)
    ensures r.wave.Some? ==> r.wave.value.hasBullet && r.wave.value.didHit
    ensures r.wave.Some? ==> r.wave.value.id in s.statuses && s.statuses[r.wave.value.id] > MIDAIR
    ensures r.wave.Some? ==> Abs(r.wave.value.power - power) < POWER_TOLERANCE
    ensures r.wave.None? <==> forall i :: 0 <= i < |s.waves| ==> !MatchesHit(s.statuses, power, s.waves[i])
    ensures r.wave.None? ==> r.set_ == s
    ensures r.wave.Some? ==>
              exists k :: 0 <= k < |s.waves| && MatchesHit(s.statuses, power, s.waves[k])
                && (forall j :: 0 <= j < k ==> !MatchesHit(s.statuses, power, s.waves[j]))
                && r.wave.value == s.waves[k].(didHit := true)
                && r.set_ == s.(waves := s.waves[k := r.wave.value])
  {
    match FirstIndex(s.waves, (w: Wave) => MatchesHit(s.statuses, power, w))
    case None => Lookup(s, None)
    case Some(k) =>
      var w := s.waves[k].(didHit := true);
      Lookup(s.(waves := s.waves[k := w]), Some(w))
  }

  /** The collision test of Waves.getBulletHitBulletWave: matching power, and
      the collision point at the wave's radius one or two ticks ago.
      `distance` is the collision point's distance from the wave's source. */
  predicate MatchesCollision(w: Wave, power: real, gameTime: int, distance: real) {
    && w.hasBullet
    && Abs(w.power - power) < POWER_TOLERANCE
    && (Abs(distance - w.speed * ((gameTime - w.fireTime - 1) as real)) < DISTANCE_TOLERANCE
        || Abs(distance - w.speed * ((gameTime - w.fireTime - 2) as real)) < DISTANCE_TOLERANCE)
  }

  /** Waves.getBulletHitBulletWave: the first matching bullet wave, which loses
      its bullet and is marked as collided. `distanceFrom` gives the collision
      point's distance from each wave's source. */
  function GetBulletHitBulletWave(s: WaveSet, power: real, gameTime: int, distanceFrom: nat -> real): (r: Lookup)
    ensures r.wave.Some? ==> !r.wave.value.hasBullet && r.wave.value.didCollide
    ensures r.wave.None? <==>
              forall i :: 0 <= i < |s.waves| ==> !MatchesCollision(s.waves[i], power, gameTime, distanceFrom(s.waves[i].id))
    ensures r.wave.None? ==> r.set_ == s
    ensures r.wave.Some? ==>
              exists k :: 0 <= k < |s.waves| && MatchesCollision(s.waves[k], power, gameTime, distanceFrom(s.waves[k].id))
                && (forall j :: 0 <= j < k ==> !MatchesCollision(s.waves[j], power, gameTime, distanceFrom(s.waves[j].id)))
                && r.wave.value == s.waves[k].(hasBullet := false, didCollide := true)
                && r.set_ == s.(waves := s.waves[k := r.wave.value])
  {
    match FirstIndex(s.waves, (w: Wave) => MatchesCollision(w, power, gameTime, distanceFrom(w.id)))
    case None => Lookup(s, None)
    case Some(k) =>
      var w := s.waves[k].(hasBullet := false, didCollide := true);
      Lookup(s.(waves := s.waves[k := w]), Some(w))
  }

  /** After a collision the wave is no longer a bullet wave, so a second
      collision report for the same bullet cannot match it again. */
  lemma CollidedWaveLeavesBulletWaves(s: WaveSet, power: real, gameTime: int, distanceFrom: nat -> real)
    requires GetBulletHitBulletWave(s, power, gameTime, distanceFrom).wave.Some?
    ensures |GetBulletWaves(GetBulletHitBulletWave(s, power, gameTime, distanceFrom).set_)| < |GetBulletWaves(s)|
  {
    var r := GetBulletHitBulletWave(s, power, gameTime, distanceFrom);
    var k :| 0 <= k < |s.waves| && MatchesCollision(s.waves[k], power, gameTime, distanceFrom(s.waves[k].id))
             && r.set_ == s.(waves := s.waves[k := r.wave.value]) && !r.wave.value.hasBullet;
    FilterReplaceDrops(s.waves, k, r.wave.value, IsBulletWave);
  }
}
