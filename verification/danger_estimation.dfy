/** The DangerEstimator object as a whole: the estimator table, the active
    list and one danger tracker per wave, with the turn and bullet events
    that keep them current and the danger queries the surfer makes. Waves
    are addressed by id, as the Java map keys them by object identity. */
module DangerEstimation {
  import opened Wrappers
  import opened MathUtils
  import opened Ranges
  import opened Seqs
  import W = WaveModel
  import DE = DangerEstimators
  import T = DangerTrackers
  import MA = MovingAverages
  import HitRates
  import MV = MovementWaves

  /** The estimator table, the active positions in activation order, and
      the tracker of each wave that has one. */
  datatype Estimation = Estimation(es: seq<DE.Estimator>, active: seq<nat>, trackers: map<nat, T.Tracker>)

  predicate Valid(st: Estimation) {
    && DE.AllStatsOK(st.es) && DE.Members(st.es, st.active) && NoDup(st.active)
    && forall id :: id in st.trackers ==> T.WellSized(st.trackers[id])
  }

  /** The DangerEstimator constructor: the learned table, nothing active yet
      and no trackers. */
  function Initial(): (st: Estimation)
    ensures Valid(st) && |st.es| == 22 && st.active == [] && st.trackers == map[]
  {
    Estimation(DE.InitialEstimators(), [], map[])
  }

  // ---------------------------------------------------------------------------
  // onTurn
  // ---------------------------------------------------------------------------

  /** What a turn leaves of a tracker: no range dangers, the same estimator
      dangers, the combination only when the active set stayed, and the
      shadowed array only when, in addition, the wave's shadows did not change. */
  predicate Turned(t: T.Tracker, t': T.Tracker, shadowUpdated: bool, activeChanged: bool) {
    && |t'.rangeDangers| == 0
    && t'.estimatorDangers == t.estimatorDangers && t'.isVirtual == t.isVirtual
    && (activeChanged ==> t'.combined.None? && t'.shadowed.None?)
    && (!activeChanged ==> t'.combined == t.combined)
    && (shadowUpdated ==> t'.shadowed.None?)
    && (!activeChanged && !shadowUpdated ==> t'.shadowed == t.shadowed)
  }

  /** One surviving tracker's part of onTurn. */
  function TurnTracker(t: T.Tracker, shadowUpdated: bool, activeChanged: bool): (r: T.Tracker)
    requires T.WellSized(t)
    ensures T.WellSized(r) && Turned(t, r, shadowUpdated, activeChanged)
  {
    var t1 := t.(rangeDangers := map[]);
    var t2 := if shadowUpdated then T.OnUpdatedShadow(t1) else t1;
    if activeChanged then T.OnActiveEstimatorsChanged(t2) else t2
  }

  /** The ids of the waves getSurfableWaves lists, which are the ones
      onTurn keeps trackers for. */
  function SurfableIds(m: MV.MovementWaveSet): (ids: set<nat>)
    ensures forall id :: id in ids <==>
              exists i :: 0 <= i < |m.base.waves| && MV.Surfable(m.base.statuses, m.base.waves[i])
                          && m.base.waves[i].id == id
  {
    var ws := MV.GetSurfableWaves(m);
    set i | 0 <= i < |ws| :: ws[i].id
  }

  /** DangerEstimator.onTurn: trackers of waves no longer surfable are
      dropped, every remaining tracker forgets its range dangers, those whose
      wave gained shadows drop their shadowed array, the movement waves'
      record of updated shadows is emptied, and setActiveEstimators runs;
      when the active set changed, every tracker drops its combination as
      well. The models' own onTurn is not part of this state. */
  function OnTurn(st: Estimation, m: MV.MovementWaveSet, strat: DE.Strategy,
                  rates: HitRates.HitRateTracker, sqrt: real -> real): (r: (Estimation, MV.MovementWaveSet))
    requires Valid(st) && HitRates.NonNegative(sqrt)
    ensures Valid(r.0)
    ensures r.0.trackers.Keys == st.trackers.Keys * SurfableIds(m)
    ensures var act := DE.SetActiveEstimators(st.es, st.active, strat, rates, sqrt);
            && r.0.es == act.estimators && r.0.active == act.active
            && forall id :: id in r.0.trackers ==>
                 Turned(st.trackers[id], r.0.trackers[id], id in m.updatedShadowWaves, act.changed)
    ensures r.1.updatedShadowWaves == {} && r.1.base == m.base
  {
    var act := DE.SetActiveEstimators(st.es, st.active, strat, rates, sqrt);
    var trackers := TurnTrackers(st.trackers, SurfableIds(m), m.updatedShadowWaves, act.changed);
    (Estimation(act.estimators, act.active, trackers), m.(updatedShadowWaves := {}))
  }

  /** The tracker map after onTurn: only surfable waves keep a tracker, and
      each is turned. */
  function TurnTrackers(trackers: map<nat, T.Tracker>, surfable: set<nat>, updated: set<nat>,
                        activeChanged: bool): (r: map<nat, T.Tracker>)
    requires forall id :: id in trackers ==> T.WellSized(trackers[id])
    ensures r.Keys == trackers.Keys * surfable
    ensures forall id :: id in r ==> T.WellSized(r[id]) && Turned(trackers[id], r[id], id in updated, activeChanged)
  {
    map id | id in trackers.Keys * surfable :: TurnTracker(trackers[id], id in updated, activeChanged)
  }

  /** Because onTurn empties the record of updated shadows, a second turn
      with no shadow change in between keeps every surviving tracker's
      shadowed array, unless the active set changes. Without the clear, every
      later turn would drop it again. */
  lemma SecondTurnKeepsShadowed(st: Estimation, m: MV.MovementWaveSet, strat: DE.Strategy,
                                rates: HitRates.HitRateTracker, sqrt: real -> real, id: nat)
    requires Valid(st) && HitRates.NonNegative(sqrt)
    requires var r := OnTurn(st, m, strat, rates, sqrt);
             !DE.SetActiveEstimators(r.0.es, r.0.active, strat, rates, sqrt).changed
    requires id in OnTurn(OnTurn(st, m, strat, rates, sqrt).0, OnTurn(st, m, strat, rates, sqrt).1,
                          strat, rates, sqrt).0.trackers
    ensures var r := OnTurn(st, m, strat, rates, sqrt);
            var r2 := OnTurn(r.0, r.1, strat, rates, sqrt);
            r2.0.trackers[id].shadowed == r.0.trackers[id].shadowed
  {
  }

  /** A tracker that agreed with its wave before the turn still agrees with
      it afterwards, under the new weights, active list and shadows: provided
      the active set changed (so the combination was dropped) or the weights
      did not move (see DangerEstimators.ReactivationIsStable for when that
      holds), and provided the shadows changed only for waves reported as
      updated. */
  lemma OnTurnKeepsCoherence(st: Estimation, m: MV.MovementWaveSet, strat: DE.Strategy,
                             rates: HitRates.HitRateTracker, sqrt: real -> real,
                             id: nat, c: T.Source, shadows: seq<real>, exp: real -> real)
    requires Valid(st) && HitRates.NonNegative(sqrt)
    requires id in st.trackers && id in SurfableIds(m)
    requires T.SourceOK(c) && c.es == st.es && c.active == st.active
    requires T.Coherent(st.trackers[id], c, exp)
    requires |shadows| == W.NBINS && (id in m.updatedShadowWaves || shadows == c.shadows)
    requires var act := DE.SetActiveEstimators(st.es, st.active, strat, rates, sqrt);
             act.changed || act.estimators == st.es
    ensures var r := OnTurn(st, m, strat, rates, sqrt).0;
            && T.SourceOK(c.(es := r.es, active := r.active, shadows := shadows))
            && T.Coherent(r.trackers[id], c.(es := r.es, active := r.active, shadows := shadows), exp)
  {
    var act := DE.SetActiveEstimators(st.es, st.active, strat, rates, sqrt);
    var r := OnTurn(st, m, strat, rates, sqrt).0;
    var c2 := c.(es := r.es, active := r.active, shadows := shadows);
    var t := st.trackers[id];
    var t1 := t.(rangeDangers := map[]);
    assert T.SourceOK(c2);
    if !act.changed {
      DE.UnchangedKeepsActive(st.es, st.active, strat, rates, sqrt);
      assert T.Coherent(t1, c, exp);
      if id in m.updatedShadowWaves {
        T.ShadowUpdateKeepsCoherence(t1, c, shadows, exp);
      } else {
        assert c2 == c;
      }
    }
  }

  // ---------------------------------------------------------------------------
  // getDangers and getDanger
  // ---------------------------------------------------------------------------

  /** getDangerTracker: the wave's tracker, or a new empty one. */
  function TrackerOf(st: Estimation, id: nat, isVirtual: bool): (t: T.Tracker)
    requires Valid(st)
    ensures T.WellSized(t)
    ensures id in st.trackers ==> t == st.trackers[id]
    ensures id !in st.trackers ==> t == T.NewTracker(isVirtual)
  {
    if id in st.trackers then st.trackers[id] else T.NewTracker(isVirtual)
  }

  /** A tracker created for a wave agrees with it: it has nothing cached. */
  lemma NewTrackerCoherent(c: T.Source, exp: real -> real)
    requires T.SourceOK(c)
    ensures T.Coherent(T.NewTracker(c.isVirtual), c, exp)
  {
  }

  /** The state with the wave's tracker replaced, or added. */
  function Store(st: Estimation, id: nat, t: T.Tracker): (r: Estimation)
    requires Valid(st) && T.WellSized(t)
    ensures Valid(r) && r.es == st.es && r.active == st.active
    ensures r.trackers.Keys == st.trackers.Keys + {id} && id in r.trackers && r.trackers[id] == t
    ensures forall j :: j in st.trackers && j != id ==> r.trackers[j] == st.trackers[j]
  {
    var r := st.(trackers := st.trackers[id := t]);
    assert forall j :: j in r.trackers ==> j == id || j in st.trackers;
    r
  }

  /** Whether the wave's tracker, if it has one, agrees with the wave. */
  predicate TrackerCoherent(st: Estimation, id: nat, c: T.Source, exp: real -> real)
    requires T.SourceOK(c)
  {
    id in st.trackers ==> T.Coherent(st.trackers[id], c, exp)
  }

  /** DangerEstimator.getDangers(w): the wave's tracker answers, and is kept
      (created if need be). None when the aggregation throws. */
  method GetDangers(st: Estimation, id: nat, c: T.Source, exp: real -> real)
    returns (r: Option<(seq<real>, Estimation)>)
    requires Valid(st) && T.SourceOK(c)
    ensures r.Some? ==> var st' := r.value.1;
              && Valid(st') && st'.es == st.es && st'.active == st.active
              && st'.trackers.Keys == st.trackers.Keys + {id}
              && (forall j :: j in st.trackers && j != id ==> st'.trackers[j] == st.trackers[j])
    ensures TrackerCoherent(st, id, c, exp) ==>
              && (r.Some? <==> T.FreshDangers(c, exp).Some?)
              && (r.Some? ==> r.value.0 == T.FreshDangers(c, exp).value && TrackerCoherent(r.value.1, id, c, exp))
  {
    var t := TrackerOf(st, id, c.isVirtual);
    ghost var coherent := TrackerCoherent(st, id, c, exp);
    if id !in st.trackers {
      NewTrackerCoherent(c, exp);
    }
    assert coherent ==> T.Coherent(t, c, exp);
    var got := T.GetDangers(t, c, exp);
    if got.None? {
      return None;
    }
    var (d, t1) := got.value;
    var st' := Store(st, id, t1);
    assert coherent ==> TrackerCoherent(st', id, c, exp);
    r := Some((d, st'));
  }

  /** DangerEstimator.getDanger(w, range): the range's memoised danger, or
      the range danger of the wave's dangers, memoised. Never negative. */
  method GetDanger(st: Estimation, id: nat, c: T.Source, exp: real -> real, w: W.Wave, rangeId: nat, range: Range)
    returns (r: Option<(real, Estimation)>)
    requires Valid(st) && T.SourceOK(c) && W.WellFormed(w)
    requires -1.0 <= range.start && range.end < 1.0
    ensures id in st.trackers && rangeId in st.trackers[id].rangeDangers ==>
              r.Some? && r.value.0 == st.trackers[id].rangeDangers[rangeId]
    ensures r.Some? ==> var (danger, st') := r.value;
              && danger >= 0.0
              && Valid(st') && st'.es == st.es && st'.active == st.active
              && st'.trackers.Keys == st.trackers.Keys + {id}
              && (forall j :: j in st.trackers && j != id ==> st'.trackers[j] == st.trackers[j])
              && rangeId in st'.trackers[id].rangeDangers && st'.trackers[id].rangeDangers[rangeId] == danger
    ensures TrackerCoherent(st, id, c, exp) && (id !in st.trackers || rangeId !in st.trackers[id].rangeDangers) ==>
              && (r.Some? <==> T.FreshDangers(c, exp).Some?)
              && (r.Some? ==> r.value.0 == T.RangeDanger(T.FreshDangers(c, exp).value, range, T.AlreadyHitRange(w))
                              && TrackerCoherent(r.value.1, id, c, exp))
  {
    var t := TrackerOf(st, id, c.isVirtual);
    ghost var coherent := TrackerCoherent(st, id, c, exp) && rangeId !in t.rangeDangers;
    if id !in st.trackers {
      NewTrackerCoherent(c, exp);
    }
    assert coherent ==> T.Coherent(t, c, exp);
    var got := T.GetDanger(t, c, exp, w, rangeId, range);
    if got.None? {
      return None;
    }
    var (danger, t1) := got.value;
    var st' := Store(st, id, t1);
    assert coherent ==> TrackerCoherent(st', id, c, exp);
    r := Some((danger, st'));
  }

  /** A second getDanger for the same Range object, with no turn in
      between, returns the first one's answer. */
  method GetDangerTwice(st: Estimation, id: nat, c: T.Source, exp: real -> real, w: W.Wave, rangeId: nat,
                        range: Range, c2: T.Source, w2: W.Wave)
    returns (first: Option<real>, second: Option<real>)
    requires Valid(st) && T.SourceOK(c) && T.SourceOK(c2) && W.WellFormed(w) && W.WellFormed(w2)
    requires -1.0 <= range.start && range.end < 1.0
    ensures first.Some? ==> second == first
  {
    var r1 := GetDanger(st, id, c, exp, w, rangeId, range);
    if r1.None? {
      return None, None;
    }
    first := Some(r1.value.0);
    var r2 := GetDanger(r1.value.1, id, c2, exp, w2, rangeId, range);
    second := if r2.Some? then Some(r2.value.0) else None;
  }

  // ---------------------------------------------------------------------------
  // onSeeBullet
  // ---------------------------------------------------------------------------

  /** The estimators whose statistics score a hit: every one but those
      meeting their first hit, when the model had no data yet. */
  function ScoredOnHit(es: seq<DE.Estimator>): (r: set<nat>)
    ensures forall k :: k in r <==> 0 <= k < |es| && es[k].stats.hits > 0
  {
    set k | 0 <= k < |es| && es[k].stats.hits > 0
  }

  /** The dangers estimator k is scored with: its array cached in the hit
      wave's tracker, else its model's normalised dangers for the wave. */
  function ScoringDangers(cache: map<nat, seq<real>>, raw: seq<seq<real>>, k: nat): seq<real>
    requires k in cache || k < |raw|
  {
    if k in cache then cache[k] else Normalize(raw[k])
  }

  /** Raw danger arrays, one per estimator, each one entry per bin. */
  predicate RawOK(raw: seq<seq<real>>, es: seq<DE.Estimator>) {
    |raw| == |es| && forall k :: 0 <= k < |raw| ==> |raw[k]| == W.NBINS
  }

  /** The first loop of onSeeBullet: updateWeightingStats for every
      estimator, each reading its dangers through the hit wave's cache. */
  function ScoreAll(es: seq<DE.Estimator>, cache: map<nat, seq<real>>, raw: seq<seq<real>>, w: W.Wave,
                    halfBotAngle: real, exp: real -> real): (r: seq<DE.Estimator>)
    requires DE.AllStatsOK(es) && W.WellFormed(w) && Positive(exp) && RawOK(raw, es)
    requires forall k :: k in cache ==> |cache[k]| == W.NBINS
    ensures |r| == |es| && DE.AllStatsOK(r)
    ensures forall k :: 0 <= k < |es| ==>
              r[k].(stats := es[k].stats) == es[k] && r[k].stats.hits == es[k].stats.hits + 1
    ensures forall k :: 0 <= k < |es| && es[k].stats.hits == 0 ==>
              r[k].stats.avgBulletDanger == es[k].stats.avgBulletDanger
    ensures T.CacheCoherent(cache, raw) ==> forall k :: 0 <= k < |es| && es[k].stats.hits > 0 ==>
              r[k].stats.avgBulletDanger == MA.Update(es[k].stats.avgBulletDanger,
                DE.DangerEstimate(Normalize(raw[k]), W.HitGF(w), DE.HitHalfWidth(w, halfBotAngle), exp))
  {
    seq(|es|, k requires 0 <= k < |es| =>
      DE.UpdateWeightingStats(es[k], w, ScoringDangers(cache, raw, k), halfBotAngle, exp))
  }

  /** The hit wave's estimator cache once every scored estimator has read
      its dangers through it. */
  function ScoringCache(cache: map<nat, seq<real>>, es: seq<DE.Estimator>, raw: seq<seq<real>>)
    : (r: map<nat, seq<real>>)
    requires RawOK(raw, es)
    ensures r.Keys == cache.Keys + ScoredOnHit(es)
    ensures forall k :: k in r ==> r[k] == ScoringDangers(cache, raw, k)
  {
    map k | k in cache.Keys + ScoredOnHit(es) :: ScoringDangers(cache, raw, k)
  }

  /** The positions of the hit models among the first `n` estimators. */
  function HitModelsBelow(es: seq<DE.Estimator>, n: nat): set<nat>
    requires n <= |es|
  {
    set k | 0 <= k < n && es[k].isHitModel
  }

  /** The second loop of onSeeBullet, as one tracker sees it:
      onUpdatedEstimator for each of the first `n` estimators that is a hit
      model, in table order. */
  function InvalidateHitModels(t: T.Tracker, es: seq<DE.Estimator>, n: nat): (r: T.Tracker)
    requires n <= |es| && T.WellSized(t)
    ensures T.WellSized(r)
    ensures r.isVirtual == t.isVirtual && r.rangeDangers == t.rangeDangers
    ensures r.estimatorDangers == t.estimatorDangers - HitModelsBelow(es, n)
    ensures t.estimatorDangers.Keys * HitModelsBelow(es, n) == {} ==> r == t
    ensures t.estimatorDangers.Keys * HitModelsBelow(es, n) != {} ==> r.combined.None? && r.shadowed.None?
  {
    if n == 0 then t
    else
      var prev := InvalidateHitModels(t, es, n - 1);
      assert HitModelsBelow(es, n) == HitModelsBelow(es, n - 1) + (if es[n - 1].isHitModel then {n - 1} else {});
      assert t.estimatorDangers.Keys * HitModelsBelow(es, n - 1) <= t.estimatorDangers.Keys * HitModelsBelow(es, n);
      assert es[n - 1].isHitModel ==> (n - 1 in prev.estimatorDangers <==> n - 1 in t.estimatorDangers);
      assert es[n - 1].isHitModel && n - 1 in t.estimatorDangers ==>
               n - 1 in t.estimatorDangers.Keys * HitModelsBelow(es, n);
      assert t.estimatorDangers.Keys * HitModelsBelow(es, n) == {} ==>
               && t.estimatorDangers.Keys * HitModelsBelow(es, n - 1) == {}
               && (es[n - 1].isHitModel ==> n - 1 !in t.estimatorDangers);
      if es[n - 1].isHitModel then T.OnUpdatedEstimator(prev, n - 1) else prev
  }

  /** The hit wave's tracker exists after the bullet when it existed before
      or some estimator scored the hit through it. */
  predicate KeepsHitTracker(st: Estimation, wid: nat) {
    wid in st.trackers || ScoredOnHit(st.es) != {}
  }

  /** The hit wave's tracker, if any, caches only its models' normalised
      dangers for that wave. */
  predicate HitCacheCoherent(st: Estimation, wid: nat, raw: seq<seq<real>>) {
    wid in st.trackers ==> T.CacheCoherent(st.trackers[wid].estimatorDangers, raw)
  }

  /** The tracker of another wave after the bullet: virtual waves' trackers
      are left alone, real waves' drop every retrained hit model. */
  function OtherTrackerAfterBullet(t: T.Tracker, es: seq<DE.Estimator>): (r: T.Tracker)
    requires T.WellSized(t)
    ensures T.WellSized(r)
  {
    if t.isVirtual then t else InvalidateHitModels(t, es, |es|)
  }

  /** The hit wave's tracker after scoring: every scored estimator's array
      is now cached; nothing else changes. */
  function HitTrackerAfterBullet(t: T.Tracker, es: seq<DE.Estimator>, raw: seq<seq<real>>): (r: T.Tracker)
    requires T.WellSized(t) && RawOK(raw, es)
    ensures T.WellSized(r)
    ensures r.estimatorDangers.Keys == t.estimatorDangers.Keys + ScoredOnHit(es)
    ensures forall k :: k in t.estimatorDangers ==> r.estimatorDangers[k] == t.estimatorDangers[k]
    ensures forall k :: k in r.estimatorDangers && k !in t.estimatorDangers ==> r.estimatorDangers[k] == Normalize(raw[k])
    ensures r.(estimatorDangers := t.estimatorDangers) == t
  {
    t.(estimatorDangers := ScoringCache(t.estimatorDangers, es, raw))
  }

  /** The tracker map after the bullet. */
  function TrackersAfterBullet(st: Estimation, wid: nat, hit: T.Tracker, keepHit: bool)
    : (r: map<nat, T.Tracker>)
    requires Valid(st) && T.WellSized(hit)
    ensures r.Keys == st.trackers.Keys + (if keepHit then {wid} else {})
    ensures keepHit ==> r[wid] == hit
    ensures forall id :: id in st.trackers && id != wid ==> r[id] == OtherTrackerAfterBullet(st.trackers[id], st.es)
    ensures forall id :: id in r ==> T.WellSized(r[id])
  {
    var keys := st.trackers.Keys + (if keepHit then {wid} else {});
    map id | id in keys :: if id == wid then hit else OtherTrackerAfterBullet(st.trackers[id], st.es)
  }

  /** DangerEstimator.onSeeBullet for a bullet from wave `wid`: every
      estimator's weighting statistics score the hit, reading its dangers
      through the wave's tracker, then each hit model is retrained and every
      other real wave's tracker forgets it. raw[k] is what estimator k's
      model returned for the wave before retraining. */
  function OnSeeBullet(st: Estimation, wid: nat, w: W.Wave, raw: seq<seq<real>>, halfBotAngle: real,
                       exp: real -> real): (r: Estimation)
    requires Valid(st) && W.WellFormed(w) && Positive(exp) && RawOK(raw, st.es)
    ensures Valid(r)
    ensures r.active == st.active && |r.es| == |st.es|
    ensures forall k :: 0 <= k < |st.es| ==>
              r.es[k].(stats := st.es[k].stats) == st.es[k] && r.es[k].stats.hits == st.es[k].stats.hits + 1
    ensures forall k :: 0 <= k < |st.es| && st.es[k].stats.hits == 0 ==>
              r.es[k].stats.avgBulletDanger == st.es[k].stats.avgBulletDanger
    ensures HitCacheCoherent(st, wid, raw) ==> forall k :: 0 <= k < |st.es| && st.es[k].stats.hits > 0 ==>
              r.es[k].stats.avgBulletDanger == MA.Update(st.es[k].stats.avgBulletDanger,
                DE.DangerEstimate(Normalize(raw[k]), W.HitGF(w), DE.HitHalfWidth(w, halfBotAngle), exp))
    ensures r.trackers.Keys == st.trackers.Keys + (if KeepsHitTracker(st, wid) then {wid} else {})
    ensures wid in r.trackers ==>
              var (t, t') := (TrackerOf(st, wid, w.isVirtual), r.trackers[wid]);
              && t'.estimatorDangers.Keys == t.estimatorDangers.Keys + ScoredOnHit(st.es)
              && (forall k :: k in t.estimatorDangers ==> t'.estimatorDangers[k] == t.estimatorDangers[k])
              && t'.(estimatorDangers := t.estimatorDangers) == t
    ensures forall id :: id in st.trackers && id != wid ==>
              r.trackers[id] == OtherTrackerAfterBullet(st.trackers[id], st.es)
  {
    var tw := TrackerOf(st, wid, w.isVirtual);
    var es := ScoreAll(st.es, tw.estimatorDangers, raw, w, halfBotAngle, exp);
    var hit := HitTrackerAfterBullet(tw, st.es, raw);
    var trackers := TrackersAfterBullet(st, wid, hit, KeepsHitTracker(st, wid));
    assert HitCacheCoherent(st, wid, raw) ==> T.CacheCoherent(tw.estimatorDangers, raw);
    Estimation(es, st.active, trackers)
  }

  /** What a bullet does to the estimators, whatever the caches: the active
      list is kept and every estimator's hit count grows by one. */
  predicate BulletScored(st: Estimation, r: Estimation) {
    && Valid(r) && r.active == st.active && |r.es| == |st.es|
    && forall k :: 0 <= k < |st.es| ==> r.es[k].stats.hits == st.es[k].stats.hits + 1
  }

  /** DangerEstimator.onSeeBullet with its logging step: for a bullet that
      did not collide, getDangersWithoutShadows first runs getDangers on the
      wave, which creates or fills the wave's tracker, and throws when the
      aggregation throws (None here). What is written to the dataset is left
      out. When the tracker agrees with the wave, that step changes nothing
      the estimators learn. */
  method OnSeeBulletLogged(st: Estimation, wid: nat, w: W.Wave, c: T.Source, raw: seq<seq<real>>,
                           halfBotAngle: real, exp: real -> real)
    returns (r: Option<Estimation>)
    requires Valid(st) && W.WellFormed(w) && Positive(exp) && RawOK(raw, st.es)
    requires T.SourceOK(c) && c.raw == raw && c.isVirtual == w.isVirtual
    ensures w.didCollide ==> r == Some(OnSeeBullet(st, wid, w, raw, halfBotAngle, exp))
    ensures r.Some? ==> BulletScored(st, r.value)
    ensures r.Some? && !w.didCollide ==> wid in r.value.trackers
    ensures TrackerCoherent(st, wid, c, exp) ==> (r.Some? <==> w.didCollide || T.FreshDangers(c, exp).Some?)
    ensures TrackerCoherent(st, wid, c, exp) && r.Some? ==>
              r.value.es == OnSeeBullet(st, wid, w, raw, halfBotAngle, exp).es && TrackerCoherent(r.value, wid, c, exp)
  {
    var before := st;
    if !w.didCollide {
      var got := GetDangers(st, wid, c, exp);
      if got.None? {
        return None;
      }
      before := got.value.1;
    }
    LoggedStepFacts(st, before, wid, w, c, raw, halfBotAngle, exp);
    r := Some(OnSeeBullet(before, wid, w, raw, halfBotAngle, exp));
  }

  /** Scoring after the logging step: the estimators learn as from the
      state before it, as long as the tracker agreed with the wave. */
  lemma LoggedStepFacts(st: Estimation, before: Estimation, wid: nat, w: W.Wave, c: T.Source, raw: seq<seq<real>>,
                        halfBotAngle: real, exp: real -> real)
    requires Valid(st) && Valid(before) && before.es == st.es && before.active == st.active
    requires W.WellFormed(w) && Positive(exp) && RawOK(raw, st.es)
    requires T.SourceOK(c) && c.raw == raw && c.isVirtual == w.isVirtual
    requires TrackerCoherent(st, wid, c, exp) ==> TrackerCoherent(before, wid, c, exp)
    ensures BulletScored(st, OnSeeBullet(before, wid, w, raw, halfBotAngle, exp))
    ensures TrackerCoherent(st, wid, c, exp) ==>
              && OnSeeBullet(before, wid, w, raw, halfBotAngle, exp).es == OnSeeBullet(st, wid, w, raw, halfBotAngle, exp).es
              && TrackerCoherent(OnSeeBullet(before, wid, w, raw, halfBotAngle, exp), wid, c, exp)
  {
    if TrackerCoherent(st, wid, c, exp) {
      BulletKeepsHitTrackerCoherent(before, wid, w, raw, halfBotAngle, exp, c);
      SameScoresWhenCoherent(st, before, wid, w, raw, halfBotAngle, exp);
    }
  }

  /** Scoring reads the same arrays through any two caches that agree with
      the models. */
  lemma ScoreAllSameWhenCoherent(es: seq<DE.Estimator>, cache: map<nat, seq<real>>, cache': map<nat, seq<real>>,
                                 raw: seq<seq<real>>, w: W.Wave, halfBotAngle: real, exp: real -> real)
    requires DE.AllStatsOK(es) && W.WellFormed(w) && Positive(exp) && RawOK(raw, es)
    requires T.CacheCoherent(cache, raw) && T.CacheCoherent(cache', raw)
    requires forall k :: k in cache ==> |cache[k]| == W.NBINS
    requires forall k :: k in cache' ==> |cache'[k]| == W.NBINS
    ensures ScoreAll(es, cache, raw, w, halfBotAngle, exp) == ScoreAll(es, cache', raw, w, halfBotAngle, exp)
  {
    forall k | 0 <= k < |es|
      ensures ScoringDangers(cache, raw, k) == ScoringDangers(cache', raw, k)
    {
      assert ScoringDangers(cache, raw, k) == Normalize(raw[k]);
    }
  }

  /** Two states with the same estimators whose hit-wave caches both agree
      with the models score a hit identically. */
  lemma SameScoresWhenCoherent(st: Estimation, st': Estimation, wid: nat, w: W.Wave, raw: seq<seq<real>>,
                               halfBotAngle: real, exp: real -> real)
    requires Valid(st) && Valid(st') && st'.es == st.es
    requires W.WellFormed(w) && Positive(exp) && RawOK(raw, st.es)
    requires HitCacheCoherent(st, wid, raw) && HitCacheCoherent(st', wid, raw)
    ensures OnSeeBullet(st', wid, w, raw, halfBotAngle, exp).es == OnSeeBullet(st, wid, w, raw, halfBotAngle, exp).es
  {
    var t := TrackerOf(st, wid, w.isVirtual);
    var t' := TrackerOf(st', wid, w.isVirtual);
    assert T.CacheCoherent(t.estimatorDangers, raw) && T.CacheCoherent(t'.estimatorDangers, raw);
    ScoreAllSameWhenCoherent(st.es, t.estimatorDangers, t'.estimatorDangers, raw, w, halfBotAngle, exp);
    assert OnSeeBullet(st, wid, w, raw, halfBotAngle, exp).es == ScoreAll(st.es, t.estimatorDangers, raw, w, halfBotAngle, exp);
    assert OnSeeBullet(st', wid, w, raw, halfBotAngle, exp).es == ScoreAll(st.es, t'.estimatorDangers, raw, w, halfBotAngle, exp);
  }

  /** The raw dangers with the hit models among the first `n` estimators
      taken from `retrained`, the rest from `before`. */
  function MixRetrained(before: seq<seq<real>>, retrained: seq<seq<real>>, es: seq<DE.Estimator>, n: nat)
    : (r: seq<seq<real>>)
    requires |before| == |retrained| == |es| && n <= |es|
    ensures |r| == |before|
    ensures forall k :: 0 <= k < |r| ==> r[k] == (if k < n && es[k].isHitModel then retrained[k] else before[k])
  {
    seq(|before|, k requires 0 <= k < |before| => if k < n && es[k].isHitModel then retrained[k] else before[k])
  }

  /** One more estimator of the table: MixRetrained takes its dangers from
      `retrained` exactly when it is a hit model. */
  lemma MixRetrainedStep(before: seq<seq<real>>, retrained: seq<seq<real>>, es: seq<DE.Estimator>, n: nat)
    requires |before| == |retrained| == |es| && 0 < n <= |es|
    ensures MixRetrained(before, retrained, es, n)
            == (if es[n - 1].isHitModel then MixRetrained(before, retrained, es, n - 1)[n - 1 := retrained[n - 1]]
                else MixRetrained(before, retrained, es, n - 1))
  {
  }

  /** A tracker whose first `n` estimators' hit models were dropped agrees
      with its wave once those models are retrained. */
  predicate InvalidatedCoherent(t: T.Tracker, es: seq<DE.Estimator>, n: nat, c: T.Source,
                                retrained: seq<seq<real>>, exp: real -> real)
    requires |c.raw| == |retrained| == |es| && n <= |es| && T.WellSized(t)
  {
    var raw := MixRetrained(c.raw, retrained, es, n);
    T.SourceOK(c.(raw := raw)) && T.Coherent(InvalidateHitModels(t, es, n), c.(raw := raw), exp)
  }

  /** The inductive step of InvalidateKeepsCoherence: dropping estimator
      n - 1 when it is a hit model keeps the tracker coherent once it is
      retrained. */
  lemma InvalidateStep(t: T.Tracker, es: seq<DE.Estimator>, n: nat, c: T.Source,
                       retrained: seq<seq<real>>, exp: real -> real)
    requires T.SourceOK(c) && |es| == |c.es| && 0 < n <= |es| && T.WellSized(t)
    requires RawOK(retrained, c.es)
    requires InvalidatedCoherent(t, es, n - 1, c, retrained, exp)
    ensures InvalidatedCoherent(t, es, n, c, retrained, exp)
  {
    var prevRaw := MixRetrained(c.raw, retrained, es, n - 1);
    var prev := InvalidateHitModels(t, es, n - 1);
    MixRetrainedStep(c.raw, retrained, es, n);
    if es[n - 1].isHitModel {
      T.EstimatorUpdateKeepsCoherence(prev, c.(raw := prevRaw), n - 1, retrained[n - 1], exp);
    }
  }

  /** Dropping the first `n` estimators' hit models keeps a tracker in
      agreement with its wave once those models are retrained. */
  lemma {:induction false} InvalidateKeepsCoherence(t: T.Tracker, es: seq<DE.Estimator>, n: nat, c: T.Source,
                                                    retrained: seq<seq<real>>, exp: real -> real)
    requires T.SourceOK(c) && |es| == |c.es| && n <= |es| && T.WellSized(t)
    requires RawOK(retrained, c.es)
    requires T.Coherent(t, c, exp)
    ensures InvalidatedCoherent(t, es, n, c, retrained, exp)
  {
    if n == 0 {
      assert MixRetrained(c.raw, retrained, es, 0) == c.raw;
      assert c.(raw := c.raw) == c;
    } else {
      InvalidateKeepsCoherence(t, es, n - 1, c, retrained, exp);
      InvalidateStep(t, es, n, c, retrained, exp);
    }
  }

  /** After a bullet, every other real wave's tracker agrees with its wave
      under the retrained hit models: whatever a retrained model contributed
      was dropped. `retrained` differs from the old raw dangers only in hit
      models. */
  lemma BulletKeepsOtherTrackersCoherent(st: Estimation, wid: nat, w: W.Wave, raw: seq<seq<real>>,
                                         halfBotAngle: real, exp: real -> real,
                                         id: nat, c: T.Source, retrained: seq<seq<real>>)
    requires Valid(st) && W.WellFormed(w) && Positive(exp) && RawOK(raw, st.es)
    requires id in st.trackers && id != wid && !st.trackers[id].isVirtual
    requires T.SourceOK(c) && |c.es| == |st.es| && T.Coherent(st.trackers[id], c, exp)
    requires RawOK(retrained, c.es)
    requires forall k :: 0 <= k < |st.es| && !st.es[k].isHitModel ==> retrained[k] == c.raw[k]
    ensures T.SourceOK(c.(raw := retrained))
    ensures T.Coherent(OnSeeBullet(st, wid, w, raw, halfBotAngle, exp).trackers[id], c.(raw := retrained), exp)
  {
    InvalidateKeepsCoherence(st.trackers[id], st.es, |st.es|, c, retrained, exp);
    assert MixRetrained(c.raw, retrained, st.es, |st.es|) == retrained;
  }

  /** Scoring through the hit wave's tracker keeps it in agreement with the
      wave: it only caches the models' normalised dangers. */
  lemma BulletKeepsHitTrackerCoherent(st: Estimation, wid: nat, w: W.Wave, raw: seq<seq<real>>,
                                      halfBotAngle: real, exp: real -> real, c: T.Source)
    requires Valid(st) && W.WellFormed(w) && Positive(exp) && RawOK(raw, st.es)
    requires T.SourceOK(c) && c.raw == raw && c.isVirtual == w.isVirtual
    requires TrackerCoherent(st, wid, c, exp)
    ensures TrackerCoherent(OnSeeBullet(st, wid, w, raw, halfBotAngle, exp), wid, c, exp)
  {
    var r := OnSeeBullet(st, wid, w, raw, halfBotAngle, exp);
    if wid in r.trackers {
      var t := TrackerOf(st, wid, w.isVirtual);
      if wid !in st.trackers {
        NewTrackerCoherent(c, exp);
      }
      var t' := r.trackers[wid];
      assert T.CacheCoherent(t'.estimatorDangers, raw);
      if t'.combined.Some? {
        assert T.ReadsAllUsed(t'.estimatorDangers, c);
      }
    }
  }

  /** Against the strategy of the last turn, the aggregation never hits the
      missing anti-ram multiplier: every active estimator has one. So a
      coherent tracker's getDangers always answers after onTurn. */
  lemma TurnedStateNeverThrows(st: Estimation, m: MV.MovementWaveSet, strat: DE.Strategy,
                               rates: HitRates.HitRateTracker, sqrt: real -> real, c: T.Source, exp: real -> real)
    requires Valid(st) && HitRates.NonNegative(sqrt)
    requires var r := OnTurn(st, m, strat, rates, sqrt).0;
             T.SourceOK(c) && c.es == r.es && c.active == r.active && c.strat == strat
    ensures T.FreshDangers(c, exp).Some?
  {
    forall i | 0 <= i < |c.active| ensures T.Multiplier(c.es[c.active[i]], c.strat).Some? {
    }
    T.AllMultipliedAnswers(c, exp);
  }
}
