/** DangerEstimator.DangerTracker and the DangerEstimator operations around
    it: the per-wave caches of each model's normalised dangers, of the
    smoothed ensemble combination, of the shadowed result and of range
    dangers; the rules that invalidate them; and getDanger, the danger of a
    GF range. A wave is addressed by its id and a Range object by an id of
    its own, as the Java maps key them by object identity. */
module DangerTrackers {
  import opened Wrappers
  import opened MathUtils
  import opened GFBins
  import opened Ranges
  import opened Seqs
  import W = WaveModel
  import DE = DangerEstimators
  import HitRates

  /** DangerTracker: the wave's flag, and the four caches. `rangeDangers` is
      keyed by the id of the Range object the caller passed. */
  datatype Tracker = Tracker(isVirtual: bool,
                             estimatorDangers: map<nat, seq<real>>,
                             rangeDangers: map<nat, real>,
                             combined: Option<seq<real>>,
                             shadowed: Option<seq<real>>)

  /** The DangerTracker constructor: every cache empty. */
  function NewTracker(isVirtual: bool): (t: Tracker)
    ensures t.isVirtual == isVirtual && WellSized(t)
    ensures |t.estimatorDangers| == 0 && |t.rangeDangers| == 0
    ensures t.combined.None? && t.shadowed.None?
  {
    Tracker(isVirtual, map[], map[], None, None)
  }

  /** Every cached array has one entry per bin. */
  predicate WellSized(t: Tracker) {
    && (forall k :: k in t.estimatorDangers ==> |t.estimatorDangers[k]| == W.NBINS)
    && (t.combined.Some? ==> |t.combined.value| == W.NBINS)
    && (t.shadowed.Some? ==> |t.shadowed.value| == W.NBINS)
    && (t.shadowed.Some? ==> t.combined.Some?)
    && (forall id :: id in t.rangeDangers ==> t.rangeDangers[id] >= 0.0)
  }

  /** What a tracker's dangers are computed from at one moment: the ensemble
      with its current weights and active list, the strategy flags, the
      wave's flags and shadows, and raw[k], what estimator k's
      model.getDangers returns for the wave. */
  datatype Source = Source(es: seq<DE.Estimator>, active: seq<nat>, strat: DE.Strategy,
                           isVirtual: bool, isSimulated: bool, shadows: seq<real>,
                           raw: seq<seq<real>>)

  predicate SourceOK(c: Source) {
    && |c.raw| == |c.es|
    && DE.Members(c.es, c.active)
    && |c.shadows| == W.NBINS
    && forall k :: 0 <= k < |c.raw| ==> |c.raw[k]| == W.NBINS
  }

  // ---------------------------------------------------------------------------
  // getAggregatedDangers
  // ---------------------------------------------------------------------------

  /** The multiplier getAggregatedDangers gives an estimator: its anti-ram
      multiplier against a rambot, else its own, doubled for the HOT model in
      anti-HOT mode. Java unboxes antiRamMultipliers.get(name), which throws
      for a name the map lacks: that is None here. */
  function Multiplier(e: DE.Estimator, strat: DE.Strategy): (r: Option<real>)
    ensures r.None? <==> strat.antiRam && e.name !in DE.ANTI_RAM_MULTIPLIERS
    ensures r.Some? && !(strat.antiHOT && e.name == "HOT") ==>
              r.value == (if strat.antiRam then DE.ANTI_RAM_MULTIPLIERS[e.name] else e.multiplier)
    ensures r.Some? && strat.antiHOT && e.name == "HOT" ==>
              r.value == 2.0 * (if strat.antiRam then DE.ANTI_RAM_MULTIPLIERS[e.name] else e.multiplier)
  {
    var base := if !strat.antiRam then Some(e.multiplier)
                else if e.name in DE.ANTI_RAM_MULTIPLIERS then Some(DE.ANTI_RAM_MULTIPLIERS[e.name])
                else None;
    match base
    case None => None
    case Some(m) => Some(m * (if strat.antiHOT && e.name == "HOT" then 2.0 else 1.0))
  }

  /** Whether an estimator takes part in one of the two aggregations: the hit
      models in one, the flatteners in the other, and for a simulated wave
      against a rambot only Circular and NanoLinearFixedSpeed. */
  predicate Included(e: DE.Estimator, c: Source, useHitModels: bool) {
    && e.isHitModel == useHitModels
    && (!c.strat.antiRam || !c.isSimulated || e.name == "Circular" || e.name == "NanoLinearFixedSpeed")
  }

  /** acc[i] += dangers[i] * scale, for every bin. */
  function Accumulate(acc: seq<real>, dangers: seq<real>, scale: real): (r: seq<real>)
    requires |dangers| == |acc|
    ensures |r| == |acc|
  {
    seq(|acc|, i requires 0 <= i < |acc| => acc[i] + dangers[i] * scale)
  }

  /** The factor an estimator's dangers are scaled by: its weight times its
      multiplier. */
  function Scale(e: DE.Estimator, multiplier: real): real {
    e.weight * multiplier
  }

  /** The aggregation over the first `n` active estimators computed without
      any cache: each included estimator adds its normalised dangers scaled
      by its weight and multiplier. None when an active estimator has no
      multiplier. */
  function FreshAggregate(c: Source, useHitModels: bool, n: nat): (r: Option<seq<real>>)
    requires SourceOK(c) && n <= |c.active|
    ensures r.Some? ==> |r.value| == W.NBINS
    decreases n
  {
    if n == 0 then Some(ZeroArray(W.NBINS))
    else
      var prev := FreshAggregate(c, useHitModels, n - 1);
      var k := c.active[n - 1];
      var m := Multiplier(c.es[k], c.strat);
      if prev.None? || m.None? then None
      else if Included(c.es[k], c, useHitModels)
      then Some(Accumulate(prev.value, Normalize(c.raw[k]), Scale(c.es[k], m.value)))
      else prev
  }

  /** The aggregation fails exactly when some active estimator has no
      multiplier, whichever models it aggregates. */
  lemma {:induction false} FreshAggregateFails(c: Source, useHitModels: bool, n: nat)
    requires SourceOK(c) && n <= |c.active|
    ensures FreshAggregate(c, useHitModels, n).None? <==>
            exists i :: 0 <= i < n && Multiplier(c.es[c.active[i]], c.strat).None?
    decreases n
  {
    if n > 0 {
      FreshAggregateFails(c, useHitModels, n - 1);
      var k := c.active[n - 1];
      if Multiplier(c.es[k], c.strat).None? {
        assert 0 <= n - 1 < n && Multiplier(c.es[c.active[n - 1]], c.strat).None?;
      } else if FreshAggregate(c, useHitModels, n - 1).None? {
        var i :| 0 <= i < n - 1 && Multiplier(c.es[c.active[i]], c.strat).None?;
        assert 0 <= i < n && Multiplier(c.es[c.active[i]], c.strat).None?;
      }
    }
  }

  /** When every active estimator has a multiplier, the fresh computation answers. */
  lemma AllMultipliedAnswers(c: Source, exp: real -> real)
    requires SourceOK(c)
    requires forall i :: 0 <= i < |c.active| ==> Multiplier(c.es[c.active[i]], c.strat).Some?
    ensures FreshDangers(c, exp).Some?
  {
    FreshAggregateFails(c, true, |c.active|);
    FreshAggregateFails(c, false, |c.active|);
  }

  /** An estimator-dangers cache holds each model's normalised raw dangers. */
  predicate CacheCoherent(cache: map<nat, seq<real>>, raw: seq<seq<real>>) {
    forall k :: k in cache ==> k < |raw| && cache[k] == Normalize(raw[k])
  }

  /** getEstimatorDangers: the cached array, or the model's dangers
      normalised and put in the cache. */
  function EstimatorDangers(cache: map<nat, seq<real>>, c: Source, k: nat)
    : (r: (seq<real>, map<nat, seq<real>>))
    requires SourceOK(c) && k < |c.es|
    requires forall j :: j in cache ==> |cache[j]| == W.NBINS
    ensures |r.0| == W.NBINS && k in r.1 && r.1[k] == r.0
    ensures forall j :: j in r.1 ==> |r.1[j]| == W.NBINS
    ensures k in cache ==> r == (cache[k], cache)
    ensures k !in cache ==> r.0 == Normalize(c.raw[k]) && r.1 == cache[k := r.0]
  {
    if k in cache then (cache[k], cache)
    else
      var d := Normalize(c.raw[k]);
      (d, cache[k := d])
  }

  /** getAggregatedDangers over the first `n` active estimators, reading and
      filling the estimator-dangers cache; None when the multiplier lookup
      throws. */
  function Aggregate(cache: map<nat, seq<real>>, c: Source, useHitModels: bool, n: nat)
    : (r: Option<(seq<real>, map<nat, seq<real>>)>)
    requires SourceOK(c) && n <= |c.active|
    requires forall j :: j in cache ==> |cache[j]| == W.NBINS
    ensures r.Some? ==> |r.value.0| == W.NBINS && forall j :: j in r.value.1 ==> |r.value.1[j]| == W.NBINS
    ensures r.Some? ==> cache.Keys <= r.value.1.Keys
    decreases n
  {
    if n == 0 then Some((ZeroArray(W.NBINS), cache))
    else
      match Aggregate(cache, c, useHitModels, n - 1)
      case None => None
      case Some(prev) =>
        var k := c.active[n - 1];
        match Multiplier(c.es[k], c.strat)
        case None => None
        case Some(m) =>
          if Included(c.es[k], c, useHitModels) then
            var (d, cache') := EstimatorDangers(prev.1, c, k);
            Some((Accumulate(prev.0, d, Scale(c.es[k], m)), cache'))
          else Some(prev)
  }

  /** The positions of the first `n` active estimators one aggregation reads. */
  predicate ReadsAll(cache: map<nat, seq<real>>, c: Source, useHitModels: bool, n: nat)
    requires SourceOK(c) && n <= |c.active|
  {
    forall i :: 0 <= i < n && Included(c.es[c.active[i]], c, useHitModels) ==> c.active[i] in cache
  }

  /** The cached aggregation over the first `n` active estimators agrees with
      the uncached one, keeps the cache coherent, only adds to it, and leaves
      every estimator it read cached. */
  predicate AggregateAgrees(cache: map<nat, seq<real>>, c: Source, useHitModels: bool, n: nat)
    requires SourceOK(c) && n <= |c.active|
    requires forall j :: j in cache ==> |cache[j]| == W.NBINS
  {
    && (Aggregate(cache, c, useHitModels, n).Some? <==> FreshAggregate(c, useHitModels, n).Some?)
    && (Aggregate(cache, c, useHitModels, n).Some? ==>
          var r := Aggregate(cache, c, useHitModels, n).value;
          && r.0 == FreshAggregate(c, useHitModels, n).value
          && CacheCoherent(r.1, c.raw)
          && (forall j :: j in cache ==> j in r.1)
          && ReadsAll(r.1, c, useHitModels, n))
  }

  /** The inductive step of AggregateIsFresh: one more active estimator. */
  lemma AggregateStep(cache: map<nat, seq<real>>, c: Source, useHitModels: bool, n: nat)
    requires SourceOK(c) && 0 < n <= |c.active|
    requires forall j :: j in cache ==> |cache[j]| == W.NBINS
    requires AggregateAgrees(cache, c, useHitModels, n - 1)
    ensures AggregateAgrees(cache, c, useHitModels, n)
  {
    FreshAggregateStep(c, useHitModels, n);
    var prev := Aggregate(cache, c, useHitModels, n - 1);
    if prev.Some? {
      var k := c.active[n - 1];
      if Multiplier(c.es[k], c.strat).Some? && Included(c.es[k], c, useHitModels) {
        var (d, cache') := EstimatorDangers(prev.value.1, c, k);
        assert d == Normalize(c.raw[k]);
        assert CacheCoherent(cache', c.raw);
      }
    }
  }

  /** The cache is transparent: from a coherent cache the cached aggregation
      fails exactly when the uncached one does, otherwise returns the same
      array, keeps the cache coherent, only adds to it, and leaves every
      estimator it read cached. */
  lemma {:induction false} AggregateIsFresh(cache: map<nat, seq<real>>, c: Source, useHitModels: bool, n: nat)
    requires SourceOK(c) && n <= |c.active|
    requires forall j :: j in cache ==> |cache[j]| == W.NBINS
    requires CacheCoherent(cache, c.raw)
    ensures AggregateAgrees(cache, c, useHitModels, n)
    decreases n
  {
    if n > 0 {
      AggregateIsFresh(cache, c, useHitModels, n - 1);
      AggregateStep(cache, c, useHitModels, n);
    }
  }

  /** The aggregation reads nothing but the ensemble, the flags and the raw
      dangers of the estimators it includes. */
  lemma {:induction false} FreshAggregateAgree(c1: Source, c2: Source, useHitModels: bool, n: nat)
    requires SourceOK(c1) && SourceOK(c2) && n <= |c1.active|
    requires c1.es == c2.es && c1.active == c2.active && c1.strat == c2.strat
    requires c1.isSimulated == c2.isSimulated
    requires forall i :: 0 <= i < n && Included(c1.es[c1.active[i]], c1, useHitModels) ==>
               c1.raw[c1.active[i]] == c2.raw[c1.active[i]]
    ensures FreshAggregate(c1, useHitModels, n) == FreshAggregate(c2, useHitModels, n)
    decreases n
  {
    if n > 0 {
      FreshAggregateAgree(c1, c2, useHitModels, n - 1);
      var k := c1.active[n - 1];
      assert Included(c1.es[k], c1, useHitModels) == Included(c2.es[k], c2, useHitModels);
      if Included(c1.es[k], c1, useHitModels) {
        assert 0 <= n - 1 < n && Included(c1.es[c1.active[n - 1]], c1, useHitModels);
      }
      FreshAggregateStep(c1, useHitModels, n);
      FreshAggregateStep(c2, useHitModels, n);
    }
  }

  /** One step of the aggregation, unfolded. */
  lemma FreshAggregateStep(c: Source, useHitModels: bool, n: nat)
    requires SourceOK(c) && 0 < n <= |c.active|
    ensures FreshAggregate(c, useHitModels, n - 1).None? ==> FreshAggregate(c, useHitModels, n).None?
    ensures Multiplier(c.es[c.active[n - 1]], c.strat).None? ==> FreshAggregate(c, useHitModels, n).None?
    ensures FreshAggregate(c, useHitModels, n - 1).Some? && Multiplier(c.es[c.active[n - 1]], c.strat).Some?
            && !Included(c.es[c.active[n - 1]], c, useHitModels) ==>
              FreshAggregate(c, useHitModels, n) == FreshAggregate(c, useHitModels, n - 1)
    ensures FreshAggregate(c, useHitModels, n - 1).Some? && Multiplier(c.es[c.active[n - 1]], c.strat).Some?
            && Included(c.es[c.active[n - 1]], c, useHitModels) ==>
              FreshAggregate(c, useHitModels, n) ==
                Some(Accumulate(FreshAggregate(c, useHitModels, n - 1).value, Normalize(c.raw[c.active[n - 1]]),
                                Scale(c.es[c.active[n - 1]], Multiplier(c.es[c.active[n - 1]], c.strat).value)))
  {
  }

  /** The unsmoothed dangers of getDangers: the hit models alone for a
      virtual wave, hit models plus flatteners for a real one. */
  function FreshUnsmoothed(c: Source): (r: Option<seq<real>>)
    requires SourceOK(c)
    ensures r.Some? ==> |r.value| == W.NBINS
  {
    var hit := FreshAggregate(c, true, |c.active|);
    if c.isVirtual || hit.None? then hit
    else
      match FreshAggregate(c, false, |c.active|)
      case None => None
      case Some(flat) => Some(AddArrays(hit.value, flat))
  }

  /** The same through the cache; the hit models are aggregated first. */
  function Unsmoothed(cache: map<nat, seq<real>>, c: Source): (r: Option<(seq<real>, map<nat, seq<real>>)>)
    requires SourceOK(c)
    requires forall j :: j in cache ==> |cache[j]| == W.NBINS
    ensures r.Some? ==> |r.value.0| == W.NBINS && forall j :: j in r.value.1 ==> |r.value.1[j]| == W.NBINS
    ensures r.Some? ==> cache.Keys <= r.value.1.Keys
  {
    match Aggregate(cache, c, true, |c.active|)
    case None => None
    case Some(hit) =>
      if c.isVirtual then Some(hit)
      else
        match Aggregate(hit.1, c, false, |c.active|)
        case None => None
        case Some(flat) => Some((AddArrays(hit.0, flat.0), flat.1))
  }

  /** Every estimator the unsmoothed dangers of the wave read is cached. */
  predicate ReadsAllUsed(cache: map<nat, seq<real>>, c: Source)
    requires SourceOK(c)
  {
    ReadsAll(cache, c, true, |c.active|) && (!c.isVirtual ==> ReadsAll(cache, c, false, |c.active|))
  }

  lemma UnsmoothedIsFresh(cache: map<nat, seq<real>>, c: Source)
    requires SourceOK(c)
    requires forall j :: j in cache ==> |cache[j]| == W.NBINS
    requires CacheCoherent(cache, c.raw)
    ensures Unsmoothed(cache, c).Some? <==> FreshUnsmoothed(c).Some?
    ensures Unsmoothed(cache, c).Some? ==>
              var r := Unsmoothed(cache, c).value;
              && r.0 == FreshUnsmoothed(c).value
              && CacheCoherent(r.1, c.raw)
              && (forall j :: j in cache ==> j in r.1)
              && ReadsAllUsed(r.1, c)
  {
    AggregateIsFresh(cache, c, true, |c.active|);
    var hit := Aggregate(cache, c, true, |c.active|);
    if hit.Some? && !c.isVirtual {
      AggregateIsFresh(hit.value.1, c, false, |c.active|);
    }
  }

  // ---------------------------------------------------------------------------
  // Bin smoothing
  // ---------------------------------------------------------------------------

  /** One updateBinsWithExpKernel call as a value: the kernel around `gf` with
      the danger-smoothing lambda, added within its reach. */
  function AddKernel(bins: seq<real>, gf: real, weight: real, exp: real -> real): (r: seq<real>)
    requires |bins| == W.NBINS
    ensures |r| == W.NBINS
  {
    seq(W.NBINS, i requires 0 <= i < W.NBINS =>
      if KernelLow(W.BINS, gf, DE.KERNEL_LAMBDA) <= i <= KernelHigh(W.BINS, gf, DE.KERNEL_LAMBDA)
      then bins[i] + KernelWeight(W.BINS, i, gf, DE.KERNEL_LAMBDA, weight, exp)
      else bins[i])
  }

  /** The smoothed dangers after the first `n` bins have spread their
      unsmoothed danger over their neighbourhood; bins without danger
      spread nothing. */
  function SmoothPrefix(u: seq<real>, n: nat, exp: real -> real): (r: seq<real>)
    requires |u| == W.NBINS && n <= W.NBINS
    ensures |r| == W.NBINS
  {
    if n == 0 then ZeroArray(W.NBINS)
    else
      var p := SmoothPrefix(u, n - 1, exp);
      if u[n - 1] > 0.0 then AddKernel(p, MidPoint(W.BINS, n - 1), u[n - 1], exp) else p
  }

  function Smoothed(u: seq<real>, exp: real -> real): (r: seq<real>)
    requires |u| == W.NBINS
    ensures |r| == W.NBINS
  {
    SmoothPrefix(u, W.NBINS, exp)
  }

  /** The smoothing loop of getDangers: one exponential kernel at the midpoint
      of every bin with positive unsmoothed danger. */
  method Smooth(u: seq<real>, exp: real -> real) returns (r: seq<real>)
    requires |u| == W.NBINS
    ensures r == Smoothed(u, exp)
  {
    r := ZeroArray(W.NBINS);
    var i := 0;
    while i < W.NBINS
      invariant 0 <= i <= W.NBINS
      invariant r == SmoothPrefix(u, i, exp)
    {
      if u[i] > 0.0 {
        var next := UpdateBinsWithExpKernel(W.BINS, r, MidPoint(W.BINS, i), DE.KERNEL_LAMBDA, u[i], exp);
        assert next == AddKernel(r, MidPoint(W.BINS, i), u[i], exp);
        r := next;
      }
      i := i + 1;
    }
  }

  /** A bin's midpoint lies in the bin, so its own kernel reaches it. */
  lemma KernelReachesOwnBin(i: int)
    requires 0 <= i < W.NBINS
    ensures GetBin(W.BINS, MidPoint(W.BINS, i)) == i
    ensures KernelLow(W.BINS, MidPoint(W.BINS, i), DE.KERNEL_LAMBDA) <= i
              <= KernelHigh(W.BINS, MidPoint(W.BINS, i), DE.KERNEL_LAMBDA)
  {
    BinsTileAxis(W.BINS, i);
    GetBinIff(W.BINS, MidPoint(W.BINS, i), i);
  }

  /** With a positive exponential, smoothing never produces negative danger,
      never lowers a bin as it proceeds, and leaves positive danger in every
      bin that had positive unsmoothed danger. */
  lemma {:induction false} SmoothPrefixSupport(u: seq<real>, n: nat, exp: real -> real)
    requires |u| == W.NBINS && n <= W.NBINS
    requires Positive(exp)
    ensures forall i :: 0 <= i < W.NBINS ==> SmoothPrefix(u, n, exp)[i] >= 0.0
    ensures forall j :: 0 <= j < n && u[j] > 0.0 ==> SmoothPrefix(u, n, exp)[j] > 0.0
    decreases n
  {
    if n > 0 {
      SmoothPrefixSupport(u, n - 1, exp);
      var p := SmoothPrefix(u, n - 1, exp);
      if u[n - 1] > 0.0 {
        var gf := MidPoint(W.BINS, n - 1);
        forall i | 0 <= i < W.NBINS
          ensures AddKernel(p, gf, u[n - 1], exp)[i] >= p[i]
        {
          AddKernelRaises(p, gf, u[n - 1], exp, i);
        }
        AddKernelRaisesOwnBin(p, n - 1, u[n - 1], exp);
      }
    }
  }

  /** A positive kernel never lowers a bin. */
  lemma AddKernelRaises(p: seq<real>, gf: real, weight: real, exp: real -> real, i: int)
    requires |p| == W.NBINS && 0 <= i < W.NBINS && weight > 0.0 && Positive(exp)
    ensures AddKernel(p, gf, weight, exp)[i] >= p[i]
  {
    var x := Abs(MidPoint(W.BINS, i) - gf) * -DE.KERNEL_LAMBDA;
    assert exp(x) > 0.0;
    MulNonNegative(weight, exp(x));
  }

  /** A positive kernel at a bin's midpoint strictly raises that bin. */
  lemma AddKernelRaisesOwnBin(p: seq<real>, i: int, weight: real, exp: real -> real)
    requires |p| == W.NBINS && 0 <= i < W.NBINS && weight > 0.0 && Positive(exp)
    ensures AddKernel(p, MidPoint(W.BINS, i), weight, exp)[i] > p[i]
  {
    var gf := MidPoint(W.BINS, i);
    var x := Abs(MidPoint(W.BINS, i) - gf) * -DE.KERNEL_LAMBDA;
    assert exp(x) > 0.0;
    KernelReachesOwnBin(i);
    assert KernelWeight(W.BINS, i, gf, DE.KERNEL_LAMBDA, weight, exp) == weight * exp(x);
    PositiveProduct(weight, exp(x));
  }

  /** Every bin with positive unsmoothed danger keeps positive danger after
      smoothing, and no bin goes negative. */
  lemma SmoothedSupport(u: seq<real>, exp: real -> real)
    requires |u| == W.NBINS && Positive(exp)
    ensures forall i :: 0 <= i < W.NBINS ==> Smoothed(u, exp)[i] >= 0.0
    ensures forall i :: 0 <= i < W.NBINS && u[i] > 0.0 ==> Smoothed(u, exp)[i] > 0.0
  {
    SmoothPrefixSupport(u, W.NBINS, exp);
  }

  // ---------------------------------------------------------------------------
  // Bullet shadows
  // ---------------------------------------------------------------------------

  /** Each bin's danger discounted by 98% of its shadow, before normalising. */
  function ShadowDiscount(combined: seq<real>, shadows: seq<real>): (r: seq<real>)
    requires |combined| == W.NBINS && |shadows| == W.NBINS
    ensures |r| == W.NBINS
  {
    seq(W.NBINS, i requires 0 <= i < W.NBINS => (1.0 - shadows[i] * DE.SHADOW_DISCOUNT) * combined[i])
  }

  function Shadowed(combined: seq<real>, shadows: seq<real>): (r: seq<real>)
    requires |combined| == W.NBINS && |shadows| == W.NBINS
    ensures |r| == W.NBINS
  {
    Normalize(ShadowDiscount(combined, shadows))
  }

  /** A shadow removes at most 98% of a bin's danger: with shadows in [0, 1]
      and non-negative danger, each bin keeps between 2% and all of its
      danger, and an unshadowed bin keeps all of it. */
  lemma ShadowDiscountBounds(combined: seq<real>, shadows: seq<real>, i: int)
    requires |combined| == W.NBINS && |shadows| == W.NBINS && W.InUnit(shadows)
    requires 0 <= i < W.NBINS && combined[i] >= 0.0
    ensures 0.02 * combined[i] <= ShadowDiscount(combined, shadows)[i] <= combined[i]
    ensures shadows[i] == 0.0 ==> ShadowDiscount(combined, shadows)[i] == combined[i]
  {
    var f := 1.0 - shadows[i] * DE.SHADOW_DISCOUNT;
    assert 0.02 <= f <= 1.0;
    MulNonNegative(f - 0.02, combined[i]);
    MulNonNegative(1.0 - f, combined[i]);
  }

  // ---------------------------------------------------------------------------
  // The tracker: getDangers and the invalidation events
  // ---------------------------------------------------------------------------

  function FreshCombined(c: Source, exp: real -> real): (r: Option<seq<real>>)
    requires SourceOK(c)
    ensures r.Some? ==> |r.value| == W.NBINS
  {
    match FreshUnsmoothed(c)
    case None => None
    case Some(u) => Some(Smoothed(u, exp))
  }

  /** What getDangers returns when computed from scratch. */
  function FreshDangers(c: Source, exp: real -> real): (r: Option<seq<real>>)
    requires SourceOK(c)
    ensures r.Some? ==> |r.value| == W.NBINS
  {
    match FreshCombined(c, exp)
    case None => None
    case Some(combined) => Some(Shadowed(combined, c.shadows))
  }

  /** A tracker agrees with its wave's current sources: every cached
      estimator array is that model's normalised dangers, a cached
      combination is what a fresh computation gives and every estimator it
      read is still cached, and a cached shadowed array is the combination
      with the current shadows applied. */
  predicate Coherent(t: Tracker, c: Source, exp: real -> real)
    requires SourceOK(c)
  {
    && WellSized(t)
    && t.isVirtual == c.isVirtual
    && CacheCoherent(t.estimatorDangers, c.raw)
    && (t.shadowed.Some? ==> t.combined.Some? && t.shadowed.value == Shadowed(t.combined.value, c.shadows))
    && (t.combined.Some? ==> FreshCombined(c, exp) == t.combined && ReadsAllUsed(t.estimatorDangers, c))
  }

  /** DangerTracker.getDangers: the cached shadowed dangers, else the cached
      or freshly smoothed combination with the wave's shadows applied and
      normalised. None when the aggregation throws. */
  method GetDangers(t: Tracker, c: Source, exp: real -> real) returns (r: Option<(seq<real>, Tracker)>)
    requires SourceOK(c) && WellSized(t)
    ensures r.Some? ==> var (d, t') := r.value;
              && WellSized(t') && t'.shadowed == Some(d) && t'.combined.Some?
              && t'.rangeDangers == t.rangeDangers && t'.isVirtual == t.isVirtual
              && t.estimatorDangers.Keys <= t'.estimatorDangers.Keys
    ensures t.shadowed.Some? ==> r == Some((t.shadowed.value, t))
    ensures t.combined.Some? ==> r.Some? && r.value.1.combined == t.combined
    ensures Coherent(t, c, exp) ==> (r.Some? <==> FreshDangers(c, exp).Some?)
    ensures Coherent(t, c, exp) && r.Some? ==>
              r.value.0 == FreshDangers(c, exp).value && Coherent(r.value.1, c, exp)
  {
    if t.shadowed.Some? {
      return Some((t.shadowed.value, t));
    }
    var t1 := t;
    if t.combined.None? {
      if CacheCoherent(t.estimatorDangers, c.raw) {
        UnsmoothedIsFresh(t.estimatorDangers, c);
      }
      var u := Unsmoothed(t.estimatorDangers, c);
      if u.None? {
        return None;
      }
      var combined := Smooth(u.value.0, exp);
      t1 := t.(estimatorDangers := u.value.1, combined := Some(combined));
    }
    var d := Shadowed(t1.combined.value, c.shadows);
    r := Some((d, t1.(shadowed := Some(d))));
  }

  /** DangerTracker.onUpdatedShadow: only the shadowed array is dropped. */
  function OnUpdatedShadow(t: Tracker): (r: Tracker)
    ensures r.shadowed.None?
    ensures r.(shadowed := t.shadowed) == t
  {
    t.(shadowed := None)
  }

  /** After the wave's shadows change, dropping the shadowed array is enough:
      the cached combination does not depend on the shadows. */
  lemma ShadowUpdateKeepsCoherence(t: Tracker, c: Source, shadows: seq<real>, exp: real -> real)
    requires SourceOK(c) && |shadows| == W.NBINS
    requires Coherent(t, c, exp)
    ensures Coherent(OnUpdatedShadow(t), c.(shadows := shadows), exp)
  {
    var c2 := c.(shadows := shadows);
    FreshAggregateAgree(c, c2, true, |c.active|);
    FreshAggregateAgree(c, c2, false, |c.active|);
  }

  /** DangerTracker.onActiveEstimatorsChanged: the combination and the
      shadowed array are dropped, the estimator arrays kept. */
  function OnActiveEstimatorsChanged(t: Tracker): (r: Tracker)
    ensures r.combined.None? && r.shadowed.None?
    ensures r.(combined := t.combined, shadowed := t.shadowed) == t
  {
    t.(combined := None, shadowed := None)
  }

  /** DangerTracker.onUpdatedEstimator: when the retrained estimator's array
      is cached, it and everything computed from it are dropped; otherwise
      nothing changes. */
  function OnUpdatedEstimator(t: Tracker, k: nat): (r: Tracker)
    ensures k !in r.estimatorDangers
    ensures k in t.estimatorDangers ==>
              r == t.(estimatorDangers := t.estimatorDangers - {k}, combined := None, shadowed := None)
    ensures k !in t.estimatorDangers ==> r == t
  {
    if k in t.estimatorDangers
    then t.(estimatorDangers := t.estimatorDangers - {k}, combined := None, shadowed := None)
    else t
  }

  /** Retraining an estimator the cache never read changes neither the fresh
      combination nor which estimators the cache holds for it. */
  lemma UnusedRetrainAgrees(cache: map<nat, seq<real>>, c: Source, k: nat, dangers: seq<real>, exp: real -> real)
    requires SourceOK(c) && k < |c.raw| && |dangers| == W.NBINS && k !in cache
    requires ReadsAllUsed(cache, c)
    ensures SourceOK(c.(raw := c.raw[k := dangers]))
    ensures FreshCombined(c.(raw := c.raw[k := dangers]), exp) == FreshCombined(c, exp)
    ensures ReadsAllUsed(cache, c.(raw := c.raw[k := dangers]))
  {
    var c2 := c.(raw := c.raw[k := dangers]);
    forall i | 0 <= i < |c.active| && Included(c.es[c.active[i]], c, true)
      ensures c.raw[c.active[i]] == c2.raw[c.active[i]]
    {
      assert c.active[i] in cache;
    }
    FreshAggregateAgree(c, c2, true, |c.active|);
    if !c.isVirtual {
      forall i | 0 <= i < |c.active| && Included(c.es[c.active[i]], c, false)
        ensures c.raw[c.active[i]] == c2.raw[c.active[i]]
      {
        assert c.active[i] in cache;
      }
      FreshAggregateAgree(c, c2, false, |c.active|);
    }
  }

  /** Invalidating one estimator is enough after it is retrained: a tracker
      that never cached it never used it, so its combination is still what a
      fresh computation with the new model gives. */
  lemma EstimatorUpdateKeepsCoherence(t: Tracker, c: Source, k: nat, dangers: seq<real>, exp: real -> real)
    requires SourceOK(c) && k < |c.raw| && |dangers| == W.NBINS
    requires Coherent(t, c, exp)
    ensures Coherent(OnUpdatedEstimator(t, k), c.(raw := c.raw[k := dangers]), exp)
  {
    if k in t.estimatorDangers {
      DroppedEstimatorCoherent(t, c, k, dangers, exp);
    } else {
      UnusedEstimatorCoherent(t, c, k, dangers, exp);
    }
  }

  /** A tracker that dropped the retrained estimator and its combination is
      coherent with the new model. */
  lemma DroppedEstimatorCoherent(t: Tracker, c: Source, k: nat, dangers: seq<real>, exp: real -> real)
    requires SourceOK(c) && k < |c.raw| && |dangers| == W.NBINS
    requires Coherent(t, c, exp) && k in t.estimatorDangers
    ensures SourceOK(c.(raw := c.raw[k := dangers]))
    ensures Coherent(OnUpdatedEstimator(t, k), c.(raw := c.raw[k := dangers]), exp)
  {
    var r := OnUpdatedEstimator(t, k);
    assert r.combined.None? && r.shadowed.None?;
    assert forall j :: j in r.estimatorDangers ==> j in t.estimatorDangers && j != k;
  }

  /** A tracker that never cached the retrained estimator is still coherent. */
  lemma UnusedEstimatorCoherent(t: Tracker, c: Source, k: nat, dangers: seq<real>, exp: real -> real)
    requires SourceOK(c) && k < |c.raw| && |dangers| == W.NBINS
    requires Coherent(t, c, exp) && k !in t.estimatorDangers
    ensures SourceOK(c.(raw := c.raw[k := dangers]))
    ensures Coherent(OnUpdatedEstimator(t, k), c.(raw := c.raw[k := dangers]), exp)
  {
    if t.combined.Some? {
      UnusedRetrainAgrees(t.estimatorDangers, c, k, dangers, exp);
    }
  }

  // ---------------------------------------------------------------------------
  // getDanger: the danger of a GF range
  // ---------------------------------------------------------------------------

  /** The GF range the wave has already been seen to pass over, once any
      visit has been recorded. */
  function AlreadyHitRange(w: W.Wave): (r: Option<Range>)
    requires W.WellFormed(w)
    ensures r.Some? <==> !IsEmpty(w.visitOffsetRange)
    ensures r.Some? ==> r.value == W.HitGFRange(w)
  {
    if !IsEmpty(w.visitOffsetRange) then Some(W.HitGFRange(w)) else None
  }

  /** Whether the already-passed range strictly overlaps a bin. */
  predicate OverlapsBin(alreadyHit: Option<Range>, bin: int) {
    alreadyHit.Some? && alreadyHit.value.start < UpperGF(W.BINS, bin) && alreadyHit.value.end > LowerGF(W.BINS, bin)
  }

  /** How much of a bin a range danger counts: the range's overlap with the
      bin, less the share of the bin the wave has already passed. */
  function CountedWeight(range: Range, alreadyHit: Option<Range>, bin: int): (r: real)
    requires 0 <= bin < W.NBINS
    ensures 0.0 <= r <= BinWeight(W.BINS, range, bin)
    ensures !OverlapsBin(alreadyHit, bin) ==> r == BinWeight(W.BINS, range, bin)
  {
    var bw := BinWeight(W.BINS, range, bin);
    if OverlapsBin(alreadyHit, bin) then
      var h := BinWeight(W.BINS, alreadyHit.value, bin);
      ScaleDown(bw, 1.0 - h);
      bw * (1.0 - h)
    else bw
  }

  function RangeTerm(dangers: seq<real>, range: Range, alreadyHit: Option<Range>, bin: int): real
    requires |dangers| == W.NBINS && 0 <= bin < W.NBINS
  {
    Times(dangers[bin], CountedWeight(range, alreadyHit, bin))
  }

  /** The getDanger loop over bins lo..hi. */
  function RangeSum(dangers: seq<real>, range: Range, alreadyHit: Option<Range>, lo: int, hi: int): real
    requires |dangers| == W.NBINS && 0 <= lo && hi < W.NBINS
    decreases hi - lo
  {
    if hi < lo then 0.0 else RangeSum(dangers, range, alreadyHit, lo, hi - 1) + RangeTerm(dangers, range, alreadyHit, hi)
  }

  /** A GF at or above -1 lies in a bin at or above 0, one below 1 in a bin
      that exists. */
  lemma GetBinBounds(gf: real)
    ensures gf >= -1.0 ==> GetBin(W.BINS, gf) >= 0
    ensures gf < 1.0 ==> GetBin(W.BINS, gf) < W.NBINS
  {
    DivBounds(gf + 1.0, BinWidth(W.BINS), 0);
    DivBounds(gf + 1.0, BinWidth(W.BINS), W.NBINS - 1);
  }

  /** The value getDanger computes and caches: the danger of the bins the
      range covers, weighted by coverage, discounted where the wave already
      passed, and never below zero. */
  function RangeDanger(dangers: seq<real>, range: Range, alreadyHit: Option<Range>): (r: real)
    requires |dangers| == W.NBINS && -1.0 <= range.start && range.end < 1.0
    ensures r >= 0.0
  {
    GetBinBounds(range.start);
    GetBinBounds(range.end);
    Max(RangeSum(dangers, range, alreadyHit, GetBin(W.BINS, range.start), GetBin(W.BINS, range.end)), 0.0)
  }

  /** One bin's term is non-negative and no larger than it would be had the
      wave passed nothing yet. */
  lemma RangeTermLowered(dangers: seq<real>, range: Range, alreadyHit: Option<Range>, bin: int)
    requires |dangers| == W.NBINS && 0 <= bin < W.NBINS && dangers[bin] >= 0.0
    ensures 0.0 <= RangeTerm(dangers, range, alreadyHit, bin) <= RangeTerm(dangers, range, None, bin)
  {
    var cw := CountedWeight(range, alreadyHit, bin);
    var bw := CountedWeight(range, None, bin);
    CountedWeightLowered(range, alreadyHit, bin);
    WeightedLowered(dangers[bin], cw, bw, RangeTerm(dangers, range, alreadyHit, bin), RangeTerm(dangers, range, None, bin));
  }

  /** The weight a bin counts only drops for the part the wave already passed. */
  lemma CountedWeightLowered(range: Range, alreadyHit: Option<Range>, bin: int)
    requires 0 <= bin < W.NBINS
    ensures 0.0 <= CountedWeight(range, alreadyHit, bin) <= CountedWeight(range, None, bin)
  {
    assert !OverlapsBin(None, bin);
  }

  /** A non-negative danger weighted by the smaller of two weights gives the
      smaller term. */
  lemma WeightedLowered(d: real, cw: real, bw: real, lowered: real, full: real)
    requires d >= 0.0 && 0.0 <= cw <= bw && lowered == Times(d, cw) && full == Times(d, bw)
    ensures 0.0 <= lowered <= full
  {
    MulNonNegative(d, cw);
    MulMonotone(d, cw, bw);
  }

  /** The part of the wave already passed only lowers a range's danger. */
  lemma {:induction false} AlreadyHitOnlyLowers(dangers: seq<real>, range: Range, alreadyHit: Option<Range>,
                                                lo: int, hi: int)
    requires |dangers| == W.NBINS && 0 <= lo && hi < W.NBINS
    requires forall i :: 0 <= i < W.NBINS ==> dangers[i] >= 0.0
    ensures 0.0 <= RangeSum(dangers, range, alreadyHit, lo, hi) <= RangeSum(dangers, range, None, lo, hi)
    decreases hi - lo
  {
    if hi >= lo {
      AlreadyHitOnlyLowers(dangers, range, alreadyHit, lo, hi - 1);
      RangeTermLowered(dangers, range, alreadyHit, hi);
    }
  }

  /** x·a + x·w = x·(a + w), for the terms of a uniform range sum. */
  lemma ScaledStep(x: real, d: real, w: real, a: real, s: real, p: real, q: real)
    requires d == x && p == Times(x, a) && s == a + w && q == p + Times(d, w)
    ensures q == Times(x, s)
  {
  }

  /** With the same danger `x` in every bin and nothing passed yet, the range
      sum is `x` times the range's coverage of the bins. */
  lemma {:induction false} UniformRangeSum(dangers: seq<real>, x: real, range: Range, lo: int, hi: int)
    requires |dangers| == W.NBINS && 0 <= lo && hi < W.NBINS
    requires forall i :: 0 <= i < W.NBINS ==> dangers[i] == x
    ensures RangeSum(dangers, range, None, lo, hi) == Times(x, BinWeightSum(W.BINS, range, lo, hi))
    decreases hi - lo
  {
    if hi >= lo {
      UniformRangeSum(dangers, x, range, lo, hi - 1);
      ScaledStep(x, dangers[hi], CountedWeight(range, None, hi), BinWeightSum(W.BINS, range, lo, hi - 1),
                 BinWeightSum(W.BINS, range, lo, hi), RangeSum(dangers, range, None, lo, hi - 1),
                 RangeSum(dangers, range, None, lo, hi));
    }
  }

  /** Uniform danger `x` over a range inside [-1, 1) that the wave has not yet
      passed counts `x` per bin width of the range. */
  lemma UniformRangeDanger(dangers: seq<real>, x: real, range: Range)
    requires |dangers| == W.NBINS && x >= 0.0
    requires -1.0 <= range.start <= range.end < 1.0
    requires forall i :: 0 <= i < W.NBINS ==> dangers[i] == x
    ensures RangeDanger(dangers, range, None) == Times(x, Width(range) / BinWidth(W.BINS))
  {
    GetBinBounds(range.start);
    GetBinBounds(range.end);
    UniformRangeSum(dangers, x, range, GetBin(W.BINS, range.start), GetBin(W.BINS, range.end));
    BinWeightsConserveWidth(W.BINS, range);
    QuotientBounds(Width(range), BinWidth(W.BINS));
    MulNonNegative(x, Width(range) / BinWidth(W.BINS));
  }

  /** DangerEstimator.getDanger on one tracker: the cached danger of this
      Range object if there is one, else the range danger of the tracker's
      dangers, cached under the range. None when computing the dangers
      throws. */
  method GetDanger(t: Tracker, c: Source, exp: real -> real, w: W.Wave, rangeId: nat, range: Range)
    returns (r: Option<(real, Tracker)>)
    requires SourceOK(c) && WellSized(t) && W.WellFormed(w)
    requires -1.0 <= range.start && range.end < 1.0
    ensures rangeId in t.rangeDangers ==> r == Some((t.rangeDangers[rangeId], t))
    ensures r.Some? ==> var (danger, t') := r.value;
              && danger >= 0.0 && WellSized(t') && t'.isVirtual == t.isVirtual
              && rangeId in t'.rangeDangers && t'.rangeDangers[rangeId] == danger
              && (forall id :: id in t.rangeDangers ==> id in t'.rangeDangers && t'.rangeDangers[id] == t.rangeDangers[id])
    ensures Coherent(t, c, exp) && rangeId !in t.rangeDangers ==>
              && (r.Some? <==> FreshDangers(c, exp).Some?)
              && (r.Some? ==> r.value.0 == RangeDanger(FreshDangers(c, exp).value, range, AlreadyHitRange(w))
                              && Coherent(r.value.1, c, exp))
  {
    if rangeId in t.rangeDangers {
      return Some((t.rangeDangers[rangeId], t));
    }
    var alreadyHit := AlreadyHitRange(w);
    var got := GetDangers(t, c, exp);
    if got.None? {
      return None;
    }
    var (dangers, t1) := got.value;
    var danger := RangeDanger(dangers, range, alreadyHit);
    r := Some((danger, t1.(rangeDangers := t1.rangeDangers[rangeId := danger])));
  }
}
