/** The ensemble bookkeeping of kc.mega.move.DangerEstimator: the table of
    danger models with their hit-rate bands and multipliers, the rolling score
    that weights each model by how much danger it had placed where enemy
    bullets really went, and the choice of the models that are active. An
    estimator is addressed by its position in the table, as the Java code's
    object references are. */
module DangerEstimators {
  import opened MathUtils
  import opened GFBins
  import opened Ranges
  import opened Seqs
  import MA = MovingAverages
  import W = WaveModel
  import HitRates

  const KERNEL_LAMBDA: real := 13.0
  const SHADOW_DISCOUNT: real := 0.98
  const WEIGHT_ROLLING: real := 0.98
  const FORCE_ACTIVE_WEIGHT: real := 1.33
  const WEIGHT_POWER: nat := 3
  /** The value dangerEstimate starts from, so that no hit scores zero. */
  const MIN_DANGER_ESTIMATE: real := 0.0001
  /** The bounds updateWeightingStats clips the bot's GF range to. */
  const SCORE_GF_LIMIT: real := 0.999

  /** The two Strategy flags the danger estimator reads. */
  datatype Strategy = Strategy(antiRam: bool, antiHOT: bool)

  /** DangerEstimator.Estimator: a danger model (named by its model's name)
      with its activation band, its multiplier and its weighting statistics. */
  datatype Estimator = Estimator(name: string, isHitModel: bool, minHitRate: real, maxHitRate: real,
                                 multiplier: real, stats: Stats, weight: real)

  /** The weighting statistics of an estimator: the rolling average of the
      danger it had placed at hits, and the number of hits seen. */
  datatype Stats = Stats(avgBulletDanger: MA.MovingAverage, hits: nat)

  /** The only models used against a rambot, with their multipliers. */
  const ANTI_RAM_MULTIPLIERS: map<string, real> :=
    map["Circular" := 1.0, "Linear" := 1.0, "Sedan" := 1.0, "NanoLinearFixedSpeed" := 0.5]

  /** What the weighting statistics keep: the first hit is never scored, every
      later one adds one positive sample to a 0.98-rolling average. */
  predicate StatsOK(s: Stats) {
    && s.avgBulletDanger.rate == WEIGHT_ROLLING
    && s.avgBulletDanger.n == MaxInt(0, s.hits - 1)
    && s.avgBulletDanger.value >= 0.0
    && (s.avgBulletDanger.n >= 1 ==> s.avgBulletDanger.value > 0.0)
  }

  predicate AllStatsOK(es: seq<Estimator>) {
    forall k :: 0 <= k < |es| ==> StatsOK(es[k].stats)
  }

  // ---------------------------------------------------------------------------
  // Construction
  // ---------------------------------------------------------------------------

  /** The five-argument Estimator constructor; the shorter ones default the
      band's top to 1 and isHitModel to true. */
  function NewEstimator(name: string, minHitRate: real, maxHitRate: real, multiplier: real,
                        isHitModel: bool): (e: Estimator)
    ensures StatsOK(e.stats) && e.stats.hits == 0 && e.weight == 0.0
    ensures UnnormalizedWeight(e.stats) == 1.0
    ensures e.name == name && e.isHitModel == isHitModel && e.multiplier == multiplier
    ensures e.minHitRate == minHitRate && e.maxHitRate == maxHitRate
  {
    Estimator(name, isHitModel, minHitRate, maxHitRate, multiplier, Stats(MA.Fresh(WEIGHT_ROLLING), 0), 0.0)
  }

  /** The estimator table built by the DangerEstimator constructor: seventeen
      hit models (simulated targeting, then KNN models trained against known
      bots) followed by five flattener models trained on visits. */
  function InitialEstimators(): (es: seq<Estimator>)
    ensures |es| == 22
    ensures forall k :: 0 <= k < |es| ==> StatsOK(es[k].stats) && es[k].stats.hits == 0
    ensures forall k :: 0 <= k < |es| ==>
              0.0 <= es[k].minHitRate <= es[k].maxHitRate <= 1.0 && es[k].multiplier > 0.0
    ensures forall k :: 0 <= k < |es| ==> (es[k].isHitModel <==> k < 17)
  {
    HitModels() + FlattenerModels()
  }

  /** What every entry of the initial table satisfies. */
  predicate FreshEntry(e: Estimator) {
    StatsOK(e.stats) && e.stats.hits == 0 &&
    0.0 <= e.minHitRate <= e.maxHitRate <= 1.0 && e.multiplier > 0.0
  }

  function HitModels(): (es: seq<Estimator>)
    ensures |es| == 17
    ensures forall k :: 0 <= k < |es| ==> FreshEntry(es[k]) && es[k].isHitModel
  {
    [ NewEstimator("HOT", 0.0, 1.0, 0.5, true),
      NewEstimator("Linear", 0.0, 0.07, 0.15, true),
      NewEstimator("LinearWithWalls", 0.0, 0.07, 0.3, true),
      NewEstimator("Circular", 0.0, 0.07, 0.25, true),
      NewEstimator("AvgLinear", 1.0, 1.0, 0.3, true),
      NewEstimator("NanoLinearFixedSpeed", 0.0, 0.07, 0.2, true),
      NewEstimator("CurrentGF", 1.0, 1.0, 0.3, true),
      NewEstimator("Simple", 0.0, 1.0, 0.75, true),
      NewEstimator("Simple2", 0.06, 1.0, 0.75, true),
      NewEstimator("Thorn", 0.06, 1.0, 2.0, true),
      NewEstimator("Druss", 0.08, 1.0, 2.0, true),
      NewEstimator("Diamond", 0.07, 1.0, 1.5, true),
      NewEstimator("Komarious", 0.05, 1.0, 1.0, true),
      NewEstimator("Splinter", 0.0, 1.0, 0.5, true),
      NewEstimator("WaveShark", 0.03, 1.0, 3.5, true),
      NewEstimator("MicroAspid", 0.03, 1.0, 1.5, true),
      NewEstimator("Sedan", 0.08, 1.0, 1.5, true) ]
  }

  function FlattenerModels(): (es: seq<Estimator>)
    ensures |es| == 5
    ensures forall k :: 0 <= k < |es| ==> FreshEntry(es[k]) && !es[k].isHitModel
  {
    [ NewEstimator("Flattener1", 0.09, 1.0, 2.0, false),
      NewEstimator("Flattener2", 0.09, 1.0, 2.0, false),
      NewEstimator("Flattener3", 0.02, 1.0, 2.5, false),
      NewEstimator("Flattener4", 0.02, 1.0, 3.0, false),
      NewEstimator("APMFlattener", 0.06, 1.0, 0.5, false) ]
  }

  /** Exactly four table entries carry an anti-ram name: Linear, Circular,
      NanoLinearFixedSpeed and Sedan. */
  lemma AntiRamEntries(k: nat)
    requires k < 22
    ensures InitialEstimators()[k].name in ANTI_RAM_MULTIPLIERS <==> k in {1, 3, 5, 16}
  {
    if k < 17 {
      assert InitialEstimators()[k] == HitModels()[k];
      HitModelsAntiRam(k);
    } else {
      assert InitialEstimators()[k] == FlattenerModels()[k - 17];
      FlattenersNotAntiRam(k - 17);
    }
  }

  lemma HitModelsAntiRam(k: nat)
    requires k < 17
    ensures HitModels()[k].name in ANTI_RAM_MULTIPLIERS <==> k in {1, 3, 5, 16}
  {
    if k < 8 {
      HitModelsAntiRamLow(k);
    } else {
      HitModelsAntiRamHigh(k);
    }
  }

  lemma HitModelsAntiRamLow(k: nat)
    requires k < 8
    ensures HitModels()[k].name in ANTI_RAM_MULTIPLIERS <==> k in {1, 3, 5}
  {
    var es := HitModels();
    assert es[k].name == HitModels()[k].name;
  }

  lemma HitModelsAntiRamHigh(k: nat)
    requires 8 <= k < 17
    ensures HitModels()[k].name in ANTI_RAM_MULTIPLIERS <==> k == 16
  {
    var es := HitModels();
    assert es[k].name == HitModels()[k].name;
  }

  lemma FlattenersNotAntiRam(k: nat)
    requires k < 5
    ensures FlattenerModels()[k].name !in ANTI_RAM_MULTIPLIERS
  {
    var es := FlattenerModels();
    assert es[k].name == FlattenerModels()[k].name;
  }

  // ---------------------------------------------------------------------------
  // Weighting statistics
  // ---------------------------------------------------------------------------

  /** Estimator.getUnnormalizedWeight: 1 until two hits have been seen, then
      the cube of the bias-corrected average danger the model had placed at
      the hits. */
  function UnnormalizedWeight(s: Stats): (u: real)
    requires StatsOK(s)
    ensures u > 0.0
    ensures s.hits <= 1 ==> u == 1.0
  {
    if s.hits <= 1 then 1.0
    else
      var g := MA.Get(s.avgBulletDanger);
      MA.GetPositive(s.avgBulletDanger);
      PowPositive(g, WEIGHT_POWER);
      Pow(g, WEIGHT_POWER)
  }

  /** A model that placed the same danger `x` at every scored hit weighs x^3:
      the bias correction leaves no pull toward the average's zero start. */
  lemma SteadyScoreWeight(s: Stats, x: real)
    requires StatsOK(s) && s.hits >= 2
    requires MA.ConstantHistory(s.avgBulletDanger, x)
    ensures UnnormalizedWeight(s) == x * x * x
  {
    MA.ConstantInputReadsBack(s.avgBulletDanger, x);
    assert Pow(x, 1) == x;
    assert Pow(x, 2) == x * x;
    assert Pow(x, 3) == x * x * x;
  }

  /** The half-width of the bot in GF terms at a hit, from Geom.maxHalfBotAngle
      (the oracle value `halfBotAngle`) and the escape angle on the side the
      bullet hit. */
  function HitHalfWidth(w: W.Wave, halfBotAngle: real): real
    requires W.WellFormed(w)
  {
    halfBotAngle / (if w.hitOffset * (w.orbitDirection as real) > 0.0 then w.maePos else w.maeNeg)
  }

  /** The window of bins scored at a hit: the bins of the bot's GF range
      widened to the kernel reach around the hit bin, clipped to the axis. */
  function ScoreRange(hitGF: real, halfWidth: real): Range {
    Range(Max(-SCORE_GF_LIMIT, hitGF - halfWidth), Min(SCORE_GF_LIMIT, hitGF + halfWidth))
  }

  function ScoreLow(hitGF: real, halfWidth: real): int {
    MaxInt(0, MinInt(GetBin(W.BINS, ScoreRange(hitGF, halfWidth).start),
                     GetBin(W.BINS, hitGF) - ExpKernelWidth(W.BINS, KERNEL_LAMBDA)))
  }

  function ScoreHigh(hitGF: real, halfWidth: real): int {
    MinInt(W.NBINS - 1, MaxInt(GetBin(W.BINS, ScoreRange(hitGF, halfWidth).end),
                               GetBin(W.BINS, hitGF) + ExpKernelWidth(W.BINS, KERNEL_LAMBDA)))
  }

  /** One bin's contribution: its overlap with the bot plus twice an
      exponential falloff from the hit bin, times the bin's danger; bins
      without danger add nothing. */
  function ScoreTerm(dangers: seq<real>, range: Range, hitBin: int, bin: int, exp: real -> real): real
    requires |dangers| == W.NBINS && 0 <= bin < W.NBINS
  {
    if dangers[bin] > 0.0 then
      BinWeight(W.BINS, range, bin) * dangers[bin]
      + 2.0 * exp(((if bin >= hitBin then bin - hitBin else hitBin - bin) as real)
                  * BinWidth(W.BINS) * -KERNEL_LAMBDA) * dangers[bin]
    else 0.0
  }

  function ScoreSum(dangers: seq<real>, range: Range, hitBin: int, lo: int, hi: int, exp: real -> real): real
    requires |dangers| == W.NBINS && 0 <= lo && hi < W.NBINS
    decreases hi - lo
  {
    if hi < lo then 0.0
    else ScoreSum(dangers, range, hitBin, lo, hi - 1, exp) + ScoreTerm(dangers, range, hitBin, hi, exp)
  }

  /** The dangerEstimate of updateWeightingStats: how much danger the model
      had placed around the GF the bullet hit at. */
  function DangerEstimate(dangers: seq<real>, hitGF: real, halfWidth: real, exp: real -> real): (r: real)
    requires |dangers| == W.NBINS
    ensures Positive(exp) ==> r >= MIN_DANGER_ESTIMATE
  {
    var lo := ScoreLow(hitGF, halfWidth);
    var hi := ScoreHigh(hitGF, halfWidth);
    var range := ScoreRange(hitGF, halfWidth);
    var hitBin := GetBin(W.BINS, hitGF);
    ScoreSumNonNegative(dangers, range, hitBin, lo, hi, exp);
    MIN_DANGER_ESTIMATE + ScoreSum(dangers, range, hitBin, lo, hi, exp)
  }

  lemma {:induction false} ScoreSumNonNegative(dangers: seq<real>, range: Range, hitBin: int, lo: int, hi: int,
                                               exp: real -> real)
    requires |dangers| == W.NBINS && 0 <= lo && hi < W.NBINS
    ensures Positive(exp) ==> ScoreSum(dangers, range, hitBin, lo, hi, exp) >= 0.0
    decreases hi - lo
  {
    if hi >= lo && Positive(exp) {
      ScoreSumNonNegative(dangers, range, hitBin, lo, hi - 1, exp);
      ScoreTermNonNegative(dangers, range, hitBin, hi, exp);
    }
  }

  lemma ScoreTermNonNegative(d: seq<real>, range: Range, hitBin: int, bin: int, exp: real -> real)
    requires |d| == W.NBINS && 0 <= bin < W.NBINS
    requires Positive(exp)
    ensures ScoreTerm(d, range, hitBin, bin, exp) >= 0.0
  {
    var bw := BinWeight(W.BINS, range, bin);
    var x := ((if bin >= hitBin then bin - hitBin else hitBin - bin) as real) * BinWidth(W.BINS) * -KERNEL_LAMBDA;
    assert exp(x) > 0.0;
    if d[bin] > 0.0 {
      MulNonNegative(bw + 2.0 * exp(x), d[bin]);
    }
  }

  /** A bin's contribution grows with its danger. */
  lemma ScoreTermMonotone(d1: seq<real>, d2: seq<real>, range: Range, hitBin: int, bin: int, exp: real -> real)
    requires |d1| == W.NBINS && |d2| == W.NBINS && 0 <= bin < W.NBINS
    requires Positive(exp)
    requires d1[bin] <= d2[bin]
    ensures ScoreTerm(d1, range, hitBin, bin, exp) <= ScoreTerm(d2, range, hitBin, bin, exp)
  {
    var bw := BinWeight(W.BINS, range, bin);
    var x := ((if bin >= hitBin then bin - hitBin else hitBin - bin) as real) * BinWidth(W.BINS) * -KERNEL_LAMBDA;
    var c := bw + 2.0 * exp(x);
    assert exp(x) > 0.0;
    assert c >= 0.0;
    if d2[bin] > 0.0 {
      assert ScoreTerm(d2, range, hitBin, bin, exp) == c * d2[bin];
      MulNonNegative(c, d2[bin]);
      if d1[bin] > 0.0 {
        assert ScoreTerm(d1, range, hitBin, bin, exp) == c * d1[bin];
        MulNonNegative(c, d2[bin] - d1[bin]);
      }
    }
  }

  lemma {:induction false} ScoreSumMonotone(d1: seq<real>, d2: seq<real>, range: Range, hitBin: int,
                                            lo: int, hi: int, exp: real -> real)
    requires |d1| == W.NBINS && |d2| == W.NBINS && 0 <= lo && hi < W.NBINS
    requires Positive(exp)
    requires forall i :: 0 <= i < W.NBINS ==> d1[i] <= d2[i]
    ensures ScoreSum(d1, range, hitBin, lo, hi, exp) <= ScoreSum(d2, range, hitBin, lo, hi, exp)
    decreases hi - lo
  {
    if hi >= lo {
      ScoreSumMonotone(d1, d2, range, hitBin, lo, hi - 1, exp);
      ScoreTermMonotone(d1, d2, range, hitBin, hi, exp);
    }
  }

  /** A model that had placed at least as much danger in every bin scores at
      least as high at the hit. */
  lemma DangerEstimateMonotone(d1: seq<real>, d2: seq<real>, hitGF: real, halfWidth: real, exp: real -> real)
    requires |d1| == W.NBINS && |d2| == W.NBINS
    requires Positive(exp)
    requires forall i :: 0 <= i < W.NBINS ==> d1[i] <= d2[i]
    ensures DangerEstimate(d1, hitGF, halfWidth, exp) <= DangerEstimate(d2, hitGF, halfWidth, exp)
  {
    ScoreSumMonotone(d1, d2, ScoreRange(hitGF, halfWidth), GetBin(W.BINS, hitGF),
                     ScoreLow(hitGF, halfWidth), ScoreHigh(hitGF, halfWidth), exp);
  }

  /** The statistics update of one hit with the model's danger estimate `x`:
      the first hit only counts, every later one feeds `x` to the average. */
  function ScoreHit(s: Stats, x: real): (r: Stats)
    requires StatsOK(s) && x > 0.0
    ensures StatsOK(r) && r.hits == s.hits + 1
    ensures s.hits == 0 ==> r.avgBulletDanger == s.avgBulletDanger && UnnormalizedWeight(r) == 1.0
    ensures s.hits > 0 ==> r.avgBulletDanger == MA.Update(s.avgBulletDanger, x)
  {
    if s.hits > 0 then
      var avg := MA.Update(s.avgBulletDanger, x);
      assert avg.value == (1.0 - WEIGHT_ROLLING) * x + WEIGHT_ROLLING * s.avgBulletDanger.value;
      Stats(avg, s.hits + 1)
    else Stats(s.avgBulletDanger, 1)
  }

  /** Estimator.updateWeightingStats for a wave that hit us: `dangers` are the
      model's normalised dangers for the wave and `halfBotAngle` the value of
      Geom.maxHalfBotAngle at the wave's distance. */
  function UpdateWeightingStats(e: Estimator, w: W.Wave, dangers: seq<real>, halfBotAngle: real,
                                exp: real -> real): (r: Estimator)
    requires StatsOK(e.stats) && W.WellFormed(w) && |dangers| == W.NBINS && Positive(exp)
    ensures StatsOK(r.stats) && r.stats.hits == e.stats.hits + 1
    ensures e.stats.hits > 0 ==> r.stats.avgBulletDanger == MA.Update(e.stats.avgBulletDanger,
              DangerEstimate(dangers, W.HitGF(w), HitHalfWidth(w, halfBotAngle), exp))
    ensures e.stats.hits == 0 ==> r.stats.avgBulletDanger == e.stats.avgBulletDanger
    ensures r.(stats := e.stats) == e
  {
    e.(stats := ScoreHit(e.stats, DangerEstimate(dangers, W.HitGF(w), HitHalfWidth(w, halfBotAngle), exp)))
  }

  /** Of two equal estimators, the one that scores the hit higher ends up
      with at least as much weight. */
  lemma BetterEstimateMoreWeight(s: Stats, x1: real, x2: real)
    requires StatsOK(s) && 0.0 < x1 <= x2
    ensures UnnormalizedWeight(ScoreHit(s, x1)) <= UnnormalizedWeight(ScoreHit(s, x2))
  {
    if s.hits > 0 {
      var a1 := ScoreHit(s, x1).avgBulletDanger;
      var a2 := ScoreHit(s, x2).avgBulletDanger;
      assert a1.value <= a2.value by {
        assert a2.value - a1.value == (1.0 - WEIGHT_ROLLING) * (x2 - x1);
      }
      MA.GetMonotone(a1, a2);
      MA.GetPositive(a1);
      PowMonotone(MA.Get(a1), MA.Get(a2), WEIGHT_POWER);
    }
  }

  // ---------------------------------------------------------------------------
  // Weights
  // ---------------------------------------------------------------------------

  /** Every listed position names an estimator. */
  predicate Members(es: seq<Estimator>, members: seq<nat>) {
    forall i :: 0 <= i < |members| ==> members[i] < |es|
  }

  function Unnormalized(es: seq<Estimator>, members: seq<nat>): (u: seq<real>)
    requires Members(es, members) && AllStatsOK(es)
    ensures |u| == |members|
    ensures forall i :: 0 <= i < |u| ==> u[i] > 0.0
  {
    seq(|members|, i requires 0 <= i < |members| => UnnormalizedWeight(es[members[i]].stats))
  }

  function MemberWeights(es: seq<Estimator>, members: seq<nat>): (r: seq<real>)
    requires Members(es, members)
    ensures |r| == |members|
  {
    seq(|members|, i requires 0 <= i < |members| => es[members[i]].weight)
  }

  /** The first loop of setEstimatorWeights: the listed estimators'
      unnormalised weights, summed. */
  function WeightTotal(es: seq<Estimator>, members: seq<nat>): (t: real)
    requires Members(es, members) && AllStatsOK(es)
    ensures |members| > 0 ==> t > 0.0
  {
    if |members| == 0 then 0.0
    else
      SumPositive(Unnormalized(es, members));
      Sum(Unnormalized(es, members))
  }

  /** DangerEstimator.setEstimatorWeights: each listed estimator's weight
      becomes its share of the listed total; nothing else changes. */
  function SetEstimatorWeights(es: seq<Estimator>, members: seq<nat>): (r: seq<Estimator>)
    requires Members(es, members) && AllStatsOK(es)
    ensures |r| == |es| && AllStatsOK(r)
    ensures forall k :: 0 <= k < |es| ==> r[k].(weight := es[k].weight) == es[k]
    ensures forall k :: 0 <= k < |es| && k !in members ==> r[k] == es[k]
    ensures forall k :: 0 <= k < |es| && k in members ==>
              r[k].weight == UnnormalizedWeight(es[k].stats) / WeightTotal(es, members)
  {
    if |members| == 0 then es
    else
      var total := WeightTotal(es, members);
      seq(|es|, k requires 0 <= k < |es| =>
        if k in members then es[k].(weight := UnnormalizedWeight(es[k].stats) / total) else es[k])
  }

  /** The listed estimators' new weights sum to one. */
  lemma WeightsSumToOne(es: seq<Estimator>, members: seq<nat>)
    requires Members(es, members) && AllStatsOK(es)
    ensures |members| > 0 ==> Sum(MemberWeights(SetEstimatorWeights(es, members), members)) == 1.0
  {
    if |members| == 0 { return; }
    var u := Unnormalized(es, members);
    var total := WeightTotal(es, members);
    var r := SetEstimatorWeights(es, members);
    assert MemberWeights(r, members) == Divide(u, total) by {
      forall i | 0 <= i < |members|
        ensures MemberWeights(r, members)[i] == Divide(u, total)[i]
      {
        var k := members[i];
        assert k in members;
        assert r[k].weight == UnnormalizedWeight(es[k].stats) / total;
        assert u[i] == UnnormalizedWeight(es[k].stats);
      }
    }
    SumDivide(u, total);
    assert total == Sum(u) && total > 0.0;
    DivideSelf(total);
  }

  /** The positions 0 .. n-1, the whole table. */
  function AllIndices(n: nat): (r: seq<nat>)
    ensures |r| == n && forall i :: 0 <= i < n ==> r[i] == i
  {
    seq(n, i => i)
  }

  // ---------------------------------------------------------------------------
  // Activation
  // ---------------------------------------------------------------------------

  /** Estimator.isActive: against a rambot only the anti-ram models; otherwise
      a model whose hit-rate band overlaps the confidence interval of our
      measured hit rate, or one whose weight over the whole table exceeds
      1.33 over the table size. */
  predicate IsActive(es: seq<Estimator>, k: nat, strat: Strategy, t: HitRates.HitRateTracker, sqrt: real -> real)
    requires k < |es| && HitRates.NonNegative(sqrt)
  {
    if strat.antiRam then es[k].name in ANTI_RAM_MULTIPLIERS
    else HitRates.HitRateInBounds(t, es[k].minHitRate, es[k].maxHitRate, sqrt)
         || es[k].weight > FORCE_ACTIVE_WEIGHT / (|es| as real)
  }

  /** Outside anti-ram mode a model whose band holds our measured hit rate is
      always active. */
  lemma InBandModelIsActive(es: seq<Estimator>, k: nat, strat: Strategy, t: HitRates.HitRateTracker,
                            sqrt: real -> real)
    requires k < |es| && HitRates.NonNegative(sqrt) && !strat.antiRam
    requires t.hits <= t.shotsPassed
    requires es[k].minHitRate <= HitRates.HitRate(t) <= es[k].maxHitRate
    ensures IsActive(es, k, strat, t, sqrt)
  {
    HitRates.HitRateInOwnBand(t, es[k].minHitRate, es[k].maxHitRate, sqrt);
  }

  function ActiveFlags(es: seq<Estimator>, strat: Strategy, t: HitRates.HitRateTracker, sqrt: real -> real)
    : (f: seq<bool>)
    requires HitRates.NonNegative(sqrt)
    ensures |f| == |es|
    ensures forall k :: 0 <= k < |es| ==> (f[k] <==> IsActive(es, k, strat, t, sqrt))
  {
    seq(|es|, k requires 0 <= k < |es| => IsActive(es, k, strat, t, sqrt))
  }

  /** The setActiveEstimators loop from position `k` on: a newly active
      estimator is appended, a newly inactive one removed, and the flag
      records whether anything moved. */
  function Reconcile(flags: seq<bool>, cur: seq<nat>, k: nat): (r: (seq<nat>, bool))
    requires k <= |flags|
    decreases |flags| - k
  {
    if k == |flags| then (cur, false)
    else
      var rest := Reconcile(flags, ReconcileNext(flags, cur, k), k + 1);
      (rest.0, rest.1 || (flags[k] != (k in cur)))
  }

  /** The old active list's entries still present after the loop has passed
      position `k`: those not yet visited, and the visited ones still active. */
  function Kept(a: seq<nat>, flags: seq<bool>, k: nat): (r: seq<nat>)
    ensures forall x :: x in r <==> x in a && (x >= k || (x < |flags| && flags[x]))
  {
    if |a| == 0 then []
    else
      assert forall x :: x in a <==> x == a[0] || x in a[1..];
      (if a[0] >= k || (a[0] < |flags| && flags[a[0]]) then [a[0]] else []) + Kept(a[1..], flags, k)
  }

  /** The positions below `k` that became active, in table order. */
  function Newcomers(a: seq<nat>, flags: seq<bool>, k: nat): (r: seq<nat>)
    requires k <= |flags|
    ensures forall x: nat :: x in r <==> x < k && flags[x] && x !in a
    ensures forall i, j :: 0 <= i < j < |r| ==> r[i] < r[j]
  {
    if k == 0 then []
    else
      var prev := Newcomers(a, flags, k - 1);
      ElementsBelow(prev, k - 1);
      prev + (if flags[k - 1] && k - 1 !in a then [k - 1] else [])
  }

  lemma ElementsBelow(s: seq<nat>, b: nat)
    requires forall x: nat :: x in s ==> x < b
    ensures forall i :: 0 <= i < |s| ==> s[i] < b
  {
    forall i | 0 <= i < |s| ensures s[i] < b {
      assert s[i] in s;
    }
  }

  lemma {:induction false} KeptNoDup(a: seq<nat>, flags: seq<bool>, k: nat)
    requires NoDup(a)
    ensures NoDup(Kept(a, flags, k))
  {
    if |a| > 0 {
      assert NoDup(a[1..]);
      KeptNoDup(a[1..], flags, k);
      assert a[0] !in a[1..];
    }
  }

  /** Visiting a position that was not active before, or stays active, keeps
      the old list's entries. */
  lemma {:induction false} KeptStep(a: seq<nat>, flags: seq<bool>, k: nat)
    requires k < |flags|
    requires k !in a || flags[k]
    ensures Kept(a, flags, k + 1) == Kept(a, flags, k)
  {
    if |a| > 0 {
      KeptStep(a[1..], flags, k);
    }
  }

  /** Visiting an active position that turned inactive drops exactly it. */
  lemma {:induction false} KeptRemove(a: seq<nat>, flags: seq<bool>, k: nat)
    requires NoDup(a) && k < |flags| && k in a && !flags[k]
    ensures RemoveFirst(Kept(a, flags, k), k) == Kept(a, flags, k + 1)
  {
    assert NoDup(a[1..]);
    var tail := Kept(a[1..], flags, k);
    if a[0] == k {
      assert k !in a[1..];
      KeptStep(a[1..], flags, k);
      assert Kept(a, flags, k) == [k] + tail;
      assert Kept(a, flags, k + 1) == [] + tail;
    } else {
      assert k in a[1..];
      KeptRemove(a[1..], flags, k);
      var head := if a[0] >= k || (a[0] < |flags| && flags[a[0]]) then [a[0]] else [];
      assert Kept(a, flags, k) == head + tail;
      assert Kept(a, flags, k + 1) == head + Kept(a[1..], flags, k + 1);
      if head == [] {
        assert head + tail == tail;
      } else {
        assert (head + tail)[1..] == tail;
      }
    }
  }

  /** The list after visiting position `k`, given the list before it. */
  function ReconcileNext(flags: seq<bool>, cur: seq<nat>, k: nat): seq<nat>
    requires k < |flags|
  {
    if flags[k] && k !in cur then cur + [k]
    else if !flags[k] && k in cur then RemoveFirst(cur, k)
    else cur
  }

  /** One visit keeps the list equal to the reference shape. */
  lemma ReconcileStep(flags: seq<bool>, a: seq<nat>, k: nat)
    requires NoDup(a) && k < |flags|
    ensures var cur := Kept(a, flags, k) + Newcomers(a, flags, k);
            && ReconcileNext(flags, cur, k) == Kept(a, flags, k + 1) + Newcomers(a, flags, k + 1)
            && (k in cur <==> k in a)
  {
    var kept := Kept(a, flags, k);
    var nc := Newcomers(a, flags, k);
    var cur := kept + nc;
    assert k in cur <==> k in a;
    if flags[k] && k !in cur {
      KeptStep(a, flags, k);
    } else if !flags[k] && k in cur {
      RemoveFirstAppend(kept, nc, k);
      KeptRemove(a, flags, k);
    } else {
      KeptStep(a, flags, k);
    }
  }

  lemma {:induction false} ReconcileMatches(flags: seq<bool>, a: seq<nat>, k: nat)
    requires NoDup(a) && k <= |flags|
    ensures ReconcileAgrees(flags, a, k)
    decreases |flags| - k, 1
  {
    if k < |flags| {
      ReconcileMatchesFrom(flags, a, k);
    } else {
      ReconcileAgreesAtEnd(flags, a);
    }
  }

  lemma {:induction false} ReconcileMatchesFrom(flags: seq<bool>, a: seq<nat>, k: nat)
    requires NoDup(a) && k < |flags|
    ensures ReconcileAgrees(flags, a, k)
    decreases |flags| - k, 0
  {
    ReconcileMatches(flags, a, k + 1);
    ReconcileAgreesStep(flags, a, k);
  }

  lemma ReconcileAgreesAtEnd(flags: seq<bool>, a: seq<nat>)
    ensures ReconcileAgrees(flags, a, |flags|)
  {
  }

  /** Reconciling from position `k` on, starting from the reference list at
      `k`, ends at the reference list and flags exactly a later change. */
  predicate ReconcileAgrees(flags: seq<bool>, a: seq<nat>, k: nat)
    requires k <= |flags|
  {
    var cur := Kept(a, flags, k) + Newcomers(a, flags, k);
    && Reconcile(flags, cur, k).0 == Kept(a, flags, |flags|) + Newcomers(a, flags, |flags|)
    && (Reconcile(flags, cur, k).1 <==> Differs(flags, a, k))
  }

  lemma ReconcileAgreesStep(flags: seq<bool>, a: seq<nat>, k: nat)
    requires NoDup(a) && k < |flags|
    requires ReconcileAgrees(flags, a, k + 1)
    ensures ReconcileAgrees(flags, a, k)
  {
    ReconcileStep(flags, a, k);
  }

  /** Some position from `k` on changes its activity. */
  predicate Differs(flags: seq<bool>, a: seq<nat>, k: nat)
    decreases |flags| - k
  {
    k < |flags| && (flags[k] != (k in a) || Differs(flags, a, k + 1))
  }

  lemma {:induction false} DiffersIff(flags: seq<bool>, a: seq<nat>, k: nat)
    ensures Differs(flags, a, k) <==> exists j :: k <= j < |flags| && flags[j] != (j in a)
    decreases |flags| - k
  {
    if k < |flags| {
      DiffersIff(flags, a, k + 1);
      if flags[k] != (k in a) {
        assert k <= k < |flags| && flags[k] != (k in a);
      } else if Differs(flags, a, k + 1) {
        var j :| k + 1 <= j < |flags| && flags[j] != (j in a);
        assert k <= j < |flags| && flags[j] != (j in a);
      }
    }
  }

  /** The active-list part of setActiveEstimators: the still-active entries
      keep their order and the newly active ones follow in table order; the
      flag says whether any estimator was added or removed. */
  function ReconcileActive(flags: seq<bool>, active: seq<nat>): (r: (seq<nat>, bool))
    requires NoDup(active) && forall i :: 0 <= i < |active| ==> active[i] < |flags|
    ensures r.0 == Kept(active, flags, |flags|) + Newcomers(active, flags, |flags|)
    ensures NoDup(r.0) && forall i :: 0 <= i < |r.0| ==> r.0[i] < |flags|
    ensures forall k :: 0 <= k < |flags| ==> (k in r.0 <==> flags[k])
    ensures r.1 <==> exists k :: 0 <= k < |flags| && flags[k] != (k in active)
  {
    KeptIsAllBeforeStart(active, flags);
    assert active == Kept(active, flags, 0) + Newcomers(active, flags, 0);
    ReconcileMatches(flags, active, 0);
    DiffersIff(flags, active, 0);
    var kept := Kept(active, flags, |flags|);
    var nc := Newcomers(active, flags, |flags|);
    KeptNoDup(active, flags, |flags|);
    NoDupAppend(kept, nc);
    assert forall x :: x in kept + nc <==> x in kept || x in nc;
    forall i | 0 <= i < |kept + nc| ensures (kept + nc)[i] < |flags| {
      var x := (kept + nc)[i];
      assert x in kept + nc;
      if x in kept {
        assert x in active;
      }
    }
    Reconcile(flags, active, 0)
  }

  /** The result of setActiveEstimators. */
  datatype Activation = Activation(estimators: seq<Estimator>, active: seq<nat>, changed: bool)

  /** DangerEstimator.setActiveEstimators: weights over the whole table decide
      activity, the active list is reconciled with it, and finally the active
      members' weights are renormalised among themselves. */
  function SetActiveEstimators(es: seq<Estimator>, active: seq<nat>, strat: Strategy,
                               t: HitRates.HitRateTracker, sqrt: real -> real): (r: Activation)
    requires AllStatsOK(es) && Members(es, active) && NoDup(active)
    requires HitRates.NonNegative(sqrt)
    ensures |r.estimators| == |es| && Members(es, r.active) && NoDup(r.active)
    ensures var flags := ActiveFlags(SetEstimatorWeights(es, AllIndices(|es|)), strat, t, sqrt);
            && r.active == Kept(active, flags, |es|) + Newcomers(active, flags, |es|)
            && (forall k :: 0 <= k < |es| ==> (k in r.active <==> flags[k]))
            && (r.changed <==> exists k :: 0 <= k < |es| && flags[k] != (k in active))
    ensures r.estimators == SetEstimatorWeights(SetEstimatorWeights(es, AllIndices(|es|)), r.active)
    ensures |r.active| > 0 ==> Sum(MemberWeights(r.estimators, r.active)) == 1.0
    ensures strat.antiRam ==> forall i :: 0 <= i < |r.active| ==> r.estimators[r.active[i]].name in ANTI_RAM_MULTIPLIERS
  {
    var all := SetEstimatorWeights(es, AllIndices(|es|));
    var flags := ActiveFlags(all, strat, t, sqrt);
    assert |flags| == |es| && |all| == |es| && AllStatsOK(all);
    assert Members(all, active);
    var rec := ReconcileActive(flags, active);
    assert Members(all, rec.0);
    WeightsSumToOne(all, rec.0);
    var final := SetEstimatorWeights(all, rec.0);
    ActiveAreAntiRamNamed(all, final, rec.0, strat, t, sqrt);
    Activation(final, rec.0, rec.1)
  }

  /** In anti-ram mode only the estimators with an anti-ram multiplier are
      active, whatever their weights become. */
  lemma ActiveAreAntiRamNamed(all: seq<Estimator>, final: seq<Estimator>, active: seq<nat>, strat: Strategy,
                              t: HitRates.HitRateTracker, sqrt: real -> real)
    requires HitRates.NonNegative(sqrt) && Members(all, active)
    requires forall k :: 0 <= k < |all| ==> (k in active <==> ActiveFlags(all, strat, t, sqrt)[k])
    requires |final| == |all| && forall k :: 0 <= k < |all| ==> final[k].(weight := all[k].weight) == all[k]
    ensures strat.antiRam ==> forall i :: 0 <= i < |active| ==> final[active[i]].name in ANTI_RAM_MULTIPLIERS
  {
    forall i | 0 <= i < |active| && strat.antiRam
      ensures final[active[i]].name in ANTI_RAM_MULTIPLIERS
    {
      var k := active[i];
      assert k in active;
      assert IsActive(all, k, strat, t, sqrt);
      assert final[k].name == final[k].(weight := all[k].weight).name;
    }
  }

  lemma {:induction false} KeptIsAllBeforeStart(a: seq<nat>, flags: seq<bool>)
    ensures Kept(a, flags, 0) == a
  {
    if |a| > 0 {
      KeptIsAllBeforeStart(a[1..], flags);
      assert a == [a[0]] + a[1..];
    }
  }

  lemma NoDupAppend(a: seq<nat>, b: seq<nat>)
    requires NoDup(a) && NoDup(b)
    requires forall x :: x in a ==> x !in b
    ensures NoDup(a + b)
  {
    forall i, j | 0 <= i < j < |a + b| ensures (a + b)[i] != (a + b)[j] {
      if j >= |a| && i < |a| {
        assert (a + b)[i] in a;
        assert (a + b)[j] in b;
      }
    }
  }

  /** When every listed entry is active, the loop keeps the list whole. */
  lemma {:induction false} KeptAll(a: seq<nat>, flags: seq<bool>, k: nat)
    requires forall i :: 0 <= i < |a| ==> a[i] < |flags| && flags[a[i]]
    ensures Kept(a, flags, k) == a
  {
    if |a| > 0 {
      assert forall i :: 0 <= i < |a[1..]| ==> a[1..][i] == a[i + 1];
      KeptAll(a[1..], flags, k);
      assert a == [a[0]] + a[1..];
    }
  }

  /** When every active position below `k` is already listed, nothing is
      appended. */
  lemma NoNewcomers(a: seq<nat>, flags: seq<bool>, k: nat)
    requires k <= |flags|
    requires forall x :: 0 <= x < k && flags[x] ==> x in a
    ensures Newcomers(a, flags, k) == []
  {
    MemberlessIsEmpty(Newcomers(a, flags, k));
  }

  /** When setActiveEstimators reports no change, the active list is the one
      it was given. */
  lemma UnchangedKeepsActive(es: seq<Estimator>, active: seq<nat>, strat: Strategy,
                             t: HitRates.HitRateTracker, sqrt: real -> real)
    requires AllStatsOK(es) && Members(es, active) && NoDup(active)
    requires HitRates.NonNegative(sqrt)
    ensures !SetActiveEstimators(es, active, strat, t, sqrt).changed ==>
              SetActiveEstimators(es, active, strat, t, sqrt).active == active
  {
    var act := SetActiveEstimators(es, active, strat, t, sqrt);
    var flags := ActiveFlags(SetEstimatorWeights(es, AllIndices(|es|)), strat, t, sqrt);
    if !act.changed {
      assert forall k :: 0 <= k < |es| ==> flags[k] == (k in active);
      forall i | 0 <= i < |active| ensures active[i] < |flags| && flags[active[i]] {
        assert active[i] in active;
      }
      KeptAll(active, flags, |es|);
      NoNewcomers(active, flags, |es|);
      assert act.active == active + [];
    }
  }

  /** Normalising over the whole table reads only the statistics: tables
      that differ only in their weights give the same result. */
  lemma WholeTableWeightsIgnoreOldWeights(es1: seq<Estimator>, es2: seq<Estimator>)
    requires AllStatsOK(es1) && |es1| == |es2|
    requires forall k :: 0 <= k < |es1| ==> es2[k].(weight := es1[k].weight) == es1[k]
    ensures AllStatsOK(es2)
    ensures SetEstimatorWeights(es1, AllIndices(|es1|)) == SetEstimatorWeights(es2, AllIndices(|es2|))
  {
    assert forall k :: 0 <= k < |es1| ==> es2[k].stats == es1[k].stats;
    var all := AllIndices(|es1|);
    if |es1| > 0 {
      assert Unnormalized(es1, all) == Unnormalized(es2, all);
      var r1 := SetEstimatorWeights(es1, all);
      var r2 := SetEstimatorWeights(es2, all);
      forall k | 0 <= k < |es1| ensures r1[k] == r2[k] {
        assert k == all[k] && k in all;
      }
    }
  }

  /** Running setActiveEstimators again before any new hit: with the same
      strategy and hit rate nothing changes, and whenever the active set
      stays put the weights stay put too. */
  lemma ReactivationIsStable(es: seq<Estimator>, active: seq<nat>, strat: Strategy, t: HitRates.HitRateTracker,
                             strat2: Strategy, t2: HitRates.HitRateTracker, sqrt: real -> real)
    requires AllStatsOK(es) && Members(es, active) && NoDup(active)
    requires HitRates.NonNegative(sqrt)
    ensures var act := SetActiveEstimators(es, active, strat, t, sqrt);
            && AllStatsOK(act.estimators) && Members(act.estimators, act.active)
            && var act2 := SetActiveEstimators(act.estimators, act.active, strat2, t2, sqrt);
               && (strat2 == strat && t2 == t ==> !act2.changed)
               && (!act2.changed ==> act2 == act.(changed := false))
  {
    var act := SetActiveEstimators(es, active, strat, t, sqrt);
    var all := SetEstimatorWeights(es, AllIndices(|es|));
    assert Members(all, act.active);
    var es2 := act.estimators;
    WholeTableWeightsIgnoreOldWeights(es, es2);
    var act2 := SetActiveEstimators(es2, act.active, strat2, t2, sqrt);
    UnchangedKeepsActive(es2, act.active, strat2, t2, sqrt);
    if strat2 == strat && t2 == t {
      var flags := ActiveFlags(all, strat, t, sqrt);
      assert forall k :: 0 <= k < |es| ==> (k in act.active <==> flags[k]);
      assert !act2.changed;
    }
  }
}
