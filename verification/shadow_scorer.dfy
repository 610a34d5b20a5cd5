/** kc.mega.move.ShadowScorer: how much a bullet fired at a given GF would
    lower the danger of the current movement plan, through the shadows it
    casts on the enemy's waves. WaveDangers holds, for one node of the plan,
    the reachable and planned bins of its wave; getMinDanger combines the
    danger of the planned bins with the least danger of any window of bins
    the bot could still reach. */
module ShadowScorers {
  import opened Wrappers
  import opened MathUtils
  import opened Ranges
  import opened GFBins
  import opened WaveModel
  import MW = MovementWaves
  import WM = WaveManagers
  import T = DangerTrackers

  /** The reachable part of a wave: the ensemble's danger per bin before
      shadows, the reachable bins start .. end, and the width in bins the bot
      occupies. */
  datatype Reach = Reach(unshadowed: seq<real>, start: int, end: int, widthBins: int)

  /** ShadowScorer.WaveDangers; `baseDanger` is getMinDanger of the wave's
      own shadows. */
  datatype WaveDangers = WaveDangers(
    wave: Wave,
    depth: int,
    reach: Reach,
    visitStart: int,
    visitEnd: int,
    baseDanger: real)

  /** Where the plan node visits its wave: an approximate location (the third
      wave), the offsets its simulation recorded, or nothing recorded. */
  datatype Visit = Approximate(startGF: real, endGF: real) | Planned(offsets: Range) | Unrecorded

  /** Every reachable bin exists and the window width is not negative. */
  predicate ReachOK(r: Reach) {
    && |r.unshadowed| == NBINS
    && 0 <= r.start < NBINS && 0 <= r.end < NBINS
    && r.widthBins >= 0
  }

  /** What getMinDanger needs: a reachable span of bins, and a node below the root. */
  predicate Shaped(wd: WaveDangers) {
    WellFormed(wd.wave) && ReachOK(wd.reach) && wd.depth >= 1
  }

  /** The danger of bin `i` under shadows `s`. */
  function BinDanger(r: Reach, s: seq<real>, i: int): real
    requires ReachOK(r) && |s| == NBINS && 0 <= i < NBINS
  {
    r.unshadowed[i] * (1.0 - s[i])
  }

  /** The summed danger of bins lo .. hi-1 (zero when the span is empty). */
  function BinsDanger(r: Reach, s: seq<real>, lo: int, hi: int): real
    requires ReachOK(r) && |s| == NBINS && 0 <= lo && hi <= NBINS
    decreases hi - lo
  {
    if hi <= lo then 0.0 else BinsDanger(r, s, lo, hi - 1) + BinDanger(r, s, hi - 1)
  }

  /** Taking the first bin off the front of a span. */
  lemma {:induction false} BinsDangerDropFirst(r: Reach, s: seq<real>, lo: int, hi: int)
    requires ReachOK(r) && |s| == NBINS && 0 <= lo < hi <= NBINS
    ensures BinsDanger(r, s, lo, hi) == BinDanger(r, s, lo) + BinsDanger(r, s, lo + 1, hi)
    decreases hi - lo
  {
    if lo + 1 < hi {
      BinsDangerDropFirst(r, s, lo, hi - 1);
    }
  }

  /** The planned-visit sum of the sweep gains bin `i` exactly when `i` lies
      in the visit. */
  lemma VisitStep(r: Reach, s: seq<real>, lo: int, i: int, visitEnd: int)
    requires ReachOK(r) && |s| == NBINS && 0 <= lo && 0 <= i < NBINS
    ensures BinsDanger(r, s, lo, MinInt(i + 1, visitEnd + 1)) ==
      BinsDanger(r, s, lo, MinInt(i, visitEnd + 1)) + if lo <= i <= visitEnd then BinDanger(r, s, i) else 0.0
  {
  }

  /** One step of getMinDanger's running window sum: adding bin `i`, and
      dropping the bin that falls out once a whole window fits. */
  lemma RunningStep(r: Reach, s: seq<real>, i: int, c: real)
    requires ReachOK(r) && |s| == NBINS && r.start <= i <= r.end
    requires c == BinsDanger(r, s, MaxInt(r.start, i - r.widthBins), i)
    ensures i >= FirstWindowEnd(r) ==> c + BinDanger(r, s, i) == WindowDanger(r, s, i)
    ensures (if i >= FirstWindowEnd(r) then c + BinDanger(r, s, i) - BinDanger(r, s, i - r.widthBins)
             else c + BinDanger(r, s, i))
            == BinsDanger(r, s, MaxInt(r.start, i + 1 - r.widthBins), i + 1)
  {
    if i >= FirstWindowEnd(r) {
      BinsDangerDropFirst(r, s, i - r.widthBins, i + 1);
    }
  }

  /** The first bin at which a whole window fits in the reachable span. */
  function FirstWindowEnd(r: Reach): int {
    r.start + r.widthBins
  }

  /** The danger of the widthBins + 1 bins that end at bin `i`. */
  function WindowDanger(r: Reach, s: seq<real>, i: int): real
    requires ReachOK(r) && |s| == NBINS && FirstWindowEnd(r) <= i <= r.end
  {
    BinsDanger(r, s, i - r.widthBins, i + 1)
  }

  /** The window of least danger among those ending at FirstWindowEnd .. hi;
      on a tie the earliest, as the Java loop only replaces its minimum on a
      strictly smaller value. */
  function LeastWindow(r: Reach, s: seq<real>, hi: int): (k: int)
    requires ReachOK(r) && |s| == NBINS && FirstWindowEnd(r) <= hi <= r.end
    ensures FirstWindowEnd(r) <= k <= hi
    ensures forall i :: FirstWindowEnd(r) <= i <= hi ==> WindowDanger(r, s, k) <= WindowDanger(r, s, i)
    ensures forall i :: FirstWindowEnd(r) <= i < k ==> WindowDanger(r, s, k) < WindowDanger(r, s, i)
    decreases hi
  {
    if hi == FirstWindowEnd(r) then hi
    else
      var k := LeastWindow(r, s, hi - 1);
      if WindowDanger(r, s, hi) < WindowDanger(r, s, k) then hi else k
  }

  /** One step of the running minimum: offering window `i` to the least of
      the windows before it yields the least window up to `i`. */
  lemma MinStep(r: Reach, s: seq<real>, i: int, m: Option<real>)
    requires ReachOK(r) && |s| == NBINS && FirstWindowEnd(r) <= i <= r.end
    requires i == FirstWindowEnd(r) ==> m.None?
    requires i > FirstWindowEnd(r) ==> m == Some(WindowDanger(r, s, LeastWindow(r, s, i - 1)))
    ensures (if m.None? || WindowDanger(r, s, i) < m.value then Some(WindowDanger(r, s, i)) else m)
         == Some(WindowDanger(r, s, LeastWindow(r, s, i)))
  {
  }

  /** minDanger of getMinDanger: 0 when no window fits in the reachable span,
      otherwise the least danger of a window that does. */
  function MinReachableDanger(r: Reach, s: seq<real>): (m: real)
    requires ReachOK(r) && |s| == NBINS
    ensures r.end < FirstWindowEnd(r) ==> m == 0.0
    ensures r.end >= FirstWindowEnd(r) ==>
      (forall i :: FirstWindowEnd(r) <= i <= r.end ==> m <= WindowDanger(r, s, i)) &&
      exists i :: FirstWindowEnd(r) <= i <= r.end && m == WindowDanger(r, s, i)
  {
    if r.end < FirstWindowEnd(r) then 0.0
    else WindowDanger(r, s, LeastWindow(r, s, r.end))
  }

  /** visitDanger of getMinDanger: the danger of the reachable bins that the
      plan itself visits. */
  function VisitDanger(wd: WaveDangers, s: seq<real>): real
    requires Shaped(wd) && |s| == NBINS
  {
    BinsDanger(wd.reach, s, MaxInt(wd.reach.start, wd.visitStart), MinInt(wd.reach.end, wd.visitEnd) + 1)
  }

  /** `depth == 3 ? 0 : 1 / depth` with Java's integer division, widened to a
      double afterwards: only the first wave weighs the plan's own visit. */
  function VisitWeight(depth: int): (vw: real)
    requires depth >= 1
    ensures vw == if depth == 1 then 1.0 else 0.0
  {
    if depth == 3 then 0.0 else (1 / depth) as real
  }

  /** The return expression of getMinDanger. */
  function Blend(power: real, visitWeight: real, visitDanger: real, minDanger: real): real {
    power * (visitWeight * visitDanger + (1.0 - visitWeight) * minDanger)
  }

  /** getMinDanger(double[]) as a definition: the wave's power times a blend
      of the danger of the plan's own bins and of the best reachable window. */
  function MinDanger(wd: WaveDangers, s: seq<real>): real
    requires Shaped(wd) && |s| == NBINS
  {
    Blend(wd.wave.power, VisitWeight(wd.depth), VisitDanger(wd, s), MinReachableDanger(wd.reach, s))
  }

  /** The blend picks one of the two dangers outright: the plan's own bins on
      the first wave, the best reachable window on the second and third. */
  lemma MinDangerPicksOne(wd: WaveDangers, s: seq<real>)
    requires Shaped(wd) && |s| == NBINS
    ensures wd.depth == 1 ==> MinDanger(wd, s) == wd.wave.power * VisitDanger(wd, s)
    ensures wd.depth != 1 ==> MinDanger(wd, s) == wd.wave.power * MinReachableDanger(wd.reach, s)
  {
  }

  /** What getMinDanger's sweep knows before bin `i`: the running sum holds
      the last widthBins bins, the visit sum the plan's bins so far, and the
      minimum the least window ending before `i` (or its initial value). */
  predicate Swept(wd: WaveDangers, s: seq<real>, i: int, current: real, visit: real, least: Option<real>)
    requires Shaped(wd) && |s| == NBINS
  {
    && wd.reach.start <= i <= MaxInt(wd.reach.start, wd.reach.end + 1)
    && RunningSum(wd.reach, s, i, current)
    && VisitSum(wd, s, i, visit)
    && LeastSoFar(wd.reach, s, i, least)
  }

  predicate RunningSum(r: Reach, s: seq<real>, i: int, current: real)
    requires ReachOK(r) && |s| == NBINS && 0 <= i <= NBINS
  {
    current == BinsDanger(r, s, MaxInt(r.start, i - r.widthBins), i)
  }

  predicate VisitSum(wd: WaveDangers, s: seq<real>, i: int, visit: real)
    requires Shaped(wd) && |s| == NBINS && 0 <= i <= NBINS
  {
    visit == BinsDanger(wd.reach, s, MaxInt(wd.reach.start, wd.visitStart), MinInt(i, wd.visitEnd + 1))
  }

  predicate LeastSoFar(r: Reach, s: seq<real>, i: int, least: Option<real>)
    requires ReachOK(r) && |s| == NBINS && r.start <= i <= MaxInt(r.start, r.end + 1)
  {
    && (i <= FirstWindowEnd(r) ==> least == if r.end < FirstWindowEnd(r) then Some(0.0) else None)
    && (i > FirstWindowEnd(r) ==> least == Some(WindowDanger(r, s, LeastWindow(r, s, i - 1))))
  }

  /** One bin of the sweep keeps Swept. */
  lemma SweepStep(wd: WaveDangers, s: seq<real>, i: int, current: real, visit: real, least: Option<real>,
                  current': real, visit': real, least': Option<real>)
    requires Shaped(wd) && |s| == NBINS && i <= wd.reach.end
    requires Swept(wd, s, i, current, visit, least)
    requires var r := wd.reach;
             var run := current + BinDanger(r, s, i);
             && current' == (if i >= FirstWindowEnd(r) then run - BinDanger(r, s, i - r.widthBins) else run)
             && visit' == (if wd.visitStart <= i <= wd.visitEnd then visit + BinDanger(r, s, i) else visit)
             && least' == (if i >= FirstWindowEnd(r) && (least.None? || run < least.value) then Some(run) else least)
    ensures Swept(wd, s, i + 1, current', visit', least')
  {
    var r := wd.reach;
    RunningSumStep(r, s, i, current, current');
    VisitSumStep(wd, s, i, visit, visit');
    LeastStep(r, s, i, current, least, least');
  }

  lemma RunningSumStep(r: Reach, s: seq<real>, i: int, current: real, current': real)
    requires ReachOK(r) && |s| == NBINS && r.start <= i <= r.end
    requires RunningSum(r, s, i, current)
    requires var run := current + BinDanger(r, s, i);
             current' == (if i >= FirstWindowEnd(r) then run - BinDanger(r, s, i - r.widthBins) else run)
    ensures RunningSum(r, s, i + 1, current')
  {
    RunningStep(r, s, i, current);
  }

  lemma VisitSumStep(wd: WaveDangers, s: seq<real>, i: int, visit: real, visit': real)
    requires Shaped(wd) && |s| == NBINS && wd.reach.start <= i < NBINS
    requires VisitSum(wd, s, i, visit)
    requires visit' == (if wd.visitStart <= i <= wd.visitEnd then visit + BinDanger(wd.reach, s, i) else visit)
    ensures VisitSum(wd, s, i + 1, visit')
  {
    VisitStep(wd.reach, s, MaxInt(wd.reach.start, wd.visitStart), i, wd.visitEnd);
  }

  lemma LeastStep(r: Reach, s: seq<real>, i: int, current: real, least: Option<real>, least': Option<real>)
    requires ReachOK(r) && |s| == NBINS && r.start <= i <= r.end
    requires RunningSum(r, s, i, current) && LeastSoFar(r, s, i, least)
    requires var run := current + BinDanger(r, s, i);
             least' == (if i >= FirstWindowEnd(r) && (least.None? || run < least.value) then Some(run) else least)
    ensures LeastSoFar(r, s, i + 1, least')
  {
    if i >= FirstWindowEnd(r) {
      RunningStep(r, s, i, current);
      MinStep(r, s, i, least);
    }
  }

  /** Once the sweep has passed the reachable span, its sums give MinDanger. */
  lemma SweepDone(wd: WaveDangers, s: seq<real>, i: int, current: real, visit: real, least: Option<real>)
    requires Shaped(wd) && |s| == NBINS && i > wd.reach.end
    requires Swept(wd, s, i, current, visit, least)
    ensures least.Some?
    ensures Blend(wd.wave.power, VisitWeight(wd.depth), visit, least.value) == MinDanger(wd, s)
  {
    var r := wd.reach;
    assert visit == VisitDanger(wd, s) by {
      if r.end + 1 < r.start {
        assert MinInt(r.end, wd.visitEnd) + 1 <= MaxInt(r.start, wd.visitStart);
        assert MinInt(i, wd.visitEnd + 1) <= MaxInt(r.start, wd.visitStart);
      }
    }
    assert least.value == MinReachableDanger(r, s);
  }

  /** ShadowScorer.WaveDangers.getMinDanger(double[]): one sweep over the
      reachable bins keeping a running window sum. The minimum starts at
      +infinity (None here) when a window fits and at 0 otherwise. */
  method GetMinDanger(wd: WaveDangers, s: seq<real>) returns (r: real)
    requires Shaped(wd) && |s| == NBINS
    ensures r == MinDanger(wd, s)
  {
    var reach := wd.reach;
    var rs, re, wb := reach.start, reach.end, reach.widthBins;
    var visitDanger := 0.0;
    var minDanger: Option<real> := if re < rs + wb then Some(0.0) else None;
    var currentDanger := 0.0;
    var i := rs;
    while i <= re
      invariant Swept(wd, s, i, currentDanger, visitDanger, minDanger)
      decreases re - i
    {
      ghost var current0, visit0, least0 := currentDanger, visitDanger, minDanger;
      var binDanger := BinDanger(reach, s, i);
      currentDanger := currentDanger + binDanger;
      if i >= wd.visitStart && i <= wd.visitEnd {
        visitDanger := visitDanger + binDanger;
      }
      if i >= rs + wb {
        if minDanger.None? || currentDanger < minDanger.value {
          minDanger := Some(currentDanger);
        }
        currentDanger := currentDanger - BinDanger(reach, s, i - wb);
      }
      SweepStep(wd, s, i, current0, visit0, least0, currentDanger, visitDanger, minDanger);
      i := i + 1;
    }
    SweepDone(wd, s, i, currentDanger, visitDanger, minDanger);
    var visitWeight := VisitWeight(wd.depth);
    r := Blend(wd.wave.power, visitWeight, visitDanger, minDanger.value);
  }

  /** (int)Math.ceil for a non-negative value. */
  function Ceil(x: real): (n: int)
    requires x >= 0.0
    ensures n >= 0 && n as real >= x && (n as real) - 1.0 < x
  {
    -((-x).Floor)
  }

  /** The bins the node's visit covers, AS WRITTEN: an approximate location
      takes both ends from its startGF. */
  function VisitBinsAsWritten(w: Wave, visit: Visit): (b: (int, int))
    requires WellFormed(w)
  {
    match visit
    case Approximate(startGF, _) => (GetBin(BINS, startGF), GetBin(BINS, startGF))
    case Planned(offsets) =>
      var planRange := GetGFRange(w, offsets);
      (GetBin(BINS, planRange.start), GetBin(BINS, planRange.end))
    case Unrecorded => (-1, -1)
  }

  /** The bins the node's visit covers, with the approximate location's end
      taken from its endGF. The rest of the model uses this version. */
  function VisitBins(w: Wave, visit: Visit): (b: (int, int))
    requires WellFormed(w)
    ensures visit.Unrecorded? ==> b == (-1, -1)
    ensures visit.Approximate? ==>
      LowerGF(BINS, b.0) <= visit.startGF < UpperGF(BINS, b.0) &&
      LowerGF(BINS, b.1) <= visit.endGF < UpperGF(BINS, b.1)
    ensures visit.Approximate? && visit.startGF <= visit.endGF ==> b.0 <= b.1
    ensures visit.Planned? ==> 0 <= b.0 <= b.1 < NBINS
  {
    match visit
    case Approximate(startGF, endGF) =>
      GetBinIff(BINS, startGF, GetBin(BINS, startGF));
      GetBinIff(BINS, endGF, GetBin(BINS, endGF));
      if startGF <= endGF then GetBinMonotone(BINS, startGF, endGF); (GetBin(BINS, startGF), GetBin(BINS, endGF))
      else (GetBin(BINS, startGF), GetBin(BINS, endGF))
    case Planned(offsets) =>
      var planRange := GetGFRange(w, offsets);
      GetBinMonotone(BINS, planRange.start, planRange.end);
      T.GetBinBounds(planRange.start);
      T.GetBinBounds(planRange.end);
      (GetBin(BINS, planRange.start), GetBin(BINS, planRange.end))
    case Unrecorded => (-1, -1)
  }

  /** As written, an approximate visit always covers a single bin, whatever
      the width of the location; a location two bins wide or more covers
      several bins once its end is read from endGF. */
  lemma ApproximateVisitIsOneBinAsWritten(w: Wave, startGF: real, endGF: real)
    requires WellFormed(w)
    ensures VisitBinsAsWritten(w, Approximate(startGF, endGF)).0 == VisitBinsAsWritten(w, Approximate(startGF, endGF)).1
    ensures startGF + 2.0 * BinWidth(BINS) <= endGF ==>
      VisitBins(w, Approximate(startGF, endGF)).0 < VisitBins(w, Approximate(startGF, endGF)).1
  {
    var b := VisitBins(w, Approximate(startGF, endGF));
    if startGF + 2.0 * BinWidth(BINS) <= endGF && b.1 <= b.0 {
      LowerGFMonotone(BINS, b.1, b.0);
      BinsTileAxis(BINS, b.1);
      assert false;
    }
  }

  /** The WaveDangers constructor. `width` is the bot's angular width over
      the wave's mean escape angle (a geometry oracle); `unshadowed` the
      ensemble's dangers without shadows; `reachable` the GF range the search
      found reachable on this wave, which the GF clipping keeps in [-1, 1). */
  function MakeWaveDangers(w: Wave, depth: int, width: real, unshadowed: seq<real>,
                           reachable: Range, visit: Visit): (wd: WaveDangers)
    requires WellFormed(w) && depth >= 1 && width >= 0.0 && |unshadowed| == NBINS
    requires -1.0 <= reachable.start <= reachable.end < 1.0
    ensures Shaped(wd) && wd.baseDanger == MinDanger(wd, w.shadows)
    ensures wd.wave == w && wd.depth == depth && wd.reach.unshadowed == unshadowed
    ensures LowerGF(BINS, wd.reach.start) <= reachable.start < UpperGF(BINS, wd.reach.start)
    ensures LowerGF(BINS, wd.reach.end) <= reachable.end < UpperGF(BINS, wd.reach.end)
    ensures wd.reach.widthBins as real >= width / BinWidth(BINS) > wd.reach.widthBins as real - 1.0
    ensures (wd.visitStart, wd.visitEnd) == VisitBins(w, visit)
  {
    T.GetBinBounds(reachable.start);
    T.GetBinBounds(reachable.end);
    GetBinIff(BINS, reachable.start, GetBin(BINS, reachable.start));
    GetBinIff(BINS, reachable.end, GetBin(BINS, reachable.end));
    var reach := Reach(unshadowed, GetBin(BINS, reachable.start), GetBin(BINS, reachable.end),
                       Ceil(width / BinWidth(BINS)));
    var visitBins := VisitBins(w, visit);
    var wd := WaveDangers(w, depth, reach, visitBins.0, visitBins.1, 0.0);
    wd.(baseDanger := MinDanger(wd, w.shadows))
  }

  /** The constructor AS WRITTEN, with the approximate visit read from startGF twice. */
  function MakeWaveDangersAsWritten(w: Wave, depth: int, width: real, unshadowed: seq<real>,
                                    reachable: Range, visit: Visit): (wd: WaveDangers)
    requires WellFormed(w) && depth >= 1 && width >= 0.0 && |unshadowed| == NBINS
    requires -1.0 <= reachable.start <= reachable.end < 1.0
    ensures Shaped(wd)
    ensures wd == MakeWaveDangers(w, depth, width, unshadowed, reachable, visit).(
      visitStart := VisitBinsAsWritten(w, visit).0, visitEnd := VisitBinsAsWritten(w, visit).1,
      baseDanger := wd.baseDanger)
  {
    var fixed := MakeWaveDangers(w, depth, width, unshadowed, reachable, visit);
    var visitBins := VisitBinsAsWritten(w, visit);
    var wd := fixed.(visitStart := visitBins.0, visitEnd := visitBins.1);
    wd.(baseDanger := MinDanger(wd, w.shadows))
  }

  /** Approximate locations exist only on the third wave, where the visit
      bins carry no weight: as written and corrected, the constructor scores
      every set of shadows alike there, including its own base danger. */
  lemma AsWrittenScoresAlikeBelowFirstWave(w: Wave, depth: int, width: real, unshadowed: seq<real>,
                                           reachable: Range, visit: Visit, s: seq<real>)
    requires WellFormed(w) && depth >= 2 && width >= 0.0 && |unshadowed| == NBINS && |s| == NBINS
    requires -1.0 <= reachable.start <= reachable.end < 1.0
    ensures MinDanger(MakeWaveDangersAsWritten(w, depth, width, unshadowed, reachable, visit), s)
         == MinDanger(MakeWaveDangers(w, depth, width, unshadowed, reachable, visit), s)
    ensures MakeWaveDangersAsWritten(w, depth, width, unshadowed, reachable, visit).baseDanger
         == MakeWaveDangers(w, depth, width, unshadowed, reachable, visit).baseDanger
  {
    var a := MakeWaveDangersAsWritten(w, depth, width, unshadowed, reachable, visit);
    var b := MakeWaveDangers(w, depth, width, unshadowed, reachable, visit);
    MinDangerPicksOne(a, s);
    MinDangerPicksOne(b, s);
    MinDangerPicksOne(a, w.shadows);
    MinDangerPicksOne(b, w.shadows);
  }

  /** What getMinDanger(Bullet) relies on: the base danger is the score of
      the wave's own shadows. */
  predicate Valid(wd: WaveDangers) {
    Shaped(wd) && wd.baseDanger == MinDanger(wd, wd.wave.shadows)
  }

  /** The bins' dangers and the wave's power are not negative, and the
      wave's shadows are fractions. */
  predicate Sensible(wd: WaveDangers) {
    && wd.wave.power >= 0.0
    && InUnit(wd.wave.shadows)
    && forall i :: 0 <= i < |wd.reach.unshadowed| ==> wd.reach.unshadowed[i] >= 0.0
  }

  lemma ScaleMonotone(a: real, x: real, y: real)
    requires a >= 0.0 && x <= y
    ensures a * x <= a * y
  {
    MulNonNegative(a, y - x);
  }

  /** More shadow never makes a span of bins more dangerous. */
  lemma {:induction false} BinsDangerAntitone(wd: WaveDangers, s1: seq<real>, s2: seq<real>, lo: int, hi: int)
    requires Shaped(wd) && Sensible(wd) && |s1| == NBINS && |s2| == NBINS && 0 <= lo && hi <= NBINS
    requires forall i :: 0 <= i < NBINS ==> s1[i] <= s2[i]
    ensures BinsDanger(wd.reach, s2, lo, hi) <= BinsDanger(wd.reach, s1, lo, hi)
    decreases hi - lo
  {
    if lo < hi {
      BinsDangerAntitone(wd, s1, s2, lo, hi - 1);
      ScaleMonotone(wd.reach.unshadowed[hi - 1], 1.0 - s2[hi - 1], 1.0 - s1[hi - 1]);
    }
  }

  /** With shadows that are fractions, no span of bins has negative danger. */
  lemma {:induction false} BinsDangerNonNegative(wd: WaveDangers, s: seq<real>, lo: int, hi: int)
    requires Shaped(wd) && Sensible(wd) && |s| == NBINS && InUnit(s) && 0 <= lo && hi <= NBINS
    ensures BinsDanger(wd.reach, s, lo, hi) >= 0.0
    decreases hi - lo
  {
    if lo < hi {
      BinsDangerNonNegative(wd, s, lo, hi - 1);
      MulNonNegative(wd.reach.unshadowed[hi - 1], 1.0 - s[hi - 1]);
    }
  }

  /** With shadows that are fractions, a plan node's score is not negative. */
  lemma MinDangerNonNegative(wd: WaveDangers, s: seq<real>)
    requires Shaped(wd) && Sensible(wd) && |s| == NBINS && InUnit(s)
    ensures MinDanger(wd, s) >= 0.0
  {
    var r := wd.reach;
    MinDangerPicksOne(wd, s);
    if wd.depth == 1 {
      BinsDangerNonNegative(wd, s, MaxInt(r.start, wd.visitStart), MinInt(r.end, wd.visitEnd) + 1);
      MulNonNegative(wd.wave.power, VisitDanger(wd, s));
    } else {
      if r.end >= FirstWindowEnd(r) {
        var k := LeastWindow(r, s, r.end);
        BinsDangerNonNegative(wd, s, k - r.widthBins, k + 1);
      }
      MulNonNegative(wd.wave.power, MinReachableDanger(r, s));
    }
  }

  /** More shadow never makes the least reachable window more dangerous. */
  lemma MinReachableAntitone(wd: WaveDangers, s1: seq<real>, s2: seq<real>)
    requires Shaped(wd) && Sensible(wd) && |s1| == NBINS && |s2| == NBINS
    requires forall i :: 0 <= i < NBINS ==> s1[i] <= s2[i]
    ensures MinReachableDanger(wd.reach, s2) <= MinReachableDanger(wd.reach, s1)
  {
    var r := wd.reach;
    if r.end >= FirstWindowEnd(r) {
      var k := LeastWindow(r, s1, r.end);
      BinsDangerAntitone(wd, s1, s2, k - r.widthBins, k + 1);
      assert MinReachableDanger(r, s2) <= WindowDanger(r, s2, k);
    }
  }

  /** The blend is monotone in both dangers for a weight of 0 or 1. */
  lemma BlendMonotone(p: real, vw: real, a1: real, b1: real, a2: real, b2: real)
    requires p >= 0.0 && (vw == 0.0 || vw == 1.0) && a2 <= a1 && b2 <= b1
    ensures Blend(p, vw, a2, b2) <= Blend(p, vw, a1, b1)
  {
    if vw == 1.0 {
      ScaleMonotone(p, a2, a1);
    } else {
      ScaleMonotone(p, b2, b1);
    }
  }

  /** More shadow never raises the score of a plan node. */
  lemma ShadowsNeverRaiseDanger(wd: WaveDangers, s1: seq<real>, s2: seq<real>)
    requires Shaped(wd) && Sensible(wd) && |s1| == NBINS && |s2| == NBINS
    requires forall i :: 0 <= i < NBINS ==> s1[i] <= s2[i]
    ensures MinDanger(wd, s2) <= MinDanger(wd, s1)
  {
    var r := wd.reach;
    BinsDangerAntitone(wd, s1, s2, MaxInt(r.start, wd.visitStart), MinInt(r.end, wd.visitEnd) + 1);
    MinReachableAntitone(wd, s1, s2);
    BlendMonotone(wd.wave.power, VisitWeight(wd.depth), VisitDanger(wd, s1), MinReachableDanger(r, s1),
                  VisitDanger(wd, s2), MinReachableDanger(r, s2));
  }

  /** ShadowScorer.WaveDangers.getMinDanger(Bullet): the bullet's shadows go
      into a copy of the wave's shadows, so the wave itself keeps its own;
      when the bullet casts no shadow the base danger is returned instead of
      a recomputation. That shortcut never changes the answer, and a bullet
      never raises the score. */
  function MinDangerWithBullet(wd: WaveDangers, b: Bullet, geo: Geometry, passTick: int): (r: real)
    requires Valid(wd) && MW.ShadowsTerminate(wd.wave, b, geo, passTick)
    ensures r == MinDanger(wd, AddBulletShadows(wd.wave, b, geo, passTick, wd.wave.shadows, wd.wave.shadow).shadows)
    ensures Sensible(wd) ==> 0.0 <= r <= wd.baseDanger
  {
    var res := AddBulletShadows(wd.wave, b, geo, passTick, wd.wave.shadows, wd.wave.shadow);
    assert Sensible(wd) ==> 0.0 <= MinDanger(wd, res.shadows) <= wd.baseDanger by {
      if Sensible(wd) {
        ShadowsNeverRaiseDanger(wd, wd.wave.shadows, res.shadows);
        MinDangerNonNegative(wd, res.shadows);
      }
    }
    if res.changed then MinDanger(wd, res.shadows) else wd.baseDanger
  }

  /** The temporary bullet getDangersAfterNewShadows fires from our wave
      `aim` at guess factor `gf`; `id` tells it apart from real bullets. */
  function ProbeBullet(aim: Wave, gf: real, id: nat): Bullet {
    Bullet(id, aim.fireTime, GetBearing(aim, gf))
  }

  /** The bullet passes every scored wave in finite time. */
  predicate ProbePasses(wds: seq<WaveDangers>, b: Bullet, geo: Geometry, passTick: WM.PassTicks) {
    forall k :: 0 <= k < |wds| ==>
      Valid(wds[k]) && MW.ShadowsTerminate(wds[k].wave, b, geo, passTick(wds[k].wave.id, b))
  }

  /** The summed score of the plan's waves once bullet `b` is in the air. */
  function TotalMinDanger(wds: seq<WaveDangers>, b: Bullet, geo: Geometry, passTick: WM.PassTicks): (r: real)
    requires ProbePasses(wds, b, geo, passTick)
    ensures (forall k :: 0 <= k < |wds| ==> Sensible(wds[k])) ==> 0.0 <= r <= TotalBaseDanger(wds)
  {
    if |wds| == 0 then 0.0
    else
      var last := wds[|wds| - 1];
      TotalMinDanger(wds[..|wds| - 1], b, geo, passTick)
        + MinDangerWithBullet(last, b, geo, passTick(last.wave.id, b))
  }

  /** The summed score of the plan's waves with no new bullet. */
  function TotalBaseDanger(wds: seq<WaveDangers>): real {
    if |wds| == 0 then 0.0 else TotalBaseDanger(wds[..|wds| - 1]) + wds[|wds| - 1].baseDanger
  }

  /** The pow oracle does not decrease in its base over the non-negative reals. */
  ghost predicate PowMonotone(pow: (real, real) -> real) {
    forall x: real, y: real, n: real :: 0.0 <= x <= y ==> pow(x, n) <= pow(y, n)
  }

  /** The plan's summed score with bullet `b` in the air, plus 1e-6, raised
      to the number of scored waves. A bullet's shadows only lower each
      wave's score, so the shot never scores above holding fire. */
  function ShotScore(wds: seq<WaveDangers>, b: Bullet, geo: Geometry, passTick: WM.PassTicks,
                     pow: (real, real) -> real): (r: real)
    requires ProbePasses(wds, b, geo, passTick)
    ensures PowMonotone(pow) && (forall k :: 0 <= k < |wds| ==> Sensible(wds[k])) ==>
              r <= pow(0.000001 + TotalBaseDanger(wds), |wds| as real)
  {
    PowStepIf(pow, 0.000001 + TotalMinDanger(wds, b, geo, passTick), 0.000001 + TotalBaseDanger(wds), |wds| as real);
    pow(0.000001 + TotalMinDanger(wds, b, geo, passTick), |wds| as real)
  }

  /** ShadowScorer.getDangersAfterNewShadows: for each candidate GF, the
      plan's score with a bullet fired there. */
  function DangersAfterNewShadows(gfs: seq<real>, aim: Wave, wds: seq<WaveDangers>, geo: Geometry,
                                  passTick: WM.PassTicks, probeId: nat, pow: (real, real) -> real): (r: seq<real>)
    requires forall j :: 0 <= j < |gfs| ==> ProbePasses(wds, ProbeBullet(aim, gfs[j], probeId), geo, passTick)
    ensures |r| == |gfs|
    ensures forall j :: 0 <= j < |gfs| ==> r[j] == ShotScore(wds, ProbeBullet(aim, gfs[j], probeId), geo, passTick, pow)
    ensures PowMonotone(pow) && (forall k :: 0 <= k < |wds| ==> Sensible(wds[k])) ==>
              forall j :: 0 <= j < |gfs| ==> r[j] <= pow(0.000001 + TotalBaseDanger(wds), |wds| as real)
  {
    seq(|gfs|, j requires 0 <= j < |gfs| => ShotScore(wds, ProbeBullet(aim, gfs[j], probeId), geo, passTick, pow))
  }

  lemma PowStep(pow: (real, real) -> real, x: real, y: real, n: real)
    requires PowMonotone(pow) && 0.0 <= x <= y
    ensures pow(x, n) <= pow(y, n)
  {
  }

  /** PowStep wherever its premises hold. */
  lemma PowStepIf(pow: (real, real) -> real, x: real, y: real, n: real)
    ensures PowMonotone(pow) && 0.0 <= x <= y ==> pow(x, n) <= pow(y, n)
  {
    if PowMonotone(pow) && 0.0 <= x <= y {
      PowStep(pow, x, y, n);
    }
  }
}
