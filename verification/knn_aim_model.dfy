/** kc.mega.aim.models.KNNAimModel: the nearest past waves vote, with their
    softmax weights, for the guess-factor ranges that would have hit; the aim
    is the point covered by the most weight, found by sorting the ranges'
    edges and sweeping them. */
module KNNAimModels {
  import opened Wrappers
  import opened MathUtils
  import Ranges
  import opened WaveModel
  import opened WaveKNNs
  import opened Seqs

  /** KNNAimModel.VisitEdge: a range bound, the range's middle, and +weight
      for a start or -weight for an end. */
  datatype VisitEdge = VisitEdge(gf: real, middle: real, weight: real)

  /** VisitEdge.compareTo orders edges by guess factor. */
  function EdgeKey(e: VisitEdge): real { e.gf }

  /** The edges of the last sweep, sorted, and the cumulative weight
      fraction (`prob`) at each. */
  datatype Sweep = Sweep(edges: seq<VisitEdge>, probs: seq<real>)

  /** The model; `sweep` is the `edges` field, null until the first sweep. */
  datatype KNNAimModel = KNNAimModel(config: Config, tree: Tree<Ranges.Range>, sweep: Option<Sweep>)

  /** Every stored label is a sorted guess-factor range within the clip limits. */
  predicate LabelsInRange(t: Tree<Ranges.Range>) {
    forall p :: 0 <= p < |t.points| ==>
      -GF_LIMIT <= t.points[p].value.start <= t.points[p].value.end <= GF_LIMIT
  }

  /** A stored sweep: edges sorted by guess factor, one probability each. */
  predicate ValidSweep(sw: Sweep) {
    |sw.probs| == |sw.edges| && SortedBy(sw.edges, EdgeKey)
  }

  predicate ValidModel(m: KNNAimModel) {
    && m.tree.maxSize >= 1 && |m.tree.points| <= m.tree.maxSize && LabelsInRange(m.tree)
    && (m.sweep.Some? ==> ValidSweep(m.sweep.value))
  }

  /** KNNAimModel.hasData, which returns WaveKNN.isEmpty: true exactly when
      the model has been trained. */
  function HasData(m: KNNAimModel): (r: bool)
    ensures r <==> |m.tree.points| > 0
  {
    IsEmpty(m.tree)
  }

  /** KNNAimModel.train: one point, labelled with the wave's hit range. */
  function Train(m: KNNAimModel, w: FeaturedWave, pow: (real, real) -> real): (r: KNNAimModel)
    requires ValidModel(m) && WellFormed(w.wave) && CanEmbed(m.config, w.features)
    ensures ValidModel(r) && r.config == m.config && r.sweep == m.sweep
    ensures Size(r.tree) == MinInt(Size(m.tree) + 1, m.tree.maxSize)
    ensures r.tree.points[Size(r.tree) - 1] == Point(Embed(m.config, w.features, pow), HitGFRange(w.wave))
  {
    var e := Embed(m.config, w.features, pow);
    var range := HitGFRange(w.wave);
    AddPointKeepsLabels(m.tree, e, range);
    m.(tree := AddPoint(m.tree, e, range))
  }

  /** Storing a clipped range keeps every stored label clipped. */
  lemma AddPointKeepsLabels(t: Tree<Ranges.Range>, e: seq<real>, v: Ranges.Range)
    requires t.maxSize >= 1 && |t.points| <= t.maxSize && LabelsInRange(t)
    requires -GF_LIMIT <= v.start <= v.end <= GF_LIMIT
    ensures LabelsInRange(AddPoint(t, e, v))
  {
    var r := AddPoint(t, e, v);
    forall p | 0 <= p < |r.points|
      ensures -GF_LIMIT <= r.points[p].value.start <= r.points[p].value.end <= GF_LIMIT
    {
      if p < |r.points| - 1 {
        assert r.points[p] == r.points[..|r.points| - 1][p];
        assert r.points[p] == t.points[|t.points| + 1 - |r.points| + p];
      }
    }
  }

  /** The model is trained, then asked: it has data. */
  lemma TrainedModelHasData(m: KNNAimModel, w: FeaturedWave, pow: (real, real) -> real)
    requires ValidModel(m) && WellFormed(w.wave) && CanEmbed(m.config, w.features)
    ensures HasData(Train(m, w, pow))
  {
  }

  // ---------------------------------------------------------------------------
  // Edges and the sweep
  // ---------------------------------------------------------------------------

  /** The edge array getAimGF fills: a start edge and an end edge per
      neighbour, in neighbour order. */
  function BuildEdges(ranges: seq<Ranges.Range>, weights: seq<real>): (es: seq<VisitEdge>)
    requires |weights| == |ranges|
    ensures |es| == 2 * |ranges|
    ensures forall i :: 0 <= i < |ranges| ==>
              es[2 * i] == VisitEdge(ranges[i].start, Ranges.Middle(ranges[i]), weights[i])
    ensures forall i :: 0 <= i < |ranges| ==>
              es[2 * i + 1] == VisitEdge(ranges[i].end, Ranges.Middle(ranges[i]), -weights[i])
    decreases |ranges|
  {
    if |ranges| == 0 then []
    else
      var n := |ranges| - 1;
      var r := ranges[n];
      BuildEdges(ranges[..n], weights[..n])
        + [VisitEdge(r.start, Ranges.Middle(r), weights[n]), VisitEdge(r.end, Ranges.Middle(r), -weights[n])]
  }

  /** The sweep's running height after the first `k` edges. */
  function Height(es: seq<VisitEdge>, k: nat): real
    requires k <= |es|
  {
    if k == 0 then 0.0 else Height(es, k - 1) + es[k - 1].weight
  }

  /** Every start edge is cancelled by its end edge: the full sweep ends at 0. */
  lemma {:induction false} BuiltEdgesCancel(ranges: seq<Ranges.Range>, weights: seq<real>)
    requires |weights| == |ranges|
    ensures Height(BuildEdges(ranges, weights), 2 * |ranges|) == 0.0
    decreases |ranges|
  {
    if |ranges| > 0 {
      var n := |ranges| - 1;
      var prev := BuildEdges(ranges[..n], weights[..n]);
      var es := BuildEdges(ranges, weights);
      BuiltEdgesCancel(ranges[..n], weights[..n]);
      HeightOfPrefix(es, prev, 2 * n);
    }
  }

  /** Heights only look at the edges swept so far. */
  lemma {:induction false} HeightOfPrefix(es: seq<VisitEdge>, prefix: seq<VisitEdge>, k: nat)
    requires k <= |prefix| <= |es| && prefix == es[..|prefix|]
    ensures Height(es, k) == Height(prefix, k)
  {
    if k > 0 {
      HeightOfPrefix(es, prefix, k - 1);
    }
  }

  /** Removing one edge removes its weight from the total. */
  lemma {:induction false} HeightRemove(b: seq<VisitEdge>, j: nat)
    requires j < |b|
    ensures Height(b, |b|) == Height(b[..j] + b[j + 1..], |b| - 1) + b[j].weight
    decreases |b|
  {
    var n := |b| - 1;
    var rest := b[..j] + b[j + 1..];
    if j == n {
      assert rest == b[..n];
      HeightOfPrefix(b, b[..n], n);
    } else {
      var b' := b[..n];
      HeightRemove(b', j);
      assert rest == (b'[..j] + b'[j + 1..]) + [b[n]];
      HeightOfPrefix(rest, b'[..j] + b'[j + 1..], n - 1);
      HeightOfPrefix(b, b', n);
    }
  }

  /** Sorting does not change the total: heights are permutation invariant. */
  lemma {:induction false} HeightPermutation(a: seq<VisitEdge>, b: seq<VisitEdge>)
    requires multiset(a) == multiset(b)
    ensures Height(a, |a|) == Height(b, |b|)
    decreases |a|
  {
    assert |a| == |multiset(a)| == |b|;
    if |a| > 0 {
      var n := |a| - 1;
      var x := a[n];
      assert x in multiset(b);
      var j :| 0 <= j < |b| && b[j] == x;
      var rest := b[..j] + b[j + 1..];
      RemoveAtMultiset(b, j);
      RemoveAtMultiset(a, n);
      assert a[..n] == a[..n] + a[n + 1..];
      HeightPermutation(a[..n], rest);
      HeightRemove(b, j);
      HeightOfPrefix(a, a[..n], n);
    }
  }

  /** The result of the sweep loop. */
  datatype SweepResult = SweepResult(probs: seq<real>, bestIndex: nat)

  /** Where the sweep settles: the first edge at which the height reaches its
      positive maximum, or 0 if the height never rises above 0. */
  predicate IsBestIndex(es: seq<VisitEdge>, best: nat) {
    && best < |es|
    && (forall k :: 0 < k <= |es| ==> Height(es, k) <= Height(es, best + 1) || Height(es, k) <= 0.0)
    && (forall k :: 0 < k <= best ==> Height(es, k) < Height(es, best + 1))
    && (best == 0 || Height(es, best + 1) > 0.0)
    && (Height(es, best + 1) <= 0.0 ==> forall k :: 0 < k <= |es| ==> Height(es, k) <= 0.0)
  }

  /** The sweep loop of getAimGF: the cumulative probability at every edge and
      the index of the highest point. */
  method SweepEdges(es: seq<VisitEdge>, totalWeight: real) returns (r: SweepResult)
    requires |es| > 0 && totalWeight != 0.0
    ensures |r.probs| == |es|
    ensures forall i :: 0 <= i < |es| ==> r.probs[i] == Height(es, i + 1) / totalWeight
    ensures IsBestIndex(es, r.bestIndex)
  {
    var height := 0.0;
    var bestHeight := 0.0;
    var bestIndex := 0;
    var probs := [];
    var i := 0;
    while i < |es|
      invariant 0 <= i <= |es| && bestIndex < |es|
      invariant height == Height(es, i)
      invariant |probs| == i
      invariant forall k :: 0 <= k < i ==> probs[k] == Height(es, k + 1) / totalWeight
      invariant i == 0 ==> bestIndex == 0 && bestHeight == 0.0
      invariant i > 0 ==> bestIndex < i
      invariant bestHeight >= 0.0
      invariant bestHeight > 0.0 ==> bestHeight == Height(es, bestIndex + 1)
      invariant bestHeight == 0.0 ==> bestIndex == 0
      invariant forall k :: 0 < k <= i ==> Height(es, k) <= bestHeight
      invariant forall k :: 0 < k <= bestIndex ==> Height(es, k) < bestHeight
    {
      height := height + es[i].weight;
      probs := probs + [height / totalWeight];
      if height > bestHeight {
        bestHeight := height;
        bestIndex := i;
      }
      i := i + 1;
    }
    r := SweepResult(probs, bestIndex);
  }

  /** Because the sweep ends at height 0, the best edge is never the last one,
      so getAimGF's `edges[bestIndex + 1]` is always in bounds. */
  lemma BestIsNotLast(es: seq<VisitEdge>, best: nat)
    requires |es| >= 2 && IsBestIndex(es, best) && Height(es, |es|) == 0.0
    ensures best + 1 < |es|
  {
  }

  /** Two indices meeting IsBestIndex are the same index. */
  lemma BestIndexUnique(es: seq<VisitEdge>, a: nat, b: nat)
    requires IsBestIndex(es, a) && IsBestIndex(es, b)
    ensures a == b
  {
    assert 0 < a + 1 <= |es| && 0 < b + 1 <= |es|;
  }

  /** The labels of the neighbours, in neighbour order. */
  function Labels(ns: seq<Neighbor<Ranges.Range>>): (r: seq<Ranges.Range>)
    ensures |r| == |ns| && forall i :: 0 <= i < |ns| ==> r[i] == ns[i].value
  {
    seq(|ns|, i requires 0 <= i < |ns| => ns[i].value)
  }

  /** The sorted edge array of getAimGF. */
  function AimEdges(ns: seq<Neighbor<Ranges.Range>>, weights: seq<real>): (es: seq<VisitEdge>)
    requires |weights| == |ns|
    ensures |es| == 2 * |ns|
    ensures SortedBy(es, EdgeKey)
    ensures multiset(es) == multiset(BuildEdges(Labels(ns), weights))
  {
    SortByKey(BuildEdges(Labels(ns), weights), EdgeKey)
  }

  /** The neighbours' labels are stored labels, so they are sorted ranges
      within the clip limits. */
  lemma NeighborLabelsInRange(t: Tree<Ranges.Range>, query: seq<real>, count: int, ns: seq<Neighbor<Ranges.Range>>)
    requires LabelsInRange(t) && ValidNeighbors(t, query, count, ns)
    ensures forall i :: 0 <= i < |ns| ==> -GF_LIMIT <= ns[i].value.start <= ns[i].value.end <= GF_LIMIT
  {
    forall i | 0 <= i < |ns| ensures -GF_LIMIT <= ns[i].value.start <= ns[i].value.end <= GF_LIMIT {
      var p :| 0 <= p < |t.points| && |t.points[p].embedding| == |query|
               && ns[i].value == t.points[p].value
               && ns[i].distance == Manhattan(query, t.points[p].embedding);
    }
  }

  /** Every edge lies within the clip limits when every range does. */
  lemma EdgesInRange(ns: seq<Neighbor<Ranges.Range>>, weights: seq<real>)
    requires |weights| == |ns|
    requires forall i :: 0 <= i < |ns| ==> -GF_LIMIT <= ns[i].value.start <= ns[i].value.end <= GF_LIMIT
    ensures forall i :: 0 <= i < 2 * |ns| ==> -GF_LIMIT <= AimEdges(ns, weights)[i].gf <= GF_LIMIT
  {
    var built := BuildEdges(Labels(ns), weights);
    var es := AimEdges(ns, weights);
    forall i | 0 <= i < |built| ensures -GF_LIMIT <= built[i].gf <= GF_LIMIT {
      var k := i / 2;
      assert i == 2 * k || i == 2 * k + 1;
      assert Labels(ns)[k] == ns[k].value;
    }
    forall i | 0 <= i < |es| ensures -GF_LIMIT <= es[i].gf <= GF_LIMIT {
      assert es[i] in multiset(built);
    }
  }

  /** What one sweep leaves behind: the cumulative weight at every edge,
      and an aim midway between the highest edge and the next one. */
  predicate AimedAt(es: seq<VisitEdge>, probs: seq<real>, gf: real) {
    && |probs| == |es|
    && (forall i :: 0 <= i < |es| ==> probs[i] == Height(es, i + 1))
    && (exists b :: 0 <= b < |es| && IsBestIndex(es, b))
    && (forall b :: 0 <= b < |es| && IsBestIndex(es, b) ==> b + 1 < |es| && gf == (es[b].gf + es[b + 1].gf) / 2.0)
  }

  /** The sweep of a sorted edge array whose weights sum to 1 and whose
      heights return to 0. */
  method SweepAim(es: seq<VisitEdge>) returns (gf: real, probs: seq<real>)
    requires |es| >= 2 && Height(es, |es|) == 0.0
    ensures AimedAt(es, probs, gf)
    ensures (forall i :: 0 <= i < |es| ==> -GF_LIMIT <= es[i].gf <= GF_LIMIT) ==> -GF_LIMIT <= gf <= GF_LIMIT
  {
    var sweep := SweepEdges(es, 1.0);
    var best := sweep.bestIndex;
    BestIsNotLast(es, best);
    gf := (es[best].gf + es[best + 1].gf) / 2.0;
    probs := sweep.probs;
    forall b | 0 <= b < |es| && IsBestIndex(es, b) ensures b + 1 < |es| && gf == (es[b].gf + es[b + 1].gf) / 2.0 {
      BestIndexUnique(es, b, best);
    }
  }

  /** getAimGF with the neighbours `ns` the tree returns for `query` and
      `count`: with no neighbours it returns 0 and leaves the last sweep in
      place; otherwise it stores the new sweep and aims between the edge
      where the weight piled up highest and the next edge. */
  method GetAimGF(m: KNNAimModel, query: seq<real>, count: int, ns: seq<Neighbor<Ranges.Range>>, exp: real -> real)
    returns (gf: real, r: KNNAimModel)
    requires ValidModel(m) && Positive(exp)
    requires ValidNeighbors(m.tree, query, count, ns)
    ensures ValidModel(r) && -GF_LIMIT <= gf <= GF_LIMIT
    ensures |ns| == 0 ==> gf == 0.0 && r == m
    ensures |ns| > 0 ==> r.config == m.config && r.tree == m.tree && r.sweep.Some?
    ensures |ns| > 0 ==> r.sweep.value.edges == AimEdges(ns, GetWeights(ns, m.config.distanceScale, exp))
    ensures |ns| > 0 ==> AimedAt(r.sweep.value.edges, r.sweep.value.probs, gf)
    ensures |ns| == 1 && ns[0].value.start <= ns[0].value.end ==> gf == Ranges.Middle(ns[0].value)
  {
    if |ns| == 0 {
      return 0.0, m;
    }
    var weights := GetWeights(ns, m.config.distanceScale, exp);
    var built := BuildEdges(Labels(ns), weights);
    var es := AimEdges(ns, weights);
    BuiltEdgesCancel(Labels(ns), weights);
    HeightPermutation(built, es);
    NeighborLabelsInRange(m.tree, query, count, ns);
    EdgesInRange(ns, weights);
    var probs;
    gf, probs := SweepAim(es);
    r := m.(sweep := Some(Sweep(es, probs)));
    if |ns| == 1 {
      assert Sum(weights) == weights[0] + Sum(weights[1..]);
      SingleNeighborAimsAtMiddle(ns[0], probs, gf);
    }
  }

  /** With one neighbour, getAimGF aims at the middle of its range. */
  lemma SingleNeighborAimsAtMiddle(n: Neighbor<Ranges.Range>, probs: seq<real>, gf: real)
    requires n.value.start <= n.value.end
    requires AimedAt(AimEdges([n], [1.0]), probs, gf)
    ensures gf == Ranges.Middle(n.value)
    ensures probs == [1.0, 0.0]
  {
    var built := BuildEdges(Labels([n]), [1.0]);
    assert built[0] == VisitEdge(n.value.start, Ranges.Middle(n.value), 1.0);
    assert built[1] == VisitEdge(n.value.end, Ranges.Middle(n.value), -1.0);
    assert SortedBy(built, EdgeKey);
    SortSortedIsIdentity(built, EdgeKey);
    var es := AimEdges([n], [1.0]);
    assert es == built;
    TwoEdgesPeakFirst(es);
  }

  /** A unit start edge followed by its end edge: the sweep peaks at the first. */
  lemma TwoEdgesPeakFirst(es: seq<VisitEdge>)
    requires |es| == 2 && es[0].weight == 1.0 && es[1].weight == -1.0
    ensures Height(es, 1) == 1.0 && Height(es, 2) == 0.0
    ensures IsBestIndex(es, 0)
  {
    assert Height(es, 1) == Height(es, 0) + es[0].weight;
    assert Height(es, 2) == Height(es, 1) + es[1].weight;
  }

  /** Java's `/ 2` on an int: the quotient truncated toward zero. */
  function HalfTowardZero(k: int): (r: int)
    ensures k >= 0 ==> 0 <= r && 2 * r <= k <= 2 * r + 1
    ensures k < 0 ==> r <= 0 && 2 * r - 1 <= k <= 2 * r
  {
    if k >= 0 then k / 2 else -((-k) / 2)
  }

  /** KNNAimModel.getAimGFFast: getAimGF with half the usual neighbour count. */
  method GetAimGFFast(m: KNNAimModel, w: FeaturedWave, pow: (real, real) -> real,
                      ns: seq<Neighbor<Ranges.Range>>, exp: real -> real)
    returns (gf: real, r: KNNAimModel)
    requires ValidModel(m) && Positive(exp) && CanEmbed(m.config, w.features)
    requires ValidNeighbors(m.tree, Embed(m.config, w.features, pow),
                            HalfTowardZero(GetNumNeighbors(m.config, m.tree)), ns)
    ensures ValidModel(r) && -GF_LIMIT <= gf <= GF_LIMIT
    ensures 2 * |ns| <= MaxInt(0, GetNumNeighbors(m.config, m.tree))
    ensures |ns| == 0 ==> gf == 0.0 && r == m
    ensures |ns| > 0 ==> r.sweep.Some? && AimedAt(r.sweep.value.edges, r.sweep.value.probs, gf)
  {
    gf, r := GetAimGF(m, Embed(m.config, w.features, pow), HalfTowardZero(GetNumNeighbors(m.config, m.tree)), ns, exp);
  }

  // ---------------------------------------------------------------------------
  // Scoring a guess factor against the last sweep
  // ---------------------------------------------------------------------------

  /** Arrays.binarySearch over the edges between `low` and `high` (inclusive),
      comparing by guess factor. */
  function BinarySearch(es: seq<VisitEdge>, key: real, low: int, high: int): (r: int)
    requires SortedBy(es, EdgeKey)
    requires 0 <= low <= high + 1 <= |es|
    requires forall i :: 0 <= i < low ==> es[i].gf < key
    requires forall i :: high < i < |es| ==> key < es[i].gf
    ensures r >= 0 ==> low <= r <= high && es[r].gf == key
    ensures r < 0 ==> low <= -r - 1 <= high + 1
                      && (forall i :: 0 <= i < -r - 1 ==> es[i].gf < key)
                      && (forall i :: -r - 1 <= i < |es| ==> key < es[i].gf)
    decreases high - low
  {
    if low > high then -(low + 1)
    else
      var mid := (low + high) / 2;
      if es[mid].gf < key then
        assert forall i :: 0 <= i <= mid ==> es[i].gf <= es[mid].gf;
        BinarySearch(es, key, mid + 1, high)
      else if es[mid].gf > key then
        assert forall i :: mid <= i < |es| ==> es[mid].gf <= es[i].gf;
        BinarySearch(es, key, low, mid - 1)
      else mid
  }

  /** Arrays.binarySearch over the whole edge array: an index holding `key`
      when there is one, otherwise -(insertion point) - 1. */
  function Search(es: seq<VisitEdge>, key: real): (r: int)
    requires SortedBy(es, EdgeKey)
    ensures r >= 0 <==> exists i :: 0 <= i < |es| && es[i].gf == key
    ensures r >= 0 ==> r < |es| && es[r].gf == key
    ensures r < 0 ==> 0 <= -r - 1 <= |es|
                      && (forall i :: 0 <= i < -r - 1 ==> es[i].gf < key)
                      && (forall i :: -r - 1 <= i < |es| ==> key < es[i].gf)
  {
    BinarySearch(es, key, 0, |es| - 1)
  }

  /** scoreAimGF as written: an exact hit at index 0 fails the `i > 0` test
      and reads `edges[-2]`, an ArrayIndexOutOfBoundsException (None). */
  function ScoreAimGFAsWritten(m: KNNAimModel, gf: real): (r: Option<real>)
    requires ValidModel(m)
    ensures r.None? ==> m.sweep.Some? && |m.sweep.value.edges| > 0 && m.sweep.value.edges[0].gf == gf
  {
    match m.sweep
    case None => Some(0.5)
    case Some(sw) =>
      var i := Search(sw.edges, gf);
      if i > 0 then Some(sw.probs[i])
      else
        var j := -i - 1;
        if j == 0 then Some(0.0)
        else if j - 1 < 0 then None
        else Some(sw.probs[j - 1])
  }

  /** Edge `j` starts the sweep step holding `gf`, and `r` is its probability. */
  predicate StepAt(sw: Sweep, gf: real, j: int, r: real)
    requires ValidSweep(sw) && 0 <= j < |sw.edges|
  {
    sw.edges[j].gf <= gf && (j + 1 == |sw.edges| || gf <= sw.edges[j + 1].gf) && r == sw.probs[j]
  }

  /** KNNAimModel.scoreAimGF with the intended `i >= 0`: the cumulative
      probability of the sweep step that holds `gf`; 0 before the first
      edge, 0.5 when there has been no sweep. */
  function ScoreAimGF(m: KNNAimModel, gf: real): (r: real)
    requires ValidModel(m)
    ensures m.sweep.None? ==> r == 0.5
    ensures m.sweep.Some? && (|m.sweep.value.edges| == 0 || gf < m.sweep.value.edges[0].gf) ==> r == 0.0
    ensures m.sweep.Some? && |m.sweep.value.edges| > 0 && m.sweep.value.edges[0].gf <= gf ==>
              exists j :: 0 <= j < |m.sweep.value.edges| && StepAt(m.sweep.value, gf, j, r)
  {
    match m.sweep
    case None => 0.5
    case Some(sw) =>
      var i := Search(sw.edges, gf);
      if i >= 0 then
        assert i + 1 == |sw.edges| || gf <= sw.edges[i + 1].gf by {
          if i + 1 < |sw.edges| {
            assert EdgeKey(sw.edges[i]) <= EdgeKey(sw.edges[i + 1]);
          }
        }
        assert sw.edges[0].gf <= gf by {
          if i > 0 {
            assert EdgeKey(sw.edges[0]) <= EdgeKey(sw.edges[i]);
          }
        }
        assert StepAt(sw, gf, i, sw.probs[i]);
        sw.probs[i]
      else
        var j := -i - 1;
        if j == 0 then 0.0
        else
          assert StepAt(sw, gf, j - 1, sw.probs[j - 1]);
          sw.probs[j - 1]
  }

  /** Where the as-written scoreAimGF answers at all, it answers the same as
      the corrected one. */
  lemma ScoreAsWrittenAgreesWhenDefined(m: KNNAimModel, gf: real)
    requires ValidModel(m) && ScoreAimGFAsWritten(m, gf).Some?
    ensures ScoreAimGFAsWritten(m, gf).value == ScoreAimGF(m, gf)
  {
  }

  /** A guess factor that is exactly the first edge makes the as-written
      scoreAimGF throw, where the corrected one reads that edge's probability. */
  lemma ScoreAsWrittenThrowsOnFirstEdge(m: KNNAimModel)
    requires ValidModel(m)
    ensures var m' := m.(sweep := Some(Sweep([VisitEdge(-0.5, 0.0, 1.0), VisitEdge(0.5, 0.0, -1.0)], [1.0, 0.0])));
            ValidModel(m') && ScoreAimGFAsWritten(m', -0.5).None? && ScoreAimGF(m', -0.5) == 1.0
  {
    var es := [VisitEdge(-0.5, 0.0, 1.0), VisitEdge(0.5, 0.0, -1.0)];
    assert SortedBy(es, EdgeKey);
    assert Search(es, -0.5) == 0;
  }

  // ---------------------------------------------------------------------------
  // Sampling further aim angles
  // ---------------------------------------------------------------------------

  /** An edge at an even index of the sorted array, entered into getAimGFs'
      queue: its Gumbel sample score and the middle of its range. */
  datatype Candidate = Candidate(score: real, middle: real)

  /** The queue after the loop, and the candidates poll() took out of it. */
  datatype Selection = Selection(kept: seq<Candidate>, dropped: seq<Candidate>)

  /** `a` leaves the queue before `b`: with the comparator as written the
      queue head is the highest score; intended is the lowest. */
  predicate PolledFirst(a: Candidate, b: Candidate, pollHighest: bool) {
    if pollHighest then a.score >= b.score else a.score <= b.score
  }

  /** The candidate poll() takes: the queue's head under the comparator. */
  function PollIndex(q: seq<Candidate>, pollHighest: bool): (j: nat)
    requires |q| > 0
    ensures j < |q|
    ensures forall k :: 0 <= k < |q| ==> PolledFirst(q[j], q[k], pollHighest)
  {
    if |q| == 1 then 0
    else
      var j := PollIndex(q[1..], pollHighest) + 1;
      assert forall k :: 1 <= k < |q| ==> q[k] == q[1..][k - 1];
      if PolledFirst(q[0], q[j], pollHighest) then 0 else j
  }

  /** Every dropped candidate left the queue before every kept one would. */
  predicate Ranked(s: Selection, pollHighest: bool) {
    forall i, j :: 0 <= i < |s.kept| && 0 <= j < |s.dropped| ==> PolledFirst(s.dropped[j], s.kept[i], pollHighest)
  }

  /** One loop step: add the candidate, then poll while the queue holds more
      than `cap` (numAngles - 1) entries. */
  function Offer(s: Selection, c: Candidate, cap: nat, pollHighest: bool): Selection {
    var q := s.kept + [c];
    if |q| > cap then
      var j := PollIndex(q, pollHighest);
      Selection(q[..j] + q[j + 1..], s.dropped + [q[j]])
    else Selection(q, s.dropped)
  }

  /** Polling the head keeps the dropped candidates ahead of the kept ones. */
  lemma PollKeepsRanking(s: Selection, c: Candidate, pollHighest: bool)
    requires Ranked(s, pollHighest)
    ensures var q := s.kept + [c];
            var j := PollIndex(q, pollHighest);
            Ranked(Selection(q[..j] + q[j + 1..], s.dropped + [q[j]]), pollHighest)
  {
    var q := s.kept + [c];
    var j := PollIndex(q, pollHighest);
    var t := Selection(q[..j] + q[j + 1..], s.dropped + [q[j]]);
    forall a, b | 0 <= a < |t.kept| && 0 <= b < |t.dropped|
      ensures PolledFirst(t.dropped[b], t.kept[a], pollHighest)
    {
      var k := if a < j then a else a + 1;
      assert t.kept[a] == q[k];
      assert PolledFirst(q[j], q[k], pollHighest);
      if b < |s.dropped| {
        assert t.dropped[b] == s.dropped[b];
        if k < |s.kept| {
          assert PolledFirst(s.dropped[b], s.kept[k], pollHighest);
        } else {
          assert q[j] == s.kept[j];
          assert PolledFirst(s.dropped[b], s.kept[j], pollHighest);
        }
      }
    }
  }

  lemma OfferStep(s: Selection, c: Candidate, cap: nat, pollHighest: bool, n: nat)
    requires |s.kept| == MinInt(n, cap) && |s.kept| + |s.dropped| == n
    requires Ranked(s, pollHighest)
    ensures var t := Offer(s, c, cap, pollHighest);
            && Ranked(t, pollHighest)
            && |t.kept| == MinInt(n + 1, cap) && |t.kept| + |t.dropped| == n + 1
            && multiset(t.kept) + multiset(t.dropped) == multiset(s.kept) + multiset(s.dropped) + multiset{c}
  {
    if |s.kept| + 1 > cap {
      OfferPollStep(s, c, cap, pollHighest, n);
    } else {
      OfferKeepStep(s, c, cap, pollHighest, n);
    }
  }

  /** OfferStep when the queue overflows and one entry is polled. */
  lemma OfferPollStep(s: Selection, c: Candidate, cap: nat, pollHighest: bool, n: nat)
    requires |s.kept| == MinInt(n, cap) && |s.kept| + |s.dropped| == n
    requires Ranked(s, pollHighest) && |s.kept| + 1 > cap
    ensures var t := Offer(s, c, cap, pollHighest);
            && Ranked(t, pollHighest)
            && |t.kept| == MinInt(n + 1, cap) && |t.kept| + |t.dropped| == n + 1
            && multiset(t.kept) + multiset(t.dropped) == multiset(s.kept) + multiset(s.dropped) + multiset{c}
  {
    var q := s.kept + [c];
    var j := PollIndex(q, pollHighest);
    PollKeepsCandidates(s, c, j);
    PollKeepsRanking(s, c, pollHighest);
  }

  /** OfferStep when the queue has room: nothing has been dropped yet. */
  lemma OfferKeepStep(s: Selection, c: Candidate, cap: nat, pollHighest: bool, n: nat)
    requires |s.kept| == MinInt(n, cap) && |s.kept| + |s.dropped| == n
    requires Ranked(s, pollHighest) && |s.kept| + 1 <= cap
    ensures var t := Offer(s, c, cap, pollHighest);
            && Ranked(t, pollHighest)
            && |t.kept| == MinInt(n + 1, cap) && |t.kept| + |t.dropped| == n + 1
            && multiset(t.kept) + multiset(t.dropped) == multiset(s.kept) + multiset(s.dropped) + multiset{c}
  {
    assert |s.dropped| == 0;
  }

  /** Polling any queue entry loses no candidate: it moves to the dropped ones. */
  lemma PollKeepsCandidates(s: Selection, c: Candidate, j: nat)
    requires j < |s.kept| + 1
    ensures var q := s.kept + [c];
            multiset(q[..j] + q[j + 1..]) + multiset(s.dropped + [q[j]])
              == multiset(s.kept) + multiset(s.dropped) + multiset{c}
  {
    var q := s.kept + [c];
    RemoveAtMultiset(q, j);
    assert multiset(q) == multiset(s.kept) + multiset{c};
    assert multiset(s.dropped + [q[j]]) == multiset(s.dropped) + multiset{q[j]};
  }

  /** getAimGFs' queue loop over the candidates, in order. */
  function Select(cands: seq<Candidate>, cap: nat, pollHighest: bool): (s: Selection)
    ensures Ranked(s, pollHighest)
    ensures |s.kept| == MinInt(|cands|, cap) && |s.kept| + |s.dropped| == |cands|
    ensures multiset(s.kept) + multiset(s.dropped) == multiset(cands)
    decreases |cands|
  {
    if |cands| == 0 then Selection([], [])
    else
      var n := |cands| - 1;
      var prev := Select(cands[..n], cap, pollHighest);
      OfferStep(prev, cands[n], cap, pollHighest, n);
      assert cands == cands[..n] + [cands[n]];
      Offer(prev, cands[n], cap, pollHighest)
  }

  /** Of three candidates scored in increasing order, the first is polled
      first when the highest is polled first, and the last otherwise. */
  lemma ExtremeOfThree(c1: Candidate, c2: Candidate, c3: Candidate, pollHighest: bool)
    requires c1.score < c2.score < c3.score
    ensures var x := if pollHighest then c1 else c3;
            forall y :: y in [c1, c2, c3] && y != x ==> !PolledFirst(x, y, pollHighest)
  {
    var x := if pollHighest then c1 else c3;
    forall y | y in [c1, c2, c3] && y != x
      ensures !PolledFirst(x, y, pollHighest)
    {
      assert y == c1 || y == c2 || y == c3;
    }
  }

  /** As written, poll() removes the highest score, so the queue ends up
      holding the lowest-scoring candidates: three candidates scored in
      increasing order with room for one keep the first, where the
      Gumbel-max trick wants the last (scores 1, 2, 3 keep the 1). */
  lemma SelectAsWrittenKeepsLowest(c1: Candidate, c2: Candidate, c3: Candidate)
    requires c1.score < c2.score < c3.score
    ensures Select([c1, c2, c3], 1, true).kept == [c1]
  {
    ExtremeOfThree(c1, c2, c3, true);
    OnlyExtremeSurvives(Select([c1, c2, c3], 1, true), [c1, c2, c3], c1, true);
  }

  /** With the intended comparator the same queue keeps the last. */
  lemma SelectKeepsHighest(c1: Candidate, c2: Candidate, c3: Candidate)
    requires c1.score < c2.score < c3.score
    ensures Select([c1, c2, c3], 1, false).kept == [c3]
  {
    ExtremeOfThree(c1, c2, c3, false);
    OnlyExtremeSurvives(Select([c1, c2, c3], 1, false), [c1, c2, c3], c3, false);
  }

  /** A one-place ranked selection keeps the candidate that every other
      candidate is strictly polled before. */
  lemma OnlyExtremeSurvives(s: Selection, cands: seq<Candidate>, x: Candidate, pollHighest: bool)
    requires Ranked(s, pollHighest) && |s.kept| == 1
    requires multiset(s.kept) + multiset(s.dropped) == multiset(cands)
    requires x in cands
    requires forall y :: y in cands && y != x ==> !PolledFirst(x, y, pollHighest)
    ensures s.kept == [x]
  {
    var k := s.kept[0];
    assert s.kept == [k];
    assert k in multiset(cands);
    var i :| 0 <= i < |cands| && cands[i] == k;
    assert x in multiset(s.kept) + multiset(s.dropped);
    if x in multiset(s.dropped) {
      var j :| 0 <= j < |s.dropped| && s.dropped[j] == x;
      assert PolledFirst(x, k, pollHighest);
    }
  }

  /** The Gumbel-perturbed candidates of getAimGFs: the edges at even
      indices of the sorted array, the i-th scored with the i-th draw of
      Math.random as log(weight) - log(-log(u)). */
  function Candidates(es: seq<VisitEdge>, log: real -> real, uniform: nat -> real): (cs: seq<Candidate>)
    ensures |cs| == (|es| + 1) / 2
    ensures forall i :: 0 <= i < |cs| ==>
              cs[i] == Candidate(log(es[2 * i].weight) - log(-log(uniform(i))), es[2 * i].middle)
  {
    seq((|es| + 1) / 2, i requires 0 <= i < (|es| + 1) / 2 =>
      Candidate(log(es[2 * i].weight) - log(-log(uniform(i))), es[2 * i].middle))
  }

  function Middles(cs: seq<Candidate>): (r: seq<real>)
    ensures |r| == |cs| && forall i :: 0 <= i < |cs| ==> r[i] == cs[i].middle
  {
    seq(|cs|, i requires 0 <= i < |cs| => cs[i].middle)
  }

  /** The part of getAimGFs after the best angle: nothing more without a
      sweep or with numAngles 1, an IllegalArgumentException (None) from
      the queue's constructor when numAngles < 1, else the best angle
      followed by the middles the queue kept. */
  function SampleAngles(best: real, sweep: Option<Sweep>, numAngles: int, log: real -> real,
                        uniform: nat -> real, pollHighest: bool): (r: Option<seq<real>>)
    ensures sweep.None? || numAngles == 1 ==> r == Some([best])
    ensures r.None? <==> sweep.Some? && numAngles < 1
    ensures r.Some? ==> |r.value| >= 1 && r.value[0] == best
    ensures r.Some? && sweep.Some? && numAngles > 1 ==>
              var sel := Select(Candidates(sweep.value.edges, log, uniform), numAngles - 1, pollHighest);
              r.value[1..] == Middles(sel.kept)
              && |r.value| == 1 + MinInt((|sweep.value.edges| + 1) / 2, numAngles - 1)
  {
    if sweep.None? || numAngles == 1 then Some([best])
    else if numAngles < 1 then None
    else
      var sel := Select(Candidates(sweep.value.edges, log, uniform), numAngles - 1, pollHighest);
      Some([best] + Middles(sel.kept))
  }

  /** KNNAimModel.getAimGFs with the queue the sampling intends (keeping the
      numAngles - 1 highest scores): the best angle, then one range middle
      per kept even-index edge; every candidate left out scored no higher than
      every one kept. The random draws and log are oracles. */
  method GetAimGFs(m: KNNAimModel, query: seq<real>, ns: seq<Neighbor<Ranges.Range>>, exp: real -> real,
                   numAngles: int, log: real -> real, uniform: nat -> real)
    returns (r: Option<seq<real>>, m': KNNAimModel)
    requires ValidModel(m) && Positive(exp)
    requires ValidNeighbors(m.tree, query, GetNumNeighbors(m.config, m.tree), ns)
    ensures ValidModel(m') && (|ns| == 0 ==> m' == m)
    ensures r.None? <==> m'.sweep.Some? && numAngles < 1
    ensures r.Some? ==> |r.value| >= 1 && -GF_LIMIT <= r.value[0] <= GF_LIMIT
    ensures r.Some? && m'.sweep.Some? && numAngles > 1 ==>
              var sel := Select(Candidates(m'.sweep.value.edges, log, uniform), numAngles - 1, false);
              && r.value[1..] == Middles(sel.kept)
              && (forall i, j :: 0 <= i < |sel.kept| && 0 <= j < |sel.dropped| ==>
                    sel.dropped[j].score <= sel.kept[i].score)
  {
    var best;
    best, m' := GetAimGF(m, query, GetNumNeighbors(m.config, m.tree), ns, exp);
    r := SampleAngles(best, m'.sweep, numAngles, log, uniform, false);
  }
}
