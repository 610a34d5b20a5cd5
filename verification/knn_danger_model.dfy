/** kc.mega.move.models.KNNDangerModel: the danger of each guess-factor bin is
    the softmax weight of the nearest past waves whose hit landed in it. */
module KNNDangerModels {
  import opened MathUtils
  import opened WaveModel
  import opened GFBins
  import opened WaveKNNs

  datatype KNNDangerModel = KNNDangerModel(config: Config, tree: Tree<real>, bins: Bins)

  /** Every stored label is a guess factor the bins can index. */
  predicate LabelsInRange(t: Tree<real>) {
    forall p :: 0 <= p < |t.points| ==> -GF_LIMIT <= t.points[p].value <= GF_LIMIT
  }

  predicate ValidModel(m: KNNDangerModel) {
    Valid(m.bins) && m.tree.maxSize >= 1 && |m.tree.points| <= m.tree.maxSize && LabelsInRange(m.tree)
  }

  /** KNNDangerModel.train: one point, labelled with the wave's hit guess factor. */
  function Train(m: KNNDangerModel, w: FeaturedWave, pow: (real, real) -> real): (r: KNNDangerModel)
    requires ValidModel(m) && WellFormed(w.wave) && CanEmbed(m.config, w.features)
    ensures ValidModel(r) && r.config == m.config && r.bins == m.bins
    ensures Size(r.tree) == MinInt(Size(m.tree) + 1, m.tree.maxSize)
    ensures r.tree.points[Size(r.tree) - 1] == Point(Embed(m.config, w.features, pow), HitGF(w.wave))
  {
    var e := Embed(m.config, w.features, pow);
    var gf := HitGF(w.wave);
    AddPointKeepsLabels(m.tree, e, gf);
    m.(tree := AddPoint(m.tree, e, gf))
  }

  /** Storing a point labelled with a guess factor keeps every label one. */
  lemma AddPointKeepsLabels(t: Tree<real>, e: seq<real>, v: real)
    requires t.maxSize >= 1 && |t.points| <= t.maxSize && LabelsInRange(t)
    requires -GF_LIMIT <= v <= GF_LIMIT
    ensures LabelsInRange(AddPoint(t, e, v))
  {
    var r := AddPoint(t, e, v);
    forall p | 0 <= p < |r.points|
      ensures -GF_LIMIT <= r.points[p].value <= GF_LIMIT
    {
      if p < |r.points| - 1 {
        assert r.points[p] == r.points[..|r.points| - 1][p];
        assert r.points[p] == t.points[|t.points| + 1 - |r.points| + p];
      }
    }
  }

  /** The reference meaning of a danger bin: the total weight of the first `n`
      neighbours whose label falls in bin `b`. */
  function BinMass(bins: Bins, ns: seq<Neighbor<real>>, weights: seq<real>, n: nat, b: int): real
    requires Valid(bins) && n <= |ns| && |weights| == |ns|
  {
    if n == 0 then 0.0
    else BinMass(bins, ns, weights, n - 1, b) + (if GetBin(bins, ns[n - 1].value) == b then weights[n - 1] else 0.0)
  }

  /** A bin that no neighbour's label falls in gets no danger. */
  lemma {:induction false} BinMassOfUnhitBin(bins: Bins, ns: seq<Neighbor<real>>, weights: seq<real>, n: nat, b: int)
    requires Valid(bins) && n <= |ns| && |weights| == |ns|
    requires forall i :: 0 <= i < n ==> GetBin(bins, ns[i].value) != b
    ensures BinMass(bins, ns, weights, n, b) == 0.0
  {
    if n > 0 {
      BinMassOfUnhitBin(bins, ns, weights, n - 1, b);
    }
  }

  /** The neighbours' labels come from the tree, so they index the bins. */
  lemma NeighborLabelsInRange(m: KNNDangerModel, query: seq<real>, count: int, ns: seq<Neighbor<real>>)
    requires ValidModel(m) && ValidNeighbors(m.tree, query, count, ns)
    ensures forall i :: 0 <= i < |ns| ==> 0 <= GetBin(m.bins, ns[i].value) < m.bins.nBins
  {
    forall i | 0 <= i < |ns| ensures 0 <= GetBin(m.bins, ns[i].value) < m.bins.nBins {
      var p :| 0 <= p < |m.tree.points| && |m.tree.points[p].embedding| == |query|
               && ns[i].value == m.tree.points[p].value
               && ns[i].distance == Manhattan(query, m.tree.points[p].embedding);
      GetBinInRange(m.bins, ns[i].value);
    }
  }

  /** KNNDangerModel.getDangers: each neighbour's weight is added to the bin
      of its label. The neighbour search is the oracle answer `ns`. */
  method GetDangers(m: KNNDangerModel, w: FeaturedWave, pow: (real, real) -> real,
                    ns: seq<Neighbor<real>>, exp: real -> real) returns (dangers: seq<real>)
    requires ValidModel(m) && Positive(exp) && CanEmbed(m.config, w.features)
    requires ValidNeighbors(m.tree, Embed(m.config, w.features, pow), GetNumNeighbors(m.config, m.tree), ns)
    ensures |dangers| == m.bins.nBins
    ensures |ns| == 0 ==> forall b :: 0 <= b < |dangers| ==> dangers[b] == 0.0
    ensures forall b :: 0 <= b < |dangers| ==>
              dangers[b] == BinMass(m.bins, ns, GetWeights(ns, m.config.distanceScale, exp), |ns|, b)
    ensures forall b :: 0 <= b < |dangers| && dangers[b] != 0.0 ==>
              exists i :: 0 <= i < |ns| && GetBin(m.bins, ns[i].value) == b
    ensures |ns| > 0 ==> Sum(dangers) == 1.0
  {
    if |ns| == 0 {
      return ZeroArray(m.bins.nBins);
    }
    var weights := GetWeights(ns, m.config.distanceScale, exp);
    NeighborLabelsInRange(m, Embed(m.config, w.features, pow), GetNumNeighbors(m.config, m.tree), ns);
    dangers := Scatter(m.bins, ns, weights);
    forall b | 0 <= b < |dangers| && dangers[b] != 0.0
      ensures exists i :: 0 <= i < |ns| && GetBin(m.bins, ns[i].value) == b
    {
      if forall i :: 0 <= i < |ns| ==> GetBin(m.bins, ns[i].value) != b {
        BinMassOfUnhitBin(m.bins, ns, weights, |ns|, b);
      }
    }
  }

  /** The loop of getDangers: scatters the weights into their labels' bins. */
  method Scatter(bins: Bins, ns: seq<Neighbor<real>>, weights: seq<real>) returns (dangers: seq<real>)
    requires Valid(bins) && |weights| == |ns|
    requires forall i :: 0 <= i < |ns| ==> 0 <= GetBin(bins, ns[i].value) < bins.nBins
    ensures |dangers| == bins.nBins
    ensures forall b :: 0 <= b < |dangers| ==> dangers[b] == BinMass(bins, ns, weights, |ns|, b)
    ensures Sum(dangers) == Sum(weights)
  {
    dangers := ZeroArray(bins.nBins);
    SumOfZeroArray(bins.nBins);
    var i := 0;
    while i < |ns|
      invariant 0 <= i <= |ns|
      invariant |dangers| == bins.nBins
      invariant forall b :: 0 <= b < |dangers| ==> dangers[b] == BinMass(bins, ns, weights, i, b)
      invariant Sum(dangers) == Sum(weights[..i])
    {
      var bin := GetBin(bins, ns[i].value);
      SumUpdate(dangers, bin, weights[i]);
      assert weights[..i + 1] == weights[..i] + [weights[i]];
      SumAppend(weights[..i], weights[i]);
      dangers := dangers[bin := dangers[bin] + weights[i]];
      i := i + 1;
    }
    assert weights[..|ns|] == weights;
  }
}
