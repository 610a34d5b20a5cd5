/** kc.mega.model.WaveKNN: nearest-neighbour lookup over wave features. The
    KD-tree is a bag of (embedding, value) points with a capacity; its
    nearest-neighbour search is an oracle whose answers are only required to
    be points of the tree at their true Manhattan distance. */
module WaveKNNs {
  import opened MathUtils
  import opened WaveModel

  /** A wave together with its named, normalised features (the map that
      getNormalizedFeatures builds). */
  datatype FeaturedWave = FeaturedWave(wave: Wave, features: map<string, real>)

  datatype Point<T> = Point(embedding: seq<real>, value: T)

  /** The KD-tree's contents, oldest point first, and its size limit. */
  datatype Tree<T> = Tree(points: seq<Point<T>>, maxSize: nat)

  /** A neighbour as the tree reports it. */
  datatype Neighbor<T> = Neighbor(distance: real, value: T)

  /** The model's configuration: the feature names, each feature's scaling
      parameters, the distance-to-logit scale and the neighbourhood sizing. */
  datatype Config = Config(features: seq<string>, params: seq<seq<real>>, distanceScale: real,
                           maxNeighbors: int, neighborhoodSizeDivider: real)

  const INT_MAX: int := 0x7fff_ffff
  const INT_MIN: int := -0x8000_0000

  /** Java's `(int)` cast of a double: truncation toward zero, saturating at
      the int range. NaN (0.0 / 0.0) is handled by the caller. */
  function JavaIntCast(x: real): (r: int)
    ensures INT_MIN <= r <= INT_MAX
    ensures INT_MIN <= Truncate(x) <= INT_MAX ==> r == Truncate(x)
  {
    ClipInt(Truncate(x), INT_MIN, INT_MAX)
  }

  /** The number of points in the tree. */
  function Size<T>(t: Tree<T>): nat {
    |t.points|
  }

  /** KdTree.addPoint as WaveKNN.addPoint uses it: the new point is appended
      and, past the size limit, the oldest point is dropped. */
  function AddPoint<T>(t: Tree<T>, embedding: seq<real>, value: T): (r: Tree<T>)
    requires t.maxSize >= 1 && |t.points| <= t.maxSize
    ensures |r.points| <= r.maxSize && r.maxSize == t.maxSize
    ensures |r.points| == MinInt(|t.points| + 1, t.maxSize)
    ensures r.points[|r.points| - 1] == Point(embedding, value)
    ensures r.points[..|r.points| - 1] == t.points[|t.points| + 1 - |r.points|..]
  {
    var all := t.points + [Point(embedding, value)];
    if |all| > t.maxSize then t.(points := all[1..]) else t.(points := all)
  }

  /** WaveKNN.getNumNeighbors: a neighbourhood that grows with the data, at
      least 5 and at most maxNeighbors. */
  function GetNumNeighbors<T>(c: Config, t: Tree<T>): (k: int)
    ensures k <= c.maxNeighbors
    ensures c.maxNeighbors >= 5 ==> k >= 5
    ensures k == c.maxNeighbors || k == 5 || k == SizeQuotient(c, Size(t))
  {
    MinInt(c.maxNeighbors, MaxInt(5, SizeQuotient(c, Size(t))))
  }

  /** `(int)(tree.size() / neighborhoodSizeDivider)`, including the double
      division by zero: 0/0 is NaN, which casts to 0, and n/0 is +infinity,
      which casts to Integer.MAX_VALUE. */
  function SizeQuotient(c: Config, size: nat): int {
    if c.neighborhoodSizeDivider == 0.0 then (if size == 0 then 0 else INT_MAX)
    else JavaIntCast((size as real) / c.neighborhoodSizeDivider)
  }

  lemma TruncateMonotone(x: real, y: real)
    requires 0.0 <= x <= y
    ensures Truncate(x) <= Truncate(y)
  {
  }

  /** With a positive divider, more data never shrinks the neighbourhood. */
  lemma NumNeighborsGrowWithData<T>(c: Config, t: Tree<T>, u: Tree<T>)
    requires c.neighborhoodSizeDivider > 0.0
    requires Size(t) <= Size(u)
    ensures GetNumNeighbors(c, t) <= GetNumNeighbors(c, u)
  {
    var d := c.neighborhoodSizeDivider;
    var x := (Size(t) as real) / d;
    var y := (Size(u) as real) / d;
    DivideMonotone(0.0, Size(t) as real, d);
    DivideMonotone(Size(t) as real, Size(u) as real, d);
    assert 0.0 / d == 0.0;
    TruncateMonotone(x, y);
  }

  /** WaveKNN.isEmpty, whose name is inverted: it holds exactly when the tree
      has points. */
  predicate IsEmpty<T>(t: Tree<T>) {
    Size(t) > 0
  }

  /** After any training point, `isEmpty` reports true. */
  lemma TrainedTreeIsEmptyAsNamed<T>(t: Tree<T>, embedding: seq<real>, value: T)
    requires t.maxSize >= 1 && |t.points| <= t.maxSize
    ensures IsEmpty(AddPoint(t, embedding, value))
    ensures !IsEmpty(t.(points := []))
  {
  }

  /** A feature's parameters are one scale, or a scale, an offset and an
      exponent (two parameters make Java index past the array). */
  predicate ValidParams(p: seq<real>) {
    |p| == 1 || |p| >= 3
  }

  predicate CanEmbed(c: Config, features: map<string, real>) {
    && |c.params| == |c.features|
    && (forall i :: 0 <= i < |c.params| ==> ValidParams(c.params[i]))
    && (forall i :: 0 <= i < |c.features| ==> c.features[i] in features)
  }

  /** One embedded coordinate. */
  function EmbedOne(p: seq<real>, v: real, pow: (real, real) -> real): real
    requires ValidParams(p)
  {
    if |p| == 1 then p[0] * v else p[0] * pow(1e-4 + p[1] + v, p[2])
  }

  /** WaveKNN.embed without the optional neural network: one coordinate per
      configured feature, in configuration order. */
  function Embed(c: Config, features: map<string, real>, pow: (real, real) -> real): (e: seq<real>)
    requires CanEmbed(c, features)
    ensures |e| == |c.features|
    ensures forall i :: 0 <= i < |e| ==> e[i] == EmbedOne(c.params[i], features[c.features[i]], pow)
  {
    seq(|c.features|, i requires 0 <= i < |c.features| => EmbedOne(c.params[i], features[c.features[i]], pow))
  }

  /** The KdTree.Manhattan metric. */
  function Manhattan(a: seq<real>, b: seq<real>): real
    requires |a| == |b|
  {
    if |a| == 0 then 0.0 else Abs(a[0] - b[0]) + Manhattan(a[1..], b[1..])
  }

  /** The feature-space metric linear embeddings induce: each feature's
      difference weighted by the magnitude of its scale. */
  function WeightedDistance(scales: seq<real>, a: seq<real>, b: seq<real>): real
    requires |scales| == |a| == |b|
  {
    if |a| == 0 then 0.0 else Abs(scales[0]) * Abs(a[0] - b[0]) + WeightedDistance(scales[1..], a[1..], b[1..])
  }

  lemma ScaledDifference(p: real, x: real, y: real)
    ensures Abs(p * x - p * y) == Abs(p) * Abs(x - y)
  {
    assert p * x - p * y == p * (x - y);
    if p < 0.0 && x - y < 0.0 { MulNonNegative(-p, -(x - y)); }
    if p >= 0.0 && x - y >= 0.0 { MulNonNegative(p, x - y); }
    if p < 0.0 && x - y >= 0.0 { MulNonNegative(-p, x - y); }
    if p >= 0.0 && x - y < 0.0 { MulNonNegative(p, -(x - y)); }
  }

  /** The embedding of a feature vector when every feature is linear. */
  function Scaled(scales: seq<real>, a: seq<real>): (e: seq<real>)
    requires |scales| == |a|
    ensures |e| == |a|
    ensures forall i :: 0 <= i < |a| ==> e[i] == scales[i] * a[i]
  {
    seq(|a|, i requires 0 <= i < |a| => scales[i] * a[i])
  }

  /** Coordinate-wise scaling turns the tree's Manhattan metric into the
      scale-weighted distance between the raw feature vectors. */
  lemma {:induction false} LinearEmbeddingDistance(scales: seq<real>, a: seq<real>, b: seq<real>)
    requires |scales| == |a| == |b|
    ensures Manhattan(Scaled(scales, a), Scaled(scales, b)) == WeightedDistance(scales, a, b)
  {
    if |a| > 0 {
      var ea, eb := Scaled(scales, a), Scaled(scales, b);
      LinearEmbeddingDistance(scales[1..], a[1..], b[1..]);
      ScaledTail(scales, a);
      ScaledTail(scales, b);
      ScaledHead(scales, a, b);
      assert Manhattan(ea, eb) == Abs(ea[0] - eb[0]) + Manhattan(ea[1..], eb[1..]);
    }
  }

  lemma ScaledHead(scales: seq<real>, a: seq<real>, b: seq<real>)
    requires |scales| == |a| == |b| > 0
    ensures Abs(Scaled(scales, a)[0] - Scaled(scales, b)[0]) == Abs(scales[0]) * Abs(a[0] - b[0])
  {
    ScaledDifference(scales[0], a[0], b[0]);
  }

  lemma ScaledTail(scales: seq<real>, a: seq<real>)
    requires |scales| == |a| > 0
    ensures Scaled(scales, a)[1..] == Scaled(scales[1..], a[1..])
  {
    var l := Scaled(scales, a)[1..];
    var r := Scaled(scales[1..], a[1..]);
    forall i | 0 <= i < |l| ensures l[i] == r[i] {
      assert l[i] == Scaled(scales, a)[i + 1];
    }
  }

  /** With only linear features, Embed is that scaling. */
  lemma LinearEmbedIsScaled(c: Config, features: map<string, real>, pow: (real, real) -> real)
    requires CanEmbed(c, features)
    requires forall i :: 0 <= i < |c.params| ==> |c.params[i]| == 1
    ensures Embed(c, features, pow) ==
            Scaled(seq(|c.params|, i requires 0 <= i < |c.params| => c.params[i][0]),
                   seq(|c.features|, i requires 0 <= i < |c.features| => features[c.features[i]]))
  {
    var scales := seq(|c.params|, i requires 0 <= i < |c.params| => c.params[i][0]);
    var values := seq(|c.features|, i requires 0 <= i < |c.features| => features[c.features[i]]);
    var e := Embed(c, features, pow);
    forall i | 0 <= i < |e| ensures e[i] == Scaled(scales, values)[i] {
      assert e[i] == EmbedOne(c.params[i], features[c.features[i]], pow);
    }
  }

  /** What the tree's search may answer for a query and a count: min(count,
      size) entries, each a point of the tree at its Manhattan distance. */
  predicate ValidNeighbors<T(==)>(t: Tree<T>, query: seq<real>, count: int, ns: seq<Neighbor<T>>) {
    && |ns| == MaxInt(0, MinInt(count, Size(t)))
    && forall j :: 0 <= j < |ns| ==>
         exists p :: 0 <= p < |t.points| && |t.points[p].embedding| == |query|
                     && ns[j].value == t.points[p].value
                     && ns[j].distance == Manhattan(query, t.points[p].embedding)
  }

  /** The logits getWeights builds. */
  function Logits<T>(ns: seq<Neighbor<T>>, distanceScale: real): (l: seq<real>)
    ensures |l| == |ns|
  {
    seq(|ns|, i requires 0 <= i < |ns| => ns[i].distance * distanceScale)
  }

  /** The running maximum of getWeights; unused when there are no logits. */
  function MaxOf(l: seq<real>): (m: real)
    ensures forall i :: 0 <= i < |l| ==> l[i] <= m
    ensures |l| > 0 ==> exists i :: 0 <= i < |l| && l[i] == m
  {
    if |l| == 0 then 0.0
    else if |l| == 1 then l[0]
    else
      var rest := MaxOf(l[1..]);
      assert forall i :: 1 <= i < |l| ==> l[i] == l[1..][i - 1];
      Max(l[0], rest)
  }

  /** WaveKNN.getWeights: softmax of distance * distanceScale. */
  function GetWeights<T>(ns: seq<Neighbor<T>>, distanceScale: real, exp: real -> real): (w: seq<real>)
    requires Positive(exp)
    ensures |w| == |ns|
    ensures forall i :: 0 <= i < |w| ==> 0.0 < w[i] <= 1.0
    ensures |ns| > 0 ==> Sum(w) == 1.0
  {
    var l := Logits(ns, distanceScale);
    Softmax(l, MaxOf(l), exp)
  }

  /** With a negative distance scale and a monotone exponential, a nearer
      neighbour never gets a smaller weight. */
  lemma NearerNeighborWeighsMore<T>(ns: seq<Neighbor<T>>, distanceScale: real, exp: real -> real, i: int, j: int)
    requires Positive(exp) && Monotone(exp)
    requires distanceScale < 0.0
    requires 0 <= i < |ns| && 0 <= j < |ns| && ns[j].distance <= ns[i].distance
    ensures GetWeights(ns, distanceScale, exp)[i] <= GetWeights(ns, distanceScale, exp)[j]
  {
    var l := Logits(ns, distanceScale);
    assert (ns[i].distance - ns[j].distance) * (-distanceScale) >= 0.0 by {
      MulNonNegative(ns[i].distance - ns[j].distance, -distanceScale);
    }
    assert l[i] <= l[j];
    SoftmaxMonotone(l, MaxOf(l), exp, i, j);
  }
}
