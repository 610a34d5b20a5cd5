/** kc.mega.wave.GFBins: the guess-factor axis [-1, 1] cut into `nBins` equal
    bins, with the bin lookup, the overlap weight of a GF range on a bin, and
    the exponential kernel used to smear a GF over nearby bins. */
module GFBins {
  import opened MathUtils
  import opened Ranges

  /** -Math.log(0.02): the kernel is cut off where it falls below 2% weight. */
  const NEG_LOG_TWO_PERCENT: real := 3.912023005428146

  datatype Bins = Bins(nBins: nat)

  predicate Valid(b: Bins) { b.nBins > 0 }

  function BinWidth(b: Bins): (w: real)
    requires Valid(b)
    ensures w > 0.0
    ensures w * (b.nBins as real) == 2.0
  {
    2.0 / (b.nBins as real)
  }

  /** lowerGF[i], upperGF[i] and midPoint[i] of the constructor. */
  function LowerGF(b: Bins, i: int): real requires Valid(b) { (i as real) * BinWidth(b) - 1.0 }
  function UpperGF(b: Bins, i: int): real requires Valid(b) { ((i + 1) as real) * BinWidth(b) - 1.0 }
  function MidPoint(b: Bins, i: int): real requires Valid(b) { ((i as real) + 0.5) * BinWidth(b) - 1.0 }

  /** The bins tile [-1, 1]: they start at -1, end at 1, each bin's upper edge is
      the next bin's lower edge, and every midpoint lies strictly inside its bin. */
  lemma BinsTileAxis(b: Bins, i: int)
    requires Valid(b)
    ensures LowerGF(b, 0) == -1.0
    ensures UpperGF(b, b.nBins - 1) == 1.0
    ensures UpperGF(b, i) == LowerGF(b, i + 1)
    ensures LowerGF(b, i) < MidPoint(b, i) < UpperGF(b, i)
    ensures UpperGF(b, i) - LowerGF(b, i) == BinWidth(b)
  {
  }

  /** GFBins.getBin, with Java's Math.round and int cast written out. */
  function GetBin(b: Bins, gf: real): (bin: int)
    requires Valid(b)
    ensures bin == ((gf + 1.0) / BinWidth(b)).Floor
  {
    JavaRound((gf + 1.0) / BinWidth(b) - 0.5)
  }

  lemma DivBounds(x: real, w: real, i: int)
    requires w > 0.0
    ensures (i as real) * w <= x <==> (i as real) <= x / w
    ensures x < ((i + 1) as real) * w <==> x / w < ((i + 1) as real)
  {
    assert x == (x / w) * w;
    if (i as real) * w <= x {
      assert (i as real) <= x / w;
    }
    if (i as real) <= x / w {
      assert (i as real) * w <= (x / w) * w;
    }
    if x < ((i + 1) as real) * w {
      assert x / w < ((i + 1) as real);
    }
    if x / w < ((i + 1) as real) {
      assert (x / w) * w < ((i + 1) as real) * w;
    }
  }

  /** getBin(gf) == i exactly when gf lies in bin i's half-open interval. */
  lemma GetBinIff(b: Bins, gf: real, i: int)
    requires Valid(b)
    ensures GetBin(b, gf) == i <==> LowerGF(b, i) <= gf < UpperGF(b, i)
  {
    DivBounds(gf + 1.0, BinWidth(b), i);
  }

  /** Every GF in [-1, 1) falls in a bin that exists. */
  lemma GetBinInRange(b: Bins, gf: real)
    requires Valid(b)
    requires -1.0 <= gf < 1.0
    ensures 0 <= GetBin(b, gf) < b.nBins
  {
    var w := BinWidth(b);
    DivBounds(gf + 1.0, w, 0);
    DivBounds(gf + 1.0, w, b.nBins - 1);
  }

  lemma GetBinMonotone(b: Bins, g1: real, g2: real)
    requires Valid(b)
    requires g1 <= g2
    ensures GetBin(b, g1) <= GetBin(b, g2)
  {
    var w := BinWidth(b);
    DivideMonotone(g1 + 1.0, g2 + 1.0, w);
  }

  /** GFBins.binWeight: the fraction of bin `bin` covered by `range`. */
  function BinWeight(b: Bins, range: Range, bin: int): (r: real)
    requires Valid(b)
    requires 0 <= bin < b.nBins
    ensures 0.0 <= r <= 1.0
    ensures range.end <= LowerGF(b, bin) || range.start >= UpperGF(b, bin) ==> r == 0.0
    ensures range.start <= LowerGF(b, bin) && range.end >= UpperGF(b, bin) ==> r == 1.0
  {
    var w := BinWidth(b);
    var low := Max(LowerGF(b, bin), range.start);
    var high := Min(UpperGF(b, bin), range.end);
    DivideMonotone(Max(0.0, high - low), w, w);
    DivideMonotone(0.0, Max(0.0, high - low), w);
    Max(0.0, high - low) / w
  }

  /** The weights of bins lo..hi of one range, summed. */
  function BinWeightSum(b: Bins, range: Range, lo: int, hi: int): real
    requires Valid(b)
    requires 0 <= lo && hi < b.nBins
    decreases hi - lo
  {
    if hi < lo then 0.0 else BinWeightSum(b, range, lo, hi - 1) + BinWeight(b, range, hi)
  }

  lemma LowerGFMonotone(b: Bins, i: int, j: int)
    requires Valid(b)
    requires i <= j
    ensures LowerGF(b, i) <= LowerGF(b, j)
  {
    assert LowerGF(b, j) - LowerGF(b, i) == ((j - i) as real) * BinWidth(b);
  }

  /** The weight of a bin whose lower edge the range covers. */
  lemma BinWeightFromLowerEdge(b: Bins, range: Range, i: int)
    requires Valid(b)
    requires 0 <= i < b.nBins
    requires range.start <= LowerGF(b, i) <= range.end
    ensures BinWeight(b, range, i) == (Min(UpperGF(b, i), range.end) - LowerGF(b, i)) / BinWidth(b)
  {
    BinsTileAxis(b, i);
  }

  lemma AddQuotients(x: real, y: real, w: real)
    requires w > 0.0
    ensures x / w + y / w == (x + y) / w
  {
  }

  /** The bin weights of a range conserve its width: summed over the bins the
      range touches up to `hi`, they measure the part of the range below
      upperGF[hi], in bin widths. */
  lemma {:induction false} BinWeightSumPrefix(b: Bins, range: Range, hi: int)
    requires Valid(b)
    requires -1.0 <= range.start <= range.end < 1.0
    requires GetBin(b, range.start) <= hi <= GetBin(b, range.end)
    ensures 0 <= GetBin(b, range.start) && hi < b.nBins
    ensures BinWeightSum(b, range, GetBin(b, range.start), hi)
            == (Min(UpperGF(b, hi), range.end) - range.start) / BinWidth(b)
    decreases hi
  {
    var lo := GetBin(b, range.start);
    var e := GetBin(b, range.end);
    var w := BinWidth(b);
    GetBinInRange(b, range.start);
    GetBinInRange(b, range.end);
    GetBinIff(b, range.start, lo);
    GetBinIff(b, range.end, e);
    if hi == lo {
      BinsTileAxis(b, lo);
      assert BinWeightSum(b, range, lo, hi - 1) == 0.0;
    } else {
      BinWeightSumPrefix(b, range, hi - 1);
      BinsTileAxis(b, hi - 1);
      BinsTileAxis(b, lo);
      LowerGFMonotone(b, hi, e);
      LowerGFMonotone(b, lo + 1, hi);
      BinWeightFromLowerEdge(b, range, hi);
      AddQuotients(LowerGF(b, hi) - range.start, Min(UpperGF(b, hi), range.end) - LowerGF(b, hi), w);
    }
  }

  /** Summed over every bin the range touches, the weights give its width in bins. */
  lemma BinWeightsConserveWidth(b: Bins, range: Range)
    requires Valid(b)
    requires -1.0 <= range.start <= range.end < 1.0
    ensures BinWeightSum(b, range, GetBin(b, range.start), GetBin(b, range.end))
            == Width(range) / BinWidth(b)
  {
    GetBinMonotone(b, range.start, range.end);
    BinWeightSumPrefix(b, range, GetBin(b, range.end));
    GetBinIff(b, range.end, GetBin(b, range.end));
  }

  /** GFBins.expKernelWidth: how many bins the kernel reaches before its weight
      falls below 2%, rounded to the nearest whole bin. */
  function ExpKernelWidth(b: Bins, lambda: real): (r: int)
    requires Valid(b)
    requires lambda > 0.0
    ensures r >= 0
    ensures -0.5 < (r as real) - NEG_LOG_TWO_PERCENT / (lambda * BinWidth(b)) <= 0.5
  {
    JavaRound(NEG_LOG_TWO_PERCENT / (lambda * BinWidth(b)))
  }

  /** The kernel weight bin `i` receives for a GF, with Math.exp the oracle `exp`. */
  function KernelWeight(b: Bins, i: int, gf: real, lambda: real, weight: real, exp: real -> real): real
    requires Valid(b)
  {
    Kernel(weight, exp, Exponent(b, i, gf, lambda))
  }

  /** The kernel's exponent: minus `lambda` times the distance from bin `i`'s midpoint to `gf`. */
  function Exponent(b: Bins, i: int, gf: real, lambda: real): real
    requires Valid(b)
  {
    Abs(MidPoint(b, i) - gf) * -lambda
  }

  /** The oracle's value at `x`, scaled by `weight`. */
  function Kernel(weight: real, exp: real -> real, x: real): real {
    weight * exp(x)
  }

  /** The first and last bins the kernel loop visits. */
  function KernelLow(b: Bins, gf: real, lambda: real): int
    requires Valid(b) && lambda > 0.0
  {
    MaxInt(0, GetBin(b, gf) - ExpKernelWidth(b, lambda))
  }

  function KernelHigh(b: Bins, gf: real, lambda: real): int
    requires Valid(b) && lambda > 0.0
  {
    MinInt(b.nBins - 1, GetBin(b, gf) + ExpKernelWidth(b, lambda))
  }

  /** GFBins.updateBinsWithExpKernel: adds the kernel weight to every bin within
      the kernel width of GF's bin and leaves every other bin untouched. */
  method UpdateBinsWithExpKernel(b: Bins, bins: seq<real>, gf: real, lambda: real, weight: real,
                                 exp: real -> real)
    returns (r: seq<real>)
    requires Valid(b)
    requires |bins| == b.nBins
    requires lambda > 0.0
    ensures |r| == |bins|
    ensures forall i :: KernelLow(b, gf, lambda) <= i <= KernelHigh(b, gf, lambda) ==>
              r[i] - bins[i] == KernelWeight(b, i, gf, lambda, weight, exp)
    ensures forall i :: 0 <= i < |r| && !(KernelLow(b, gf, lambda) <= i <= KernelHigh(b, gf, lambda)) ==>
              r[i] == bins[i]
  {
    var lo := KernelLow(b, gf, lambda);
    var hi := KernelHigh(b, gf, lambda);
    r := bins;
    var i := lo;
    while i <= hi
      invariant lo <= i && (i <= hi + 1 || i == lo)
      invariant |r| == |bins|
      invariant forall j :: lo <= j < i ==> r[j] - bins[j] == KernelWeight(b, j, gf, lambda, weight, exp)
      invariant forall j :: 0 <= j < |r| && !(lo <= j < i) ==> r[j] == bins[j]
      decreases hi - i
    {
      r := r[i := r[i] + KernelWeight(b, i, gf, lambda, weight, exp)];
      i := i + 1;
    }
  }

  /** With a positive, monotone exponential and a non-negative weight, the
      kernel only adds, and adds more to bins whose midpoint is nearer the GF. */
  lemma KernelPeaksAtGF(b: Bins, gf: real, lambda: real, weight: real, exp: real -> real, i: int, j: int)
    requires Valid(b)
    requires lambda > 0.0 && weight >= 0.0
    requires Positive(exp) && Monotone(exp)
    requires Abs(MidPoint(b, i) - gf) <= Abs(MidPoint(b, j) - gf)
    ensures KernelWeight(b, i, gf, lambda, weight, exp) >= KernelWeight(b, j, gf, lambda, weight, exp) >= 0.0
  {
    ExponentOrder(b, gf, lambda, i, j);
    ScaledOracleOrder(weight, exp, Exponent(b, j, gf, lambda), Exponent(b, i, gf, lambda));
  }

  lemma ExponentOrder(b: Bins, gf: real, lambda: real, i: int, j: int)
    requires Valid(b) && lambda > 0.0
    requires Abs(MidPoint(b, i) - gf) <= Abs(MidPoint(b, j) - gf)
    ensures Exponent(b, j, gf, lambda) <= Exponent(b, i, gf, lambda)
  {
    NegativeScaleAntitone(lambda, Abs(MidPoint(b, i) - gf), Abs(MidPoint(b, j) - gf));
  }

  /** A non-negative multiple of a positive, monotone oracle keeps the order of its arguments. */
  lemma ScaledOracleOrder(weight: real, exp: real -> real, x: real, y: real)
    requires weight >= 0.0 && Positive(exp) && Monotone(exp) && x <= y
    ensures Kernel(weight, exp, y) >= Kernel(weight, exp, x) >= 0.0
  {
    assert exp(x) <= exp(y);
    assert exp(x) > 0.0;
    MulMonotone(weight, exp(x), exp(y));
    MulNonNegative(weight, exp(x));
  }

  lemma NegativeScaleAntitone(lambda: real, x: real, y: real)
    requires lambda > 0.0 && x <= y
    ensures y * -lambda <= x * -lambda
  {
    MulMonotone(lambda, x, y);
  }
}
