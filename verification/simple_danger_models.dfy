/** kc.mega.move.models.SimpleDangerModels: danger profiles that imitate
    simple targeting strategies (head-on, current guess factor, and the
    single-angle family), so that the movement can dodge them exactly. */
module SimpleDangerModels {
  import opened MathUtils
  import opened GFBins
  import opened WaveModel

  /** `dangers[i] += x`. */
  function AddAt(d: seq<real>, i: int, x: real): (r: seq<real>)
    requires 0 <= i < |d|
    ensures |r| == |d| && r[i] == d[i] + x
    ensures forall j :: 0 <= j < |d| && j != i ==> r[j] == d[j]
  {
    d[i := d[i] + x]
  }

  /** The bin of a clipped guess factor, which always exists. */
  function BinOf(b: Bins, gf: real): (k: int)
    requires Valid(b) && -GF_LIMIT <= gf <= GF_LIMIT
    ensures 0 <= k < b.nBins && k == GetBin(b, gf)
  {
    GetBinInRange(b, gf);
    GetBin(b, gf)
  }

  /** The floor HOTModel adds to every bin: 0.01 / (0.05 + |midPoint|). */
  function HOTBaseline(b: Bins, i: int): (r: real)
    requires Valid(b)
    ensures r > 0.0
  {
    var d := 0.05 + Abs(MidPoint(b, i));
    QuotientBounds(0.01, d);
    0.01 / d
  }

  /** The head-on guesses HOTModel weighs, as relative bearings (offsets)
      from the wave's absolute bearing: the previous bearing, the previous
      bearing corrected for both turns, and the bearing from our next
      position; a fourth guess is offset 0. The three come from the
      geometry oracle. */
  datatype HOTGuesses = HOTGuesses(prevBearing: real, turnCorrected: real, fromNextPosition: real)

  /** The bins of the four head-on guesses. */
  function HOTBins(b: Bins, w: Wave, g: HOTGuesses): (ks: seq<int>)
    requires Valid(b) && WellFormed(w)
    ensures |ks| == 4 && forall j :: 0 <= j < 4 ==> 0 <= ks[j] < b.nBins
  {
    [BinOf(b, GetGF(w, g.prevBearing)), BinOf(b, GetGF(w, g.turnCorrected)),
     BinOf(b, GetGF(w, g.fromNextPosition)), BinOf(b, GetGF(w, 0.0))]
  }

  /** The votes bin `i` receives: 1 from the first guess and 0.5 from each
      of the others that lands in it. */
  function HOTVotes(ks: seq<int>, i: int): real
    requires |ks| == 4
  {
    (if ks[0] == i then 1.0 else 0.0) + (if ks[1] == i then 0.5 else 0.0)
    + (if ks[2] == i then 0.5 else 0.0) + (if ks[3] == i then 0.5 else 0.0)
  }

  /** The spike array of getDangers before the baseline loop. */
  function HOTSpikes(n: nat, ks: seq<int>): (d: seq<real>)
    requires |ks| == 4 && forall j :: 0 <= j < 4 ==> 0 <= ks[j] < n
    ensures |d| == n && forall i :: 0 <= i < n ==> d[i] == HOTVotes(ks, i)
  {
    AddAt(AddAt(AddAt(ZeroArray(n)[ks[0] := 1.0], ks[1], 0.5), ks[2], 0.5), ks[3], 0.5)
  }

  /** HOTModel.getDangers: each bin holds its baseline plus the votes of the
      head-on guesses that land in it, so every bin is strictly dangerous. */
  function HOTDangers(b: Bins, w: Wave, g: HOTGuesses): (d: seq<real>)
    requires Valid(b) && WellFormed(w)
    ensures |d| == b.nBins
    ensures forall i :: 0 <= i < |d| ==> d[i] == HOTBaseline(b, i) + HOTVotes(HOTBins(b, w, g), i)
    ensures forall i :: 0 <= i < |d| ==> d[i] >= HOTBaseline(b, i) > 0.0
  {
    var spikes := HOTSpikes(b.nBins, HOTBins(b, w, g));
    seq(b.nBins, i requires 0 <= i < b.nBins => spikes[i] + HOTBaseline(b, i))
  }

  /** The spikes sum to 2.5 wherever the guesses land: every wave carries
      the same head-on danger on top of the baseline. */
  lemma HOTSpikesTotal(n: nat, ks: seq<int>)
    requires |ks| == 4 && forall j :: 0 <= j < 4 ==> 0 <= ks[j] < n
    ensures Sum(HOTSpikes(n, ks)) == 2.5
  {
    var s1 := ZeroArray(n)[ks[0] := 1.0];
    var s2 := AddAt(s1, ks[1], 0.5);
    var s3 := AddAt(s2, ks[2], 0.5);
    SumOfZeroArray(n);
    assert ZeroArray(n)[ks[0] := 1.0] == ZeroArray(n)[ks[0] := ZeroArray(n)[ks[0]] + 1.0];
    SumUpdate(ZeroArray(n), ks[0], 1.0);
    SumUpdate(s1, ks[1], 0.5);
    SumUpdate(s2, ks[2], 0.5);
    SumUpdate(s3, ks[3], 0.5);
  }

  /** The two writes of CurrentGFModel.getDangers: 1 at bin k1, then 0.5
      written over bin k2. */
  function TwoWrites(n: nat, k1: int, k2: int): (d: seq<real>)
    requires 0 <= k1 < n && 0 <= k2 < n
    ensures |d| == n && d[k2] == 0.5
    ensures d[k1] == 1.0 <==> k1 != k2
    ensures forall i :: 0 <= i < n && i != k1 && i != k2 ==> d[i] == 0.0
  {
    ZeroArray(n)[k1 := 1.0][k2 := 0.5]
  }

  /** CurrentGFModel.getDangers: 1 at the current GF's bin, then 0.5 written
      over the mirrored GF's bin, and 0 everywhere else. When both GFs fall
      in one bin the second write wins and that bin holds 0.5. The current
      GF is a wave feature, clipped like every GF. */
  function CurrentGFDangers(b: Bins, currentGF: real): (d: seq<real>)
    requires Valid(b) && -GF_LIMIT <= currentGF <= GF_LIMIT
    ensures |d| == b.nBins
    ensures d[BinOf(b, -currentGF)] == 0.5
    ensures d[BinOf(b, currentGF)] == 1.0 <==> BinOf(b, currentGF) != BinOf(b, -currentGF)
    ensures forall i :: 0 <= i < |d| && i != BinOf(b, currentGF) && i != BinOf(b, -currentGF) ==> d[i] == 0.0
  {
    TwoWrites(b.nBins, BinOf(b, currentGF), BinOf(b, -currentGF))
  }

  /** A bin's midpoint is nearer to a GF in that bin than any other
      bin's midpoint is. */
  lemma OwnBinIsNearest(b: Bins, gf: real, i: int)
    requires Valid(b)
    ensures Abs(MidPoint(b, GetBin(b, gf)) - gf) <= Abs(MidPoint(b, i) - gf)
  {
    var k := GetBin(b, gf);
    var w := BinWidth(b);
    GetBinIff(b, gf, k);
    assert MidPoint(b, k) == LowerGF(b, k) + w / 2.0;
    assert Abs(MidPoint(b, k) - gf) <= w / 2.0;
    if i < k {
      LowerGFMonotone(b, i + 1, k);
      assert MidPoint(b, i) == LowerGF(b, i + 1) - w / 2.0;
    } else if i > k {
      LowerGFMonotone(b, k + 1, i);
      assert MidPoint(b, i) == LowerGF(b, i) + w / 2.0;
      assert LowerGF(b, k + 1) == UpperGF(b, k);
    }
  }

  /** The kernel rate every single-angle model uses. */
  const SINGLE_ANGLE_LAMBDA: real := 20.0

  /** SingleAngleModel.getDangers: a weight-1 exponential kernel (lambda 20)
      around the GF of the simulated aim; with a positive, monotone exp the
      danger is non-negative and peaks at the aimed GF's bin. The aim
      offset (getAimAngle minus the absolute bearing) is the output of the
      targeting simulation, an oracle. */
  method SingleAngleDangers(b: Bins, w: Wave, aimOffset: real, exp: real -> real) returns (d: seq<real>)
    requires Valid(b) && WellFormed(w)
    ensures |d| == b.nBins
    ensures forall i :: 0 <= i < |d| ==>
              d[i] == if KernelLow(b, GetGF(w, aimOffset), SINGLE_ANGLE_LAMBDA) <= i
                           <= KernelHigh(b, GetGF(w, aimOffset), SINGLE_ANGLE_LAMBDA)
                      then KernelWeight(b, i, GetGF(w, aimOffset), SINGLE_ANGLE_LAMBDA, 1.0, exp) else 0.0
    ensures Positive(exp) && Monotone(exp) ==>
              var peak := BinOf(b, GetGF(w, aimOffset));
              && 0 <= peak < |d|
              && forall i :: 0 <= i < |d| ==> 0.0 <= d[i] <= d[peak]
  {
    var gf := GetGF(w, aimOffset);
    d := UpdateBinsWithExpKernel(b, ZeroArray(b.nBins), gf, SINGLE_ANGLE_LAMBDA, 1.0, exp);
    var peak := BinOf(b, gf);
    if Positive(exp) && Monotone(exp) {
      forall i | 0 <= i < |d| ensures 0.0 <= d[i] <= d[peak] {
        OwnBinIsNearest(b, gf, i);
        KernelPeaksAtGF(b, gf, SINGLE_ANGLE_LAMBDA, 1.0, exp, peak, i);
        KernelPeaksAtGF(b, gf, SINGLE_ANGLE_LAMBDA, 1.0, exp, i, i);
      }
    }
  }
}
