/** Numeric helpers of kc.mega.utils.MathUtils, plus the few Java numeric
    conventions (Math.round, integer casts, Math.pow with a whole exponent)
    that the rest of the model needs written out over unbounded reals. */
module MathUtils {

  function Min(a: real, b: real): real { if a <= b then a else b }
  function Max(a: real, b: real): real { if a >= b then a else b }
  function MinInt(a: int, b: int): int { if a <= b then a else b }
  function MaxInt(a: int, b: int): int { if a >= b then a else b }
  function Abs(x: real): real { if x < 0.0 then -x else x }
  function Signum(x: real): real { if x > 0.0 then 1.0 else if x < 0.0 then -1.0 else 0.0 }

  /** Java's Math.round on a double: round half up, i.e. floor(x + 0.5). */
  function JavaRound(x: real): int { (x + 0.5).Floor }

  /** Java's `(int)` cast of a double: truncation toward zero. */
  function Truncate(x: real): int { if x >= 0.0 then x.Floor else -((-x).Floor) }

  /** Math.pow with a whole, non-negative exponent. */
  function Pow(x: real, n: nat): real { if n == 0 then 1.0 else x * Pow(x, n - 1) }

  /** An exponential oracle is positive everywhere. */
  ghost predicate Positive(f: real -> real) {
    forall x: real :: f(x) > 0.0
  }

  /** `x` times `y`, kept behind a name so that sums of products stay linear
      for the solver. */
  function Times(x: real, y: real): real {
    x * y
  }

  /** A monotone (non-decreasing) oracle. */
  ghost predicate Monotone(f: real -> real) {
    forall x: real, y: real :: x <= y ==> f(x) <= f(y)
  }

  /** MathUtils.clip (double overload): saturates `v` to [lo, hi]; when the
      bounds cross, the lower bound wins because max is applied last. */
  function Clip(v: real, lo: real, hi: real): (r: real)
    ensures lo <= hi ==> lo <= r <= hi
    ensures lo <= v <= hi ==> r == v
    ensures lo <= hi && v < lo ==> r == lo
    ensures lo <= hi && v > hi ==> r == hi
    ensures hi < lo ==> r == lo
  {
    Max(lo, Min(hi, v))
  }

  /** MathUtils.clip (int overload). */
  function ClipInt(v: int, lo: int, hi: int): (r: int)
    ensures lo <= hi ==> lo <= r <= hi
    ensures lo <= v <= hi ==> r == v
    ensures lo <= hi && v < lo ==> r == lo
    ensures lo <= hi && v > hi ==> r == hi
    ensures hi < lo ==> r == lo
  {
    MaxInt(lo, MinInt(hi, v))
  }

  /** MathUtils.nonzeroSign: a sign that is never zero; zero counts as negative. */
  function NonzeroSign(v: real): (r: int)
    ensures r == 1 || r == -1
    ensures r == 1 <==> v > 0.0
    ensures (r as real) * v >= 0.0
  {
    if v > 0.0 then 1 else -1
  }

  /** MathUtils.inBounds: closed-interval membership. */
  predicate InBounds(v: real, lo: real, hi: real) {
    lo <= v <= hi
  }

  /** The running total that normalize and softmax compute, summed front to back. */
  function Sum(s: seq<real>): real {
    if |s| == 0 then 0.0 else s[0] + Sum(s[1..])
  }

  /** MathUtils.divide, on a value rather than in place. */
  function Divide(s: seq<real>, d: real): (r: seq<real>)
    requires d != 0.0 || |s| == 0
    ensures |r| == |s|
    ensures forall i :: 0 <= i < |s| ==> r[i] * d == s[i]
  {
    seq(|s|, i requires 0 <= i < |s| => s[i] / d)
  }

  lemma {:induction false} SumDivide(s: seq<real>, d: real)
    requires d != 0.0
    ensures Sum(Divide(s, d)) == Sum(s) / d
  {
    if |s| > 0 {
      assert Divide(s, d)[1..] == Divide(s[1..], d);
      SumDivide(s[1..], d);
    }
  }

  /** MathUtils.normalize: scales to total 1, but leaves a zero-total array alone. */
  function Normalize(s: seq<real>): (r: seq<real>)
    ensures |r| == |s|
    ensures Sum(s) == 0.0 ==> r == s
    ensures Sum(s) != 0.0 ==> Sum(r) == 1.0
    ensures Sum(s) != 0.0 ==> forall i :: 0 <= i < |s| ==> r[i] * Sum(s) == s[i]
  {
    var total := Sum(s);
    if total == 0.0 then s
    else
      SumDivide(s, total);
      Divide(s, total)
  }

  lemma {:induction false} SumNonNegative(s: seq<real>)
    requires forall i :: 0 <= i < |s| ==> s[i] >= 0.0
    ensures Sum(s) >= 0.0
  {
    if |s| > 0 {
      SumNonNegative(s[1..]);
    }
  }

  lemma {:induction false} SumPositive(s: seq<real>)
    requires |s| > 0
    requires forall i :: 0 <= i < |s| ==> s[i] > 0.0
    ensures Sum(s) > 0.0
  {
    SumNonNegative(s[1..]);
  }

  lemma DivideMonotone(a: real, b: real, t: real)
    requires t > 0.0 && a <= b
    ensures a / t <= b / t
  {
    assert b / t - a / t == (b - a) / t;
  }

  /** Normalising a non-negative array with a positive total keeps every entry
      in [0, 1]. */
  lemma NormalizeBounds(s: seq<real>)
    requires forall i :: 0 <= i < |s| ==> s[i] >= 0.0
    ensures forall i :: 0 <= i < |s| ==> 0.0 <= Normalize(s)[i]
    ensures Sum(s) != 0.0 ==> forall i :: 0 <= i < |s| ==> Normalize(s)[i] <= 1.0
  {
    SumNonNegative(s);
    var t := Sum(s);
    if t != 0.0 {
      var r := Normalize(s);
      forall i | 0 <= i < |s|
        ensures 0.0 <= r[i] <= 1.0
      {
        SumAtLeastElement(s, i);
        FractionOfTotal(r[i], t, s[i]);
      }
    }
  }

  /** A factor that scales a positive total down to a part of it lies in [0, 1]. */
  lemma FractionOfTotal(f: real, t: real, v: real)
    requires t > 0.0 && f * t == v && 0.0 <= v <= t
    ensures 0.0 <= f <= 1.0
  {
    assert (1.0 - f) * t == t - v;
    SignOfFactor(f, t);
    SignOfFactor(1.0 - f, t);
  }

  lemma SignOfFactor(a: real, t: real)
    requires t > 0.0 && a * t >= 0.0
    ensures a >= 0.0
  {
  }

  /** A non-negative quotient by a positive divisor, and its bounds. */
  lemma QuotientBounds(v: real, d: real)
    requires d > 0.0 && v >= 0.0
    ensures (v / d) * d == v
    ensures 0.0 <= v / d
    ensures v <= d ==> v / d <= 1.0
  {
    var q := v / d;
    assert q * d == v;
    SignOfFactor(q, d);
    if v <= d {
      FractionOfTotal(q, d, v);
    }
  }

  lemma {:induction false} SumAtLeastElement(s: seq<real>, i: int)
    requires 0 <= i < |s|
    requires forall j :: 0 <= j < |s| ==> s[j] >= 0.0
    ensures s[i] <= Sum(s)
  {
    if i == 0 {
      SumNonNegative(s[1..]);
    } else {
      SumAtLeastElement(s[1..], i - 1);
    }
  }

  /** Normalize is idempotent: a normalised array normalises to itself. */
  lemma NormalizeIdempotent(s: seq<real>)
    ensures Normalize(Normalize(s)) == Normalize(s)
  {
    var r := Normalize(s);
    if Sum(s) != 0.0 {
      assert Sum(r) == 1.0;
      assert Divide(r, 1.0) == r;
    }
  }

  /** The exponentials softmax takes, one per logit. */
  function Exponentials(logits: seq<real>, maxLogit: real, exp: real -> real): (w: seq<real>)
    ensures |w| == |logits|
  {
    seq(|logits|, i requires 0 <= i < |logits| => exp(logits[i] - maxLogit))
  }

  /** MathUtils.softmax: turns logits into positive weights summing to 1; Math.exp
      is the oracle `exp`. */
  function Softmax(logits: seq<real>, maxLogit: real, exp: real -> real): (r: seq<real>)
    requires Positive(exp)
    ensures |r| == |logits|
    ensures |logits| > 0 ==> Sum(r) == 1.0
    ensures forall i :: 0 <= i < |r| ==> 0.0 < r[i] <= 1.0
  {
    var w := Exponentials(logits, maxLogit, exp);
    if |w| == 0 then w
    else
      SumPositive(w);
      var t := Sum(w);
      SumDivide(w, t);
      assert t / t == 1.0;
      forall i | 0 <= i < |w| ensures 0.0 < w[i] / t <= 1.0 {
        SumAtLeastElement(w, i);
        DivideMonotone(w[i], t, t);
      }
      Divide(w, t)
  }

  /** With a monotone exponential, a larger logit never gets a smaller weight. */
  lemma SoftmaxMonotone(logits: seq<real>, maxLogit: real, exp: real -> real, i: int, j: int)
    requires Positive(exp) && Monotone(exp)
    requires 0 <= i < |logits| && 0 <= j < |logits|
    requires logits[i] <= logits[j]
    ensures Softmax(logits, maxLogit, exp)[i] <= Softmax(logits, maxLogit, exp)[j]
  {
    var w := Exponentials(logits, maxLogit, exp);
    SumPositive(w);
    var t := Sum(w);
    assert w[i] == exp(logits[i] - maxLogit) && w[j] == exp(logits[j] - maxLogit);
    assert w[i] <= w[j];
    DivideMonotone(w[i], w[j], t);
    assert Softmax(logits, maxLogit, exp) == Divide(w, t);
  }

  /** MathUtils.addArrays: elementwise sum over the first array's length (the
      second must be at least as long, or Java indexes past its end). */
  function AddArrays(x: seq<real>, y: seq<real>): (r: seq<real>)
    requires |y| >= |x|
    ensures |r| == |x|
    ensures forall i :: 0 <= i < |x| ==> r[i] - y[i] == x[i]
  {
    seq(|x|, i requires 0 <= i < |x| => x[i] + y[i])
  }

  lemma {:induction false} SumAddArrays(x: seq<real>, y: seq<real>)
    requires |y| >= |x|
    ensures Sum(AddArrays(x, y)) == Sum(x) + Sum(y[..|x|])
  {
    if |x| > 0 {
      assert AddArrays(x, y)[1..] == AddArrays(x[1..], y[1..]);
      assert y[..|x|][1..] == y[1..][..|x| - 1];
      SumAddArrays(x[1..], y[1..]);
    }
  }

  /** Scaling a non-negative value by a factor in [0, 1] keeps it between 0 and itself. */
  lemma ScaleDown(a: real, y: real)
    requires 0.0 <= a && 0.0 <= y <= 1.0
    ensures 0.0 <= a * y <= a
  {
    MulNonNegative(a, y);
    MulNonNegative(a, 1.0 - y);
    assert a * (1.0 - y) == a - a * y;
  }

  lemma MulNonNegative(a: real, b: real)
    requires a >= 0.0 && b >= 0.0
    ensures a * b >= 0.0
  {
  }

  lemma PositiveProduct(a: real, b: real)
    requires a > 0.0 && b > 0.0
    ensures a * b > 0.0
  {
  }

  /** Multiplying by a non-negative factor keeps the order. */
  lemma MulMonotone(a: real, x: real, y: real)
    requires a >= 0.0 && x <= y
    ensures a * x <= a * y && x * a <= y * a
  {
    MulNonNegative(a, y - x);
    assert a * (y - x) == a * y - a * x;
  }

  /** Summing front to back agrees with appending at the back. */
  lemma {:induction false} SumAppend(s: seq<real>, x: real)
    ensures Sum(s + [x]) == Sum(s) + x
  {
    if |s| > 0 {
      assert (s + [x])[1..] == s[1..] + [x];
      SumAppend(s[1..], x);
    }
  }

  /** Adding `x` to one entry adds `x` to the total. */
  lemma {:induction false} SumUpdate(s: seq<real>, k: int, x: real)
    requires 0 <= k < |s|
    ensures Sum(s[k := s[k] + x]) == Sum(s) + x
  {
    if k > 0 {
      assert s[k := s[k] + x][1..] == s[1..][k - 1 := s[1..][k - 1] + x];
      SumUpdate(s[1..], k - 1, x);
    }
  }

  /** `new double[n]`. */
  function ZeroArray(n: nat): (r: seq<real>)
    ensures |r| == n && forall i :: 0 <= i < n ==> r[i] == 0.0
  {
    seq(n, _ => 0.0)
  }

  lemma {:induction false} SumOfZeroArray(n: nat)
    ensures Sum(ZeroArray(n)) == 0.0
  {
    if n > 0 {
      assert ZeroArray(n)[1..] == ZeroArray(n - 1);
      SumOfZeroArray(n - 1);
    }
  }

  /** A power of a non-negative base is non-negative, of a positive base positive. */
  lemma {:induction false} PowPositive(x: real, n: nat)
    requires x >= 0.0
    ensures Pow(x, n) >= 0.0
    ensures x > 0.0 ==> Pow(x, n) > 0.0
  {
    if n > 0 {
      PowPositive(x, n - 1);
      MulNonNegative(x, Pow(x, n - 1));
    }
  }

  /** Raising to a whole power keeps the order of non-negative bases. */
  lemma {:induction false} PowMonotone(x: real, y: real, n: nat)
    requires 0.0 <= x <= y
    ensures Pow(x, n) <= Pow(y, n)
  {
    if n > 0 {
      PowMonotone(x, y, n - 1);
      PowPositive(x, n - 1);
      MulMonotone(Pow(x, n - 1), x, y);
      MulMonotone(y, Pow(x, n - 1), Pow(y, n - 1));
    }
  }

  lemma DivideSelf(x: real)
    requires x != 0.0
    ensures x / x == 1.0
  {
  }
}
