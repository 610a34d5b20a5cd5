/** kc.mega.utils.MovingAverage: an exponential moving average whose reading
    is corrected for the bias of starting from zero. */
module MovingAverages {
  import opened MathUtils

  datatype MovingAverage = MovingAverage(rate: real, n: nat, value: real)

  /** `new MovingAverage(rate)`: no samples, value 0. */
  function Fresh(rate: real): (m: MovingAverage)
    ensures m.n == 0 && m.value == 0.0 && m.rate == rate
  {
    MovingAverage(rate, 0, 0.0)
  }

  /** MovingAverage.update: blends in one sample; the sample gets weight 1 - rate. */
  function Update(m: MovingAverage, x: real): (u: MovingAverage)
    ensures u.n == m.n + 1 && u.rate == m.rate
    ensures 0.0 <= m.rate <= 1.0 ==> Min(x, m.value) <= u.value <= Max(x, m.value)
  {
    var v := (1.0 - m.rate) * x + m.rate * m.value;
    assert v - Min(x, m.value) == (1.0 - m.rate) * (x - Min(x, m.value)) + m.rate * (m.value - Min(x, m.value));
    assert Max(x, m.value) - v == (1.0 - m.rate) * (Max(x, m.value) - x) + m.rate * (Max(x, m.value) - m.value);
    MovingAverage(m.rate, m.n + 1, v)
  }

  /** MovingAverage.get: the value divided by 1 - rate^max(1, n), which undoes
      the pull toward the initial zero. */
  function Get(m: MovingAverage): real
    requires 0.0 <= m.rate < 1.0
  {
    PowBelowOne(m.rate, MaxInt(1, m.n));
    m.value / (1.0 - Pow(m.rate, MaxInt(1, m.n)))
  }

  lemma {:induction false} PowBelowOne(r: real, k: nat)
    requires 0.0 <= r < 1.0
    requires k >= 1
    ensures 0.0 <= Pow(r, k) < 1.0
  {
    if k > 1 {
      PowBelowOne(r, k - 1);
      var p := Pow(r, k - 1);
      PowStep(r, p);
      assert r * p < 1.0;
      assert Pow(r, k) == r * p;
    } else {
      assert Pow(r, 0) == 1.0;
      assert Pow(r, 1) == r * 1.0;
    }
  }

  /** One more factor below one keeps a power in [0, 1). */
  lemma PowStep(r: real, p: real)
    requires 0.0 <= r < 1.0 && 0.0 <= p < 1.0
    ensures 0.0 <= r * p < 1.0
  {
    MulNonNegative(r, p);
    MulMonotone(p, r, 1.0);
  }

  lemma QuotientOfProduct(v: real, x: real, q: real)
    requires q != 0.0 && v == x * q
    ensures v / q == x
  {
  }

  /** The value an average holds when every sample it has seen was `x`:
      x * (1 - rate^n). */
  predicate ConstantHistory(m: MovingAverage, x: real) {
    m.value == x * (1.0 - Pow(m.rate, m.n))
  }

  /** A fresh average has seen no samples, so it has a constant history. */
  lemma FreshHasConstantHistory(rate: real, x: real)
    ensures ConstantHistory(Fresh(rate), x)
  {
    assert Pow(rate, 0) == 1.0;
  }

  /** Feeding `x` again keeps the history constant. */
  lemma UpdateKeepsConstantHistory(m: MovingAverage, x: real)
    requires ConstantHistory(m, x)
    ensures ConstantHistory(Update(m, x), x)
  {
    var p := Pow(m.rate, m.n);
    assert Pow(m.rate, m.n + 1) == m.rate * p;
    UpdateOfPartial(m, x, p);
  }

  /** One more sample after a partial sum x * (1 - p) gives x * (1 - rate * p). */
  lemma UpdateOfPartial(m: MovingAverage, x: real, p: real)
    requires m.value == x * (1.0 - p)
    ensures Update(m, x).value == x * (1.0 - m.rate * p)
  {
    var rate := m.rate;
    assert Update(m, x).value == (1.0 - rate) * x + rate * m.value;
    assert (1.0 - rate) * x + rate * (x * (1.0 - p)) == x * (1.0 - rate * p);
  }

  /** The bias correction is exact: once at least one sample has been seen and
      every sample was `x`, the reading is `x`, not something pulled toward
      zero. */
  lemma ConstantInputReadsBack(m: MovingAverage, x: real)
    requires 0.0 <= m.rate < 1.0 && m.n >= 1
    requires ConstantHistory(m, x)
    ensures Get(m) == x
  {
    PowBelowOne(m.rate, m.n);
    var q := 1.0 - Pow(m.rate, m.n);
    assert MaxInt(1, m.n) == m.n;
    assert Get(m) == m.value / q;
    QuotientOfProduct(m.value, x, q);
  }

  /** A fresh average reads zero. */
  lemma FreshReadsZero(rate: real)
    requires 0.0 <= rate < 1.0
    ensures Get(Fresh(rate)) == 0.0
  {
    PowBelowOne(rate, 1);
    var m := Fresh(rate);
    assert MaxInt(1, m.n) == 1;
    var q := 1.0 - Pow(rate, 1);
    assert q > 0.0;
    assert 0.0 / q == 0.0;
  }

  /** Once a positive sample has been seen, the reading is positive. */
  lemma GetPositive(m: MovingAverage)
    requires 0.0 <= m.rate < 1.0 && m.value > 0.0
    ensures Get(m) > 0.0
  {
    PowBelowOne(m.rate, MaxInt(1, m.n));
    var q := 1.0 - Pow(m.rate, MaxInt(1, m.n));
    assert q > 0.0;
    assert Get(m) == m.value / q;
  }

  /** Two averages with the same rate and sample count read in the order of
      their values. */
  lemma GetMonotone(m1: MovingAverage, m2: MovingAverage)
    requires 0.0 <= m1.rate < 1.0 && m2.rate == m1.rate && m2.n == m1.n
    requires m1.value <= m2.value
    ensures Get(m1) <= Get(m2)
  {
    PowBelowOne(m1.rate, MaxInt(1, m1.n));
    var q := 1.0 - Pow(m1.rate, MaxInt(1, m1.n));
    DivideMonotone(m1.value, m2.value, q);
  }
}
