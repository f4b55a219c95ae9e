/** The forward paper run: two exponential moving averages, one position that
    opens and closes on their crossings, and the account it is booked in. */
module PaperTrading {
  import opened Common

  // ------------------------------------------------------------------ averages

  function Sum(xs: seq<real>): real {
    if xs == [] then 0.0 else Sum(xs[..|xs| - 1]) + xs[|xs| - 1]
  }

  function Weight(period: nat): real
    requires period > 0
  {
    2.0 / (period as real + 1.0)
  }

  /** The average at bar i, once `period` samples exist. */
  function Ema(values: seq<real>, period: nat, i: nat): real
    requires 0 < period <= i + 1 <= |values|
  {
    if i == period - 1 then Average(Sum(values[..period]), period)
    else Blend(values[i], Ema(values, period, i - 1), Weight(period))
  }

  function Average(total: real, n: nat): real
    requires n > 0
  {
    total / n as real
  }

  function Blend(x: real, y: real, k: real): real { x * k + y * (1.0 - k) }

  function EmaSeries(values: seq<real>, period: int): (out: Series)
    ensures |out| == |values|
  {
    seq(|values|, i requires 0 <= i < |values| =>
      if 0 < period <= i + 1 then Some(Ema(values, period, i)) else None)
  }

  /** The built-in `sum`. */
  method SumOf(xs: seq<real>) returns (total: real)
    ensures total == Sum(xs)
  {
    total := 0.0;
    for j := 0 to |xs|
      invariant total == Sum(xs[..j])
    {
      assert xs[..j + 1][..j] == xs[..j];
      total := total + xs[j];
    }
    assert xs[..|xs|] == xs;
  }

  /** `_ema`: one pass, carrying the running average. */
  method ComputeEma(values: seq<real>, period: int) returns (out: Series)
    ensures out == EmaSeries(values, period)
  {
    out := seq(|values|, _ => None);
    if period <= 0 || |values| < period {
      return;
    }
    var total := SumOf(values[..period]);
    var k := 2.0 / (period as real + 1.0);
    var ema := Average(total, period);
    out := out[period - 1 := Some(ema)];
    for i := period to |values|
      invariant ema == Ema(values, period, i - 1)
      invariant |out| == |values|
      invariant forall j :: 0 <= j < i ==> out[j] == EmaSeries(values, period)[j]
      invariant forall j :: i <= j < |values| ==> out[j] == None
    {
      ema := Blend(values[i], ema, k);
      out := out[i := Some(ema)];
    }
  }

  lemma WeightInUnit(period: nat)
    requires period > 0
    ensures 0.0 < Weight(period) <= 1.0
  {
    var d := period as real + 1.0;
    assert Weight(period) * d == 2.0;
    assert d >= 2.0;
  }

  /** The newest close weighs 2 parts in period + 1: everything with period 1, and
      the rest of the average the other period - 1 parts. */
  lemma WeightShares(period: nat)
    requires period > 0
    ensures Weight(period) * (period as real + 1.0) == 2.0
    ensures Weight(1) == 1.0
    ensures (1.0 - Weight(period)) * (period as real + 1.0) == period as real - 1.0
  {
    var d := period as real + 1.0;
    assert Weight(period) * d == 2.0;
    assert (1.0 - Weight(period)) * d == d - Weight(period) * d;
  }

  /** Period 3 over 1, 2, 3, 6: nothing twice, the mean 2, then halfway to 6. */
  lemma EmaExample()
    ensures EmaSeries([1.0, 2.0, 3.0, 6.0], 3) == [None, None, Some(2.0), Some(4.0)]
    ensures EmaSeries([1.0, 2.0], 0) == [None, None]
  {
    var v := [1.0, 2.0, 3.0, 6.0];
    assert v[..3][..2] == v[..2] && v[..2][..1] == v[..1] && v[..1][..0] == [];
    assert Sum(v[..1]) == 1.0 && Sum(v[..2]) == 3.0 && Sum(v[..3]) == 6.0;
    assert Ema(v, 3, 2) == 2.0;
    WeightShares(3);
    assert Weight(3) == 0.5;
    assert Ema(v, 3, 3) == 4.0;
  }

  lemma {:induction false} SumBetween(xs: seq<real>, lo: real, hi: real)
    requires forall j :: 0 <= j < |xs| ==> lo <= xs[j] <= hi
    ensures lo * |xs| as real <= Sum(xs) <= hi * |xs| as real
    decreases |xs|
  {
    if xs != [] {
      SumBetween(xs[..|xs| - 1], lo, hi);
      var n := (|xs| - 1) as real;
      assert |xs| as real == n + 1.0;
      assert lo * (n + 1.0) == lo * n + lo && hi * (n + 1.0) == hi * n + hi;
    }
  }

  lemma Mean(total: real, n: nat, lo: real, hi: real)
    requires n > 0 && lo * n as real <= total <= hi * n as real
    ensures lo <= Average(total, n) <= hi
  {
    var m := total / n as real;
    assert m * n as real == total;
    ScaleBy(m, lo, n as real);
    ScaleBy(hi, m, n as real);
  }

  lemma BlendBetween(x: real, y: real, k: real, lo: real, hi: real)
    requires lo <= x <= hi && lo <= y <= hi && 0.0 <= k <= 1.0
    ensures lo <= Blend(x, y, k) <= hi
  {
    Positive(x - lo, k);
    Positive(y - lo, 1.0 - k);
    Positive(hi - x, k);
    Positive(hi - y, 1.0 - k);
    assert x * k + y * (1.0 - k) == lo + (x - lo) * k + (y - lo) * (1.0 - k);
    assert x * k + y * (1.0 - k) == hi - (hi - x) * k - (hi - y) * (1.0 - k);
  }

  /** Every average lies between any bounds of the closes seen so far. */
  lemma {:induction false} EmaBetween(values: seq<real>, period: nat, i: nat, lo: real, hi: real)
    requires 0 < period <= i + 1 <= |values|
    requires forall j :: 0 <= j <= i ==> lo <= values[j] <= hi
    ensures lo <= Ema(values, period, i) <= hi
    decreases i
  {
    if i == period - 1 {
      SumBetween(values[..period], lo, hi);
      Mean(Sum(values[..period]), period, lo, hi);
    } else {
      EmaBetween(values, period, i - 1, lo, hi);
      WeightInUnit(period);
      BlendBetween(values[i], Ema(values, period, i - 1), Weight(period), lo, hi);
    }
  }

  // ---------------------------------------------------------------- closed form

  function Times(x: real, y: real): real { x * y }

  function Rest(period: nat): real
    requires period > 0
  {
    1.0 - Weight(period)
  }

  /** (1 - k)^e, the weight left after e more bars. */
  function Decay(period: nat, e: nat): real
    requires period > 0
  {
    if e == 0 then 1.0 else Times(Decay(period, e - 1), Rest(period))
  }

  /** The weight of a close e bars ago: k (1 - k)^e. */
  function Aged(period: nat, e: nat): real
    requires period > 0
  {
    Times(Weight(period), Decay(period, e))
  }

  /** The closes after the seed up to bar m, each weighted by its age at bar i. */
  function Weighted(values: seq<real>, period: nat, i: nat, m: nat): real
    requires 0 < period <= m + 1 && m <= i < |values|
  {
    if m == period - 1 then 0.0
    else Weighted(values, period, i, m - 1) + Times(values[m], Aged(period, i - m))
  }

  lemma TimesLaws(a: real, b: real, c: real)
    ensures Times(a + b, c) == Times(a, c) + Times(b, c)
    ensures Times(a, Times(b, c)) == Times(Times(a, b), c)
  {
  }

  lemma AgedNext(period: nat, e: nat)
    requires period > 0
    ensures Aged(period, e + 1) == Times(Aged(period, e), Rest(period))
  {
    TimesLaws(Weight(period), Decay(period, e), Rest(period));
  }

  lemma {:induction false} WeightedAges(values: seq<real>, period: nat, i: nat, m: nat)
    requires 0 < period <= m + 1 && m < i < |values|
    ensures Weighted(values, period, i, m) == Times(Weighted(values, period, i - 1, m), Rest(period))
    decreases m
  {
    if m >= period {
      WeightedAges(values, period, i, m - 1);
      var rest := Rest(period);
      var share := Aged(period, i - 1 - m);
      AgedNext(period, i - 1 - m);
      TimesLaws(values[m], share, rest);
      TimesLaws(Weighted(values, period, i - 1, m - 1), Times(values[m], share), rest);
    }
  }

  /** The average is the seed mean and every later close, the newest with weight
      2 / (period + 1) and each older one with (1 - that) times the next. */
  lemma {:induction false} EmaClosedForm(values: seq<real>, period: nat, i: nat)
    requires 0 < period <= i + 1 <= |values|
    ensures Ema(values, period, i) ==
            Times(Average(Sum(values[..period]), period), Decay(period, i + 1 - period)) +
            Weighted(values, period, i, i)
    decreases i
  {
    if i >= period {
      EmaClosedForm(values, period, i - 1);
      WeightedAges(values, period, i, i - 1);
      var rest := Rest(period);
      var seed, d := Average(Sum(values[..period]), period), Decay(period, i - period);
      TimesLaws(seed, d, rest);
      TimesLaws(Times(seed, d), Weighted(values, period, i - 1, i - 1), rest);
      NewestShare(period);
      BlendIsTimes(values[i], Ema(values, period, i - 1), Weight(period));
    }
  }

  lemma NewestShare(period: nat)
    requires period > 0
    ensures Aged(period, 0) == Weight(period)
  {
  }

  lemma BlendIsTimes(x: real, y: real, k: real)
    ensures Blend(x, y, k) == Times(x, k) + Times(y, 1.0 - k)
  {
  }

  /** No look-ahead: the average at bar i depends on the closes up to bar i. */
  lemma {:induction false} EmaCausal(values: seq<real>, others: seq<real>, period: nat, i: nat)
    requires 0 < period <= i + 1 <= |values| && i < |others|
    requires forall j :: 0 <= j <= i ==> values[j] == others[j]
    ensures Ema(values, period, i) == Ema(others, period, i)
    decreases i
  {
    if i == period - 1 {
      assert values[..period] == others[..period];
    } else {
      EmaCausal(values, others, period, i - 1);
    }
  }

  function Move(x: real, a: real, b: real): real { a * x + b }

  function SumMoved(total: real, n: nat, a: real, b: real): real { a * total + b * n as real }

  function Affine(values: seq<real>, a: real, b: real): (r: seq<real>)
    ensures |r| == |values|
  {
    seq(|values|, i requires 0 <= i < |values| => Move(values[i], a, b))
  }

  lemma AffinePrefix(values: seq<real>, n: nat, a: real, b: real)
    requires n <= |values|
    ensures Affine(values, a, b)[..n] == Affine(values[..n], a, b)
  {
    var l, r := Affine(values, a, b)[..n], Affine(values[..n], a, b);
    forall i | 0 <= i < n ensures l[i] == r[i] {
      assert values[..n][i] == values[i];
    }
  }

  lemma {:induction false} SumAffine(values: seq<real>, a: real, b: real)
    ensures Sum(Affine(values, a, b)) == SumMoved(Sum(values), |values|, a, b)
    decreases |values|
  {
    if values != [] {
      var n := |values| - 1;
      SumAffine(values[..n], a, b);
      AffinePrefix(values, n, a, b);
      SumStep(Sum(values[..n]), values[n], n, a, b);
    }
  }

  lemma SumStep(total: real, x: real, n: nat, a: real, b: real)
    ensures SumMoved(total, n, a, b) + Move(x, a, b) == SumMoved(total + x, n + 1, a, b)
  {
    assert (n + 1) as real == n as real + 1.0;
  }

  lemma MeanAffine(total: real, n: nat, a: real, b: real)
    requires n > 0
    ensures Average(SumMoved(total, n, a, b), n) == Move(Average(total, n), a, b)
  {
    var d := n as real;
    var m, m' := total / d, (a * total + b * d) / d;
    assert m * d == total && m' * d == a * total + b * d;
    assert (a * m + b) * d == a * (m * d) + b * d;
    assert (m' - (a * m + b)) * d == 0.0;
  }

  lemma BlendAffine(x: real, y: real, k: real, a: real, b: real)
    ensures Blend(Move(x, a, b), Move(y, a, b), k) == Move(Blend(x, y, k), a, b)
  {
  }

  /** Averaging commutes with any affine change of the prices. */
  lemma {:induction false} EmaAffine(values: seq<real>, period: nat, i: nat, a: real, b: real)
    requires 0 < period <= i + 1 <= |values|
    ensures Ema(Affine(values, a, b), period, i) == Move(Ema(values, period, i), a, b)
    decreases i
  {
    if i == period - 1 {
      SumAffine(values[..period], a, b);
      AffinePrefix(values, period, a, b);
      MeanAffine(Sum(values[..period]), period, a, b);
    } else {
      EmaAffine(values, period, i - 1, a, b);
      BlendAffine(values[i], Ema(values, period, i - 1), Weight(period), a, b);
    }
  }
}
