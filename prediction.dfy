/** Next-month expense forecast by simple exponential smoothing with
    smoothing factor 0.7: F(t+1) = 0.7 * Y(t) + 0.3 * F(t). */
module Prediction {

  const Alpha: real := 0.7

  /** The second components of the (month index, total) pairs. */
  function Values(expenses: seq<(int, real)>): (v: seq<real>)
    ensures |v| == |expenses|
    ensures forall i :: 0 <= i < |v| ==> v[i] == expenses[i].1
  {
    seq(|expenses|, i requires 0 <= i < |expenses| => expenses[i].1)
  }

  /** The forecast after folding every value in, starting from the first. */
  function Smoothed(v: seq<real>): real
    requires |v| >= 1
  {
    if |v| == 1 then v[0]
    else Alpha * v[|v| - 1] + (1.0 - Alpha) * Smoothed(v[..|v| - 1])
  }

  /** What `predictNextMonthExpense` returns. */
  function Predict(expenses: seq<(int, real)>): real {
    if |expenses| < 2 then 0.0 else Smoothed(Values(expenses))
  }

  /** `ExpensePrediction.predictNextMonthExpense`. */
  method PredictNextMonthExpense(expenses: seq<(int, real)>) returns (forecast: real)
    ensures forecast == Predict(expenses)
  {
    if |expenses| < 2 {
      return 0.0;
    }
    var values := Values(expenses);
    forecast := values[0];
    assert values[..1] == [values[0]];
    var i := 1;
    while i < |values|
      invariant 1 <= i <= |values|
      invariant forecast == Smoothed(values[..i])
    {
      assert values[..i + 1][..i] == values[..i];
      forecast := Alpha * values[i] + (1.0 - Alpha) * forecast;
      i := i + 1;
    }
    assert values[..i] == values;
  }

  /** Fewer than two months predict exactly zero, whatever the values. */
  lemma ShortSeriesPredictsZero(expenses: seq<(int, real)>)
    requires |expenses| < 2
    ensures Predict(expenses) == 0.0
  {
  }

  /** Only the totals are read: the month indices never matter. */
  lemma {:induction false} KeysIrrelevant(a: seq<(int, real)>, b: seq<(int, real)>)
    requires |a| == |b|
    requires forall i :: 0 <= i < |a| ==> a[i].1 == b[i].1
    ensures Predict(a) == Predict(b)
  {
    assert Values(a) == Values(b);
  }

  lemma TwoValues(k0: int, a: real, k1: int, b: real)
    ensures Predict([(k0, a), (k1, b)]) == 0.7 * b + 0.3 * a
  {
    var v := Values([(k0, a), (k1, b)]);
    assert v[..1] == [a];
    assert Smoothed(v) == Alpha * b + (1.0 - Alpha) * a;
  }

  /** A constant series forecasts that constant. */
  lemma {:induction false} SmoothedConstant(v: seq<real>, c: real)
    requires |v| >= 1 && forall i :: 0 <= i < |v| ==> v[i] == c
    ensures Smoothed(v) == c
  {
    if |v| > 1 {
      SmoothedConstant(v[..|v| - 1], c);
    }
  }

  lemma ConstantSeries(expenses: seq<(int, real)>, c: real)
    requires |expenses| >= 2 && forall i :: 0 <= i < |expenses| ==> expenses[i].1 == c
    ensures Predict(expenses) == c
  {
    SmoothedConstant(Values(expenses), c);
  }

  /** Each step is a convex combination, so a bound that holds of every
      value holds of the forecast. */
  lemma {:induction false} SmoothedAtLeast(v: seq<real>, lo: real)
    requires |v| >= 1 && forall i :: 0 <= i < |v| ==> lo <= v[i]
    ensures lo <= Smoothed(v)
  {
    if |v| > 1 {
      SmoothedAtLeast(v[..|v| - 1], lo);
    }
  }

  lemma {:induction false} SmoothedAtMost(v: seq<real>, hi: real)
    requires |v| >= 1 && forall i :: 0 <= i < |v| ==> v[i] <= hi
    ensures Smoothed(v) <= hi
  {
    if |v| > 1 {
      SmoothedAtMost(v[..|v| - 1], hi);
    }
  }

  /** The forecast of two or more months lies between the smallest and the
      largest monthly total. */
  lemma PredictBetween(expenses: seq<(int, real)>, lo: real, hi: real)
    requires |expenses| >= 2
    requires forall i :: 0 <= i < |expenses| ==> lo <= expenses[i].1 <= hi
    ensures lo <= Predict(expenses) <= hi
  {
    SmoothedAtLeast(Values(expenses), lo);
    SmoothedAtMost(Values(expenses), hi);
  }

  /** Non-negative totals give a non-negative forecast. */
  lemma PredictNonNegative(expenses: seq<(int, real)>)
    requires forall i :: 0 <= i < |expenses| ==> expenses[i].1 >= 0.0
    ensures Predict(expenses) >= 0.0
  {
    if |expenses| >= 2 {
      SmoothedAtLeast(Values(expenses), 0.0);
    }
  }
}
