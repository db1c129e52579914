/** The maximum drawdown of the periodic report: one pass with a running peak, against the
    worst of all pairs of days.
  */
module PeriodicReports {
  import opened Common

  /** Percentage change from `a` to `b`. */
  function Change(a: real, b: real): real
    requires a > 0.0
  {
    (b - a) / a * 100.0
  }

  // ---- One pass ----

  function Peak(values: seq<real>): real
    requires values != []
  {
    var last := values[|values| - 1];
    if |values| == 1 then last
    else
      var front := Peak(values[..|values| - 1]);
      if last > front then last else front
  }

  /** The fall from the peak up to the last day, or 0 while no value was positive. */
  function LastDrawdown(values: seq<real>): real
    requires values != []
  {
    var peak := Peak(values);
    if peak > 0.0 then Change(peak, values[|values| - 1]) else 0.0
  }

  /** The smallest of 0 and the drawdowns day by day. */
  function RunningDrawdown(values: seq<real>): real {
    if values == [] then 0.0
    else
      var front := RunningDrawdown(values[..|values| - 1]);
      var dd := LastDrawdown(values);
      if dd < front then dd else front
  }

  method CalculateMdd(values: seq<real>) returns (maxDd: real)
    ensures maxDd == RunningDrawdown(values)
  {
    if values == [] {
      return 0.0;
    }
    var peak := values[0];
    maxDd := 0.0;
    for n := 0 to |values|
      invariant peak == if n == 0 then values[0] else Peak(values[..n])
      invariant maxDd == RunningDrawdown(values[..n])
    {
      assert values[..n + 1][..n] == values[..n];
      if values[n] > peak {
        peak := values[n];
      }
      assert peak == Peak(values[..n + 1]);
      var dd := if peak > 0.0 then (values[n] - peak) / peak * 100.0 else 0.0;
      assert dd == LastDrawdown(values[..n + 1]);
      maxDd := if dd < maxDd then dd else maxDd;
    }
    assert values[..|values|] == values;
  }

  // ---- All pairs ----

  /** `worst` is the smallest change from any day with a positive value to itself or a later
      day, and 0 if there is no such day. */
  ghost predicate IsWorstChange(values: seq<real>, worst: real) {
    && (forall i, j :: 0 <= i <= j < |values| && values[i] > 0.0 ==> worst <= Change(values[i], values[j]))
    && (worst == 0.0 || exists i, j :: 0 <= i <= j < |values| && values[i] > 0.0 && worst == Change(values[i], values[j]))
    && worst <= 0.0
  }

  lemma {:induction false} PeakIsLargest(values: seq<real>)
    requires values != []
    ensures Peak(values) in values && forall i :: 0 <= i < |values| ==> values[i] <= Peak(values)
  {
    if |values| > 1 {
      PeakIsLargest(values[..|values| - 1]);
    }
  }

  /** The change to a non-negative value is worst from the highest starting value. */
  lemma WorstFromPeak(low: real, peak: real, v: real)
    requires 0.0 < low <= peak && 0.0 <= v
    ensures Change(peak, v) <= Change(low, v)
  {
    var p, q := (v - peak) / peak, (v - low) / low;
    TimesBack(v - peak, peak);
    TimesBack(v - low, low);
    CompareFractions(p + 1.0, peak, q + 1.0, low, v);
  }

  lemma CompareFractions(p: real, high: real, q: real, low: real, v: real)
    requires 0.0 < low <= high && 0.0 <= v
    requires p * high == v && q * low == v
    ensures p <= q
  {
    assert (q - p) * low == p * (high - low);
    assert p >= 0.0;
  }

  predicate WorstOf(values: seq<real>, worst: real, i: int, j: int) {
    0 <= i <= j < |values| && values[i] > 0.0 && worst == Change(values[i], values[j])
  }

  /** The running drawdown is 0 or the change of some pair of days. */
  lemma {:induction false} RunningDrawdownIsAttained(values: seq<real>) returns (i: int, j: int)
    ensures RunningDrawdown(values) <= 0.0
    ensures RunningDrawdown(values) == 0.0 || WorstOf(values, RunningDrawdown(values), i, j)
  {
    i, j := 0, 0;
    if values != [] {
      var n := |values| - 1;
      i, j := RunningDrawdownIsAttained(values[..n]);
      PeakIsLargest(values);
      if RunningDrawdown(values) != RunningDrawdown(values[..n]) {
        i :| 0 <= i <= n && values[i] == Peak(values);
        j := n;
      }
    }
  }

  /** It is no larger than the change to any value that is not negative. */
  lemma {:induction false} RunningDrawdownIsBelow(values: seq<real>, i: int, j: int)
    requires 0 <= i <= j < |values| && values[i] > 0.0 && values[j] >= 0.0
    ensures RunningDrawdown(values) <= Change(values[i], values[j])
  {
    var n := |values| - 1;
    if j < n {
      RunningDrawdownIsBelow(values[..n], i, j);
    } else {
      PeakIsLargest(values);
      WorstFromPeak(values[i], Peak(values), values[n]);
    }
  }

  /** For any values, the fall from the running peak is the worst change over all pairs of days
      exactly if it is no larger than the changes to days with a negative value. */
  lemma WorstPairIff(values: seq<real>)
    ensures IsWorstChange(values, RunningDrawdown(values))
       <==> forall i, j :: 0 <= i <= j < |values| && values[i] > 0.0 && values[j] < 0.0 ==>
              RunningDrawdown(values) <= Change(values[i], values[j])
  {
    var p, q := RunningDrawdownIsAttained(values);
    if forall i, j :: 0 <= i <= j < |values| && values[i] > 0.0 && values[j] < 0.0 ==>
         RunningDrawdown(values) <= Change(values[i], values[j]) {
      forall i, j | 0 <= i <= j < |values| && values[i] > 0.0
        ensures RunningDrawdown(values) <= Change(values[i], values[j])
      {
        if values[j] >= 0.0 {
          RunningDrawdownIsBelow(values, i, j);
        }
      }
    }
  }

  /** So it always is on values that are never negative. */
  lemma RunningDrawdownIsWorstPair(values: seq<real>)
    requires forall i :: 0 <= i < |values| ==> values[i] >= 0.0
    ensures IsWorstChange(values, RunningDrawdown(values))
  {
    WorstPairIff(values);
  }

  /** With a negative value the two can part ways: here the running peak gives -150% and the
      worst pair -200%. */
  lemma NegativeValuesDiffer()
    ensures RunningDrawdown([2.0, 1.0, -1.0]) == -150.0
    ensures Change(1.0, -1.0) == -200.0 && !IsWorstChange([2.0, 1.0, -1.0], -150.0)
  {
    var v := [2.0, 1.0, -1.0];
    assert v[..2] == [2.0, 1.0] && v[..2][..1] == [2.0] && v[..2][..1][..0] == [];
    assert Peak([2.0]) == 2.0;
    assert Peak([2.0, 1.0]) == 2.0;
    assert RunningDrawdown([2.0]) == 0.0;
    assert RunningDrawdown([2.0, 1.0]) == -50.0;
    assert v[1] == 1.0 && v[2] == -1.0;
  }
}
