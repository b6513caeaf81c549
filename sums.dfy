/** Sums of sequences of numbers, and how scaling every term by 100/total scales the sum. */
module Sums {

  function Sum(s: seq<real>): real
  {
    if s == [] then 0.0 else Sum(s[..|s| - 1]) + s[|s| - 1]
  }

  function SumNat(s: seq<nat>): nat
  {
    if s == [] then 0 else SumNat(s[..|s| - 1]) + s[|s| - 1]
  }

  /** `(part / total) * 100`, the percentage formula every script uses. */
  function Percent(part: real, total: real): real
    requires total != 0.0
  {
    part / total * 100.0
  }

  /** Percentages of a common total add up like their parts. */
  lemma PercentAdd(a: real, b: real, total: real)
    requires total != 0.0
    ensures Percent(a, total) + Percent(b, total) == Percent(a + b, total)
  {
    calc {
      Percent(a, total) + Percent(b, total);
      a / total * 100.0 + b / total * 100.0;
      { assert a / total + b / total == (a + b) / total; }
      (a + b) / total * 100.0;
    }
  }

  /** The whole is 100 percent of itself. */
  lemma PercentWhole(total: real)
    requires total != 0.0
    ensures Percent(total, total) == 100.0
  {
    assert total / total == 1.0;
  }

  /** Each term of `s` expressed as a percentage of `total`. */
  function Percents(s: seq<real>, total: real): (r: seq<real>)
    requires total != 0.0
    ensures |r| == |s|
    ensures forall i :: 0 <= i < |s| ==> r[i] == Percent(s[i], total)
  {
    if s == [] then [] else Percents(s[..|s| - 1], total) + [Percent(s[|s| - 1], total)]
  }

  /** The percentages of the parts sum to the percentage of their sum. */
  lemma {:induction false} SumPercents(s: seq<real>, total: real)
    requires total != 0.0
    ensures Sum(Percents(s, total)) == Percent(Sum(s), total)
  {
    if s != [] {
      var init := s[..|s| - 1];
      SumPercents(init, total);
      assert Percents(s, total)[..|s| - 1] == Percents(init, total);
      PercentAdd(Sum(init), s[|s| - 1], total);
    }
  }

  lemma {:induction false} SumNonNegative(s: seq<real>)
    requires forall i :: 0 <= i < |s| ==> s[i] >= 0.0
    ensures Sum(s) >= 0.0
  {
    if s != [] {
      SumNonNegative(s[..|s| - 1]);
    }
  }

  /** Replacing one term changes the sum by the difference. */
  lemma {:induction false} SumNatUpdate(s: seq<nat>, i: nat, v: nat)
    requires i < |s|
    ensures SumNat(s[i := v]) == SumNat(s) - s[i] + v
  {
    var n := |s| - 1;
    if i < n {
      SumNatUpdate(s[..n], i, v);
      assert s[i := v][..n] == s[..n][i := v];
    } else {
      assert s[i := v][..n] == s[..n];
    }
  }

  /** The counts as floating-point numbers. */
  function Reals(s: seq<nat>): (r: seq<real>)
    ensures |r| == |s|
    ensures forall i :: 0 <= i < |s| ==> r[i] == s[i] as real
  {
    seq(|s|, i requires 0 <= i < |s| => s[i] as real)
  }

  lemma {:induction false} SumReals(s: seq<nat>)
    ensures Sum(Reals(s)) == SumNat(s) as real
  {
    if s != [] {
      SumReals(s[..|s| - 1]);
      assert Reals(s)[..|s| - 1] == Reals(s[..|s| - 1]);
    }
  }

  /** `np.cumsum`: the `i`-th term is the sum of the first `i + 1` terms. */
  function CumSum(s: seq<real>): (r: seq<real>)
    ensures |r| == |s|
  {
    if s == [] then [] else CumSum(s[..|s| - 1]) + [Sum(s)]
  }

  lemma {:induction false} CumSumAt(s: seq<real>, i: nat)
    requires i < |s|
    ensures CumSum(s)[i] == Sum(s[..i + 1])
  {
    var n := |s| - 1;
    if i < n {
      CumSumAt(s[..n], i);
      assert s[..n][..i + 1] == s[..i + 1];
    } else {
      assert s[..i + 1] == s;
    }
  }

  /** A running sum of non-negative terms never decreases and ends at the total. */
  lemma {:induction false} CumSumMonotone(s: seq<real>)
    requires forall i :: 0 <= i < |s| ==> s[i] >= 0.0
    ensures forall i, j :: 0 <= i <= j < |s| ==> CumSum(s)[i] <= CumSum(s)[j]
    ensures |s| > 0 ==> CumSum(s)[|s| - 1] == Sum(s)
  {
    if s != [] {
      var n := |s| - 1;
      var init := s[..n];
      assert forall k :: 0 <= k < n ==> init[k] == s[k];
      CumSumMonotone(init);
      var c := CumSum(s);
      var b := CumSum(init);
      assert c == b + [Sum(s)];
      forall i, j | 0 <= i <= j < |s| ensures c[i] <= c[j] {
        if j == n && i < n {
          assert c[i] == b[i] <= b[n - 1] == Sum(init);
        } else if j < n {
          assert c[i] == b[i] && c[j] == b[j];
        }
      }
    }
  }

  /** Part of a whole, as a percentage, stays below 100. */
  lemma PercentBelowWhole(part: real, total: real)
    requires 0.0 <= part < total
    ensures Percent(part, total) < 100.0
  {
    var q := part / total;
    assert q * total == part;
    assert (1.0 - q) * total == total - part;
  }

  /** Zero counts add up to zero. */
  lemma {:induction false} ZeroSum(n: nat)
    ensures SumNat(seq(n, i => 0)) == 0
  {
    if n > 0 {
      ZeroSum(n - 1);
      assert seq(n, i => 0)[..n - 1] == seq(n - 1, i => 0);
    }
  }
}
