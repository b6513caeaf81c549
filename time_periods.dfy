/**
  `calculate_distribution` of the deregistration, share-process and discounted-deregistration
  scripts: a category's `time_days` values are cut into eleven right-closed periods
  (-inf, 0], (0, 1], (1, 3], ..., (365, inf) and counted, each count also given as a percentage
  of the category's row count. A missing (NaN) time falls into no period but still counts in
  the total.
*/
module TimePeriods {
  import opened Wrappers
  import opened Dicts
  import opened Sums

  /** The finite edges of `bins`; the outer `-np.inf` and `np.inf` edges bound no finite value. */
  const Edges: seq<real> := [0.0, 1.0, 3.0, 7.0, 14.0, 30.0, 60.0, 90.0, 180.0, 365.0]

  const Labels: seq<string> :=
    ["Same day", "1 day", "2-3 days", "4-7 days", "1-2 weeks",
     "2-4 weeks", "1-2 months", "2-3 months", "3-6 months", "6-12 months", "1+ year"]

  /** A `time_days` cell: `None` is NaN. */
  type TimeDays = Option<real>

  /** The number of edges strictly below `x`. */
  function Cut(e: seq<real>, x: real): (r: nat)
    ensures r <= |e|
  {
    if e == [] then 0 else Cut(e[..|e| - 1], x) + (if e[|e| - 1] < x then 1 else 0)
  }

  /** The period `pd.cut(..., bins, labels)` gives a value. */
  function PeriodIndex(x: real): (j: nat)
    ensures j < |Labels|
  {
    Cut(Edges, x)
  }

  /** Period `j` is the interval above edge `j - 1` up to and including edge `j`. */
  predicate InPeriod(x: real, j: nat)
    requires j < |Labels|
  {
    (j == 0 || Edges[j - 1] < x) && (j == |Edges| || x <= Edges[j])
  }

  lemma {:induction false} CutSplits(e: seq<real>, x: real)
    requires forall i, j :: 0 <= i < j < |e| ==> e[i] < e[j]
    ensures forall i :: 0 <= i < Cut(e, x) ==> e[i] < x
    ensures forall i :: Cut(e, x) <= i < |e| ==> x <= e[i]
  {
    if e != [] {
      var init := e[..|e| - 1];
      CutSplits(init, x);
      if e[|e| - 1] < x {
        CutAll(init, x);
      }
    }
  }

  lemma {:induction false} CutAll(e: seq<real>, x: real)
    requires forall i :: 0 <= i < |e| ==> e[i] < x
    ensures Cut(e, x) == |e|
  {
    if e != [] {
      CutAll(e[..|e| - 1], x);
    }
  }

  /** Every value lands in exactly the period whose right-closed interval holds it. */
  lemma PeriodIndexIsInterval(x: real, j: nat)
    requires j < |Labels|
    ensures PeriodIndex(x) == j <==> InPeriod(x, j)
  {
    CutSplits(Edges, x);
  }

  lemma {:induction false} CutMonotone(e: seq<real>, x: real, y: real)
    requires x <= y
    ensures Cut(e, x) <= Cut(e, y)
  {
    if e != [] {
      CutMonotone(e[..|e| - 1], x, y);
    }
  }

  /** A longer time never lands in an earlier period. */
  lemma PeriodIndexMonotone(x: real, y: real)
    requires x <= y
    ensures PeriodIndex(x) <= PeriodIndex(y)
  {
    CutMonotone(Edges, x, y);
  }

  /** The times that are not NaN. */
  function Defined(times: seq<TimeDays>): (n: nat)
    ensures n <= |times|
  {
    if times == [] then 0 else Defined(times[..|times| - 1]) + (if times[|times| - 1].Some? then 1 else 0)
  }

  /** How many times fall in period `j`: the `value_counts()` entry of its label. */
  function CountIn(times: seq<TimeDays>, j: nat): nat
  {
    if times == [] then 0
    else
      var t := times[|times| - 1];
      CountIn(times[..|times| - 1], j) + (if t.Some? && PeriodIndex(t.value) == j then 1 else 0)
  }

  /** `df_cat['time_bin'].value_counts()`, in label order. */
  function ValueCounts(times: seq<TimeDays>): (dist: seq<nat>)
    ensures |dist| == |Labels|
    ensures forall j :: 0 <= j < |Labels| ==> dist[j] == CountIn(times, j)
  {
    seq(|Labels|, j requires 0 <= j < |Labels| => CountIn(times, j))
  }

  /** Every defined time is counted in exactly one period. */
  lemma {:induction false} ValueCountsTotal(times: seq<TimeDays>)
    ensures SumNat(ValueCounts(times)) == Defined(times)
  {
    if times != [] {
      var init := times[..|times| - 1];
      var t := times[|times| - 1];
      ValueCountsTotal(init);
      var before := ValueCounts(init);
      if t.Some? {
        var k := PeriodIndex(t.value);
        assert Defined(times) == Defined(init) + 1;
        assert ValueCounts(times) == before[k := before[k] + 1];
        SumNatUpdate(before, k, before[k] + 1);
      } else {
        assert Defined(times) == Defined(init);
        assert ValueCounts(times) == before;
      }
    } else {
      ZeroSum(|Labels|);
      assert ValueCounts(times) == seq(|Labels|, i => 0);
    }
  }

  datatype PeriodDistribution = PeriodDistribution(counts: seq<nat>, percentages: seq<real>)

  /** The pair of lists `calculate_distribution` returns. */
  function DistributionOf(times: seq<TimeDays>): (d: PeriodDistribution)
    ensures |d.counts| == |Labels| && |d.percentages| == |Labels|
    ensures times == [] ==> forall j :: 0 <= j < |Labels| ==> d.counts[j] == 0 && d.percentages[j] == 0.0
  {
    if times == [] then
      PeriodDistribution(seq(|Labels|, _ => 0), seq(|Labels|, _ => 0.0))
    else
      var counts := ValueCounts(times);
      PeriodDistribution(counts, Percents(Reals(counts), |times| as real))
  }

  method CalculateDistribution(timeDays: seq<TimeDays>) returns (counts: seq<nat>, percentages: seq<real>)
    ensures PeriodDistribution(counts, percentages) == DistributionOf(timeDays)
  {
    if |timeDays| == 0 {
      return seq(|Labels|, _ => 0), seq(|Labels|, _ => 0.0);
    }
    var dist := ValueCounts(timeDays);
    var total := |timeDays|;
    var expected := DistributionOf(timeDays);
    counts := [];
    percentages := [];
    for j := 0 to |Labels|
      invariant counts == expected.counts[..j]
      invariant percentages == expected.percentages[..j]
    {
      if dist[j] > 0 {
        var count := dist[j];
        counts := counts + [count];
        percentages := percentages + [Percent(count as real, total as real)];
      } else {
        counts := counts + [0];
        percentages := percentages + [0.0];
      }
    }
    assert counts == expected.counts;
    assert percentages == expected.percentages;
  }

  /**
    For a non-empty category, the counts add up to the number of non-NaN times and the
    percentages to that number as a percentage of all rows: NaN rows are in the total only.
  */
  lemma DistributionTotals(times: seq<TimeDays>)
    requires |times| > 0
    ensures var d := DistributionOf(times);
      && SumNat(d.counts) == Defined(times) <= |times|
      && Sum(d.percentages) == Percent(Defined(times) as real, |times| as real)
  {
    var counts := ValueCounts(times);
    ValueCountsTotal(times);
    SumPercents(Reals(counts), |times| as real);
    SumReals(counts);
  }

  /** Each percentage is its count over the category's row count. */
  lemma DistributionPercent(times: seq<TimeDays>, j: nat)
    requires |times| > 0 && j < |Labels|
    ensures var d := DistributionOf(times);
      d.percentages[j] == d.counts[j] as real / |times| as real * 100.0
  {
  }

  lemma {:induction false} AllDefined(times: seq<TimeDays>)
    requires forall i :: 0 <= i < |times| ==> times[i].Some?
    ensures Defined(times) == |times|
  {
    if times != [] {
      AllDefined(times[..|times| - 1]);
    }
  }

  lemma {:induction false} SomeUndefined(times: seq<TimeDays>, k: nat)
    requires k < |times| && times[k].None?
    ensures Defined(times) < |times|
  {
    var n := |times| - 1;
    if k < n {
      SomeUndefined(times[..n], k);
    }
  }

  /** With no NaN time, every row is counted and the percentages add up to 100. */
  lemma DistributionComplete(times: seq<TimeDays>)
    requires |times| > 0
    requires forall i :: 0 <= i < |times| ==> times[i].Some?
    ensures var d := DistributionOf(times);
      SumNat(d.counts) == |times| && Sum(d.percentages) == 100.0
  {
    DistributionTotals(times);
    AllDefined(times);
    PercentWhole(|times| as real);
  }

  /** A NaN time leaves the counts short of the total and the percentages short of 100. */
  lemma DistributionShortfall(times: seq<TimeDays>, k: nat)
    requires k < |times| && times[k].None?
    ensures var d := DistributionOf(times);
      SumNat(d.counts) < |times| && Sum(d.percentages) < 100.0
  {
    DistributionTotals(times);
    SomeUndefined(times, k);
    PercentBelowWhole(Defined(times) as real, |times| as real);
  }

  /** One category's entry of `all_data`. */
  datatype CategoryData = CategoryData(counts: seq<nat>, percentages: seq<real>, total: nat)

  function CategoryDataOf(times: seq<TimeDays>): (c: CategoryData)
  {
    var d := DistributionOf(times);
    CategoryData(d.counts, d.percentages, |times|)
  }

  /** The loop filling `all_data`, one entry per category, in order. */
  method CalculateAll(categories: seq<Pair<string, seq<TimeDays>>>) returns (allData: seq<Pair<string, CategoryData>>)
    ensures |allData| == |categories|
    ensures forall i :: 0 <= i < |categories| ==>
              allData[i] == Pair(categories[i].key, CategoryDataOf(categories[i].value))
  {
    allData := [];
    for i := 0 to |categories|
      invariant |allData| == i
      invariant forall k :: 0 <= k < i ==> allData[k] == Pair(categories[k].key, CategoryDataOf(categories[k].value))
    {
      var counts, percentages := CalculateDistribution(categories[i].value);
      allData := allData + [Pair(categories[i].key, CategoryData(counts, percentages, |categories[i].value|))];
    }
  }
}
