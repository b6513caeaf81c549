/**
  The counting part of `plot_authority_distribution` (authority-level and banijya scripts):
  given the maximum level each application reached, the distinct levels in ascending order,
  how many applications stopped at each, their percentages, the running percentages drawn as
  the cumulative line, and the most common level.
*/
module LevelDistribution {
  import opened Wrappers
  import Sums

  /** `Counter(max_levels)[v]`. */
  function Count(xs: seq<int>, v: int): nat
  {
    multiset(xs)[v]
  }

  predicate StrictlyAscending(s: seq<int>)
  {
    forall i, j :: 0 <= i < j < |s| ==> s[i] < s[j]
  }

  function Insert(s: seq<int>, x: int): (r: seq<int>)
    requires StrictlyAscending(s)
    ensures StrictlyAscending(r)
    ensures forall y :: y in r <==> y in s || y == x
  {
    if s == [] then [x]
    else if x < s[0] then [x] + s
    else if x == s[0] then s
    else
      var t := Insert(s[1..], x);
      assert forall k :: 0 <= k < |t| ==> s[0] < t[k] by {
        forall k | 0 <= k < |t| ensures s[0] < t[k] {
          assert t[k] in t;
          if t[k] != x {
            var m :| 0 <= m < |s[1..]| && s[1..][m] == t[k];
            assert s[m + 1] == t[k];
          }
        }
      }
      [s[0]] + t
  }

  /** `sorted(level_counts.keys())`: every level that occurs, once, in ascending order. */
  function Levels(xs: seq<int>): (r: seq<int>)
    ensures StrictlyAscending(r)
    ensures forall y :: y in r <==> y in xs
  {
    if xs == [] then [] else Insert(Levels(xs[..|xs| - 1]), xs[|xs| - 1])
  }

  /** `[level_counts[level] for level in levels]`. */
  function CountsAt(xs: seq<int>, levels: seq<int>): (r: seq<nat>)
    ensures |r| == |levels|
    ensures forall i :: 0 <= i < |levels| ==> r[i] == Count(xs, levels[i])
  {
    seq(|levels|, i requires 0 <= i < |levels| => Count(xs, levels[i]))
  }

  /** One more value adds one to the count of its level and leaves the others. */
  lemma CountsAtSnoc(init: seq<int>, x: int, levels: seq<int>, p: nat)
    requires StrictlyAscending(levels)
    requires p < |levels| && levels[p] == x
    ensures var before := CountsAt(init, levels);
      CountsAt(init + [x], levels) == before[p := before[p] + 1]
  {
    assert multiset(init + [x]) == multiset(init) + multiset{x};
  }

  /** Counting over distinct levels that cover every value counts every value once. */
  lemma {:induction false} CountsAtSum(xs: seq<int>, levels: seq<int>)
    requires StrictlyAscending(levels)
    requires forall x :: x in xs ==> x in levels
    ensures Sums.SumNat(CountsAt(xs, levels)) == |xs|
  {
    if xs == [] {
      assert CountsAt(xs, levels) == seq(|levels|, i => 0);
      Sums.ZeroSum(|levels|);
    } else {
      var init := xs[..|xs| - 1];
      var x := xs[|xs| - 1];
      assert xs == init + [x];
      CountsAtSum(init, levels);
      assert x in xs;
      var p :| 0 <= p < |levels| && levels[p] == x;
      var before := CountsAt(init, levels);
      CountsAtSnoc(init, x, levels, p);
      Sums.SumNatUpdate(before, p, before[p] + 1);
    }
  }

  // ---------------------------------------------------------------------------------------
  // The most common level.

  /** The distinct values of `xs` in order of first appearance: a `Counter`'s key order. */
  function Appearances(xs: seq<int>): (r: seq<int>)
    ensures forall i, j :: 0 <= i < j < |r| ==> r[i] != r[j]
    ensures forall y :: y in r <==> y in xs
  {
    if xs == [] then []
    else
      var init := Appearances(xs[..|xs| - 1]);
      var x := xs[|xs| - 1];
      if x in init then init else init + [x]
  }

  /**
    The position of `max(keys, key=count)`, as `most_common(1)` computes it: the first key,
    scanning left to right, whose count no later key exceeds.
  */
  function MostCommonAt(xs: seq<int>, keys: seq<int>): (p: nat)
    requires |keys| > 0
    ensures p < |keys|
    ensures forall i :: 0 <= i < |keys| ==> Count(xs, keys[i]) <= Count(xs, keys[p])
    ensures forall i :: 0 <= i < p ==> Count(xs, keys[i]) < Count(xs, keys[p])
  {
    if |keys| == 1 then 0
    else
      var n := |keys| - 1;
      var best := MostCommonAt(xs, keys[..n]);
      assert keys[..n][best] == keys[best];
      assert forall i :: 0 <= i < n ==> keys[..n][i] == keys[i];
      if Count(xs, keys[n]) > Count(xs, keys[best]) then n else best
  }

  // ---------------------------------------------------------------------------------------
  // The whole distribution.

  datatype Distribution = Distribution(
    levels: seq<int>,
    counts: seq<nat>,
    percentages: seq<real>,
    cumulative: seq<real>,
    mode: int,
    modeCount: nat)

  /**
    `None` for a missing or empty list (no chart); otherwise the levels, their counts, the
    counts as percentages of `len(max_levels)`, their running sum and the most common level.
  */
  function DistributionOf(maxLevels: seq<int>): Option<Distribution>
  {
    if |maxLevels| == 0 then None
    else
      var levels := Levels(maxLevels);
      var counts := CountsAt(maxLevels, levels);
      var percentages := Sums.Percents(Sums.Reals(counts), |maxLevels| as real);
      var keys := Appearances(maxLevels);
      var mode := keys[MostCommonAt(maxLevels, keys)];
      Some(Distribution(levels, counts, percentages, Sums.CumSum(percentages), mode, Count(maxLevels, mode)))
  }

  /**
    The levels are exactly the values that occur, ascending and without repeats; each count is
    positive and the number of applications at that level, and the counts add up to the
    number of applications.
  */
  lemma DistributionCounts(maxLevels: seq<int>)
    requires |maxLevels| > 0
    ensures var d := DistributionOf(maxLevels).value;
      && StrictlyAscending(d.levels)
      && (forall v :: v in d.levels <==> v in maxLevels)
      && |d.counts| == |d.levels|
      && (forall i :: 0 <= i < |d.levels| ==> d.counts[i] == Count(maxLevels, d.levels[i]) > 0)
      && Sums.SumNat(d.counts) == |maxLevels|
  {
    var levels := Levels(maxLevels);
    CountsAtSum(maxLevels, levels);
    forall i | 0 <= i < |levels| ensures Count(maxLevels, levels[i]) > 0 {
      assert levels[i] in maxLevels;
    }
  }

  /**
    Counts that add up to a positive total, as percentages of it, add up to 100, and their
    running sum never falls and ends at 100.
  */
  lemma CountPercentages(counts: seq<nat>, total: nat)
    requires total > 0 && Sums.SumNat(counts) == total
    ensures var ps := Sums.Percents(Sums.Reals(counts), total as real);
      && Sums.Sum(ps) == 100.0
      && (forall i, j :: 0 <= i <= j < |ps| ==> Sums.CumSum(ps)[i] <= Sums.CumSum(ps)[j])
      && (|ps| > 0 ==> Sums.CumSum(ps)[|ps| - 1] == 100.0)
  {
    var ps := Sums.Percents(Sums.Reals(counts), total as real);
    Sums.SumPercents(Sums.Reals(counts), total as real);
    Sums.SumReals(counts);
    Sums.PercentWhole(total as real);
    forall i | 0 <= i < |ps| ensures ps[i] >= 0.0 {
      assert ps[i] == Sums.Percent(counts[i] as real, total as real);
    }
    Sums.CumSumMonotone(ps);
  }

  /** The percentages add up to 100; the cumulative line never falls and ends at 100. */
  lemma DistributionPercentages(maxLevels: seq<int>)
    requires |maxLevels| > 0
    ensures var d := DistributionOf(maxLevels).value;
      && |d.percentages| == |d.levels| && |d.cumulative| == |d.levels| && |d.levels| > 0
      && Sums.Sum(d.percentages) == 100.0
      && (forall i, j :: 0 <= i <= j < |d.cumulative| ==> d.cumulative[i] <= d.cumulative[j])
      && d.cumulative[|d.cumulative| - 1] == 100.0
  {
    DistributionCounts(maxLevels);
    var d := DistributionOf(maxLevels).value;
    assert maxLevels[0] in d.levels;
    CountPercentages(d.counts, |maxLevels|);
  }

  /**
    The reported mode occurs, no level is more common, and of equally common levels it is the
    one that appears first in `max_levels`.
  */
  lemma DistributionMode(maxLevels: seq<int>)
    requires |maxLevels| > 0
    ensures var d := DistributionOf(maxLevels).value;
      && d.mode in maxLevels
      && d.modeCount == Count(maxLevels, d.mode)
      && (forall v :: Count(maxLevels, v) <= d.modeCount)
      && (forall v :: v in maxLevels && Count(maxLevels, v) == d.modeCount
            ==> FirstIndex(maxLevels, d.mode) <= FirstIndex(maxLevels, v))
  {
    var d := DistributionOf(maxLevels).value;
    var keys := Appearances(maxLevels);
    assert maxLevels[0] in keys;
    forall v ensures Count(maxLevels, v) <= d.modeCount {
      if v !in maxLevels {
        assert Count(maxLevels, v) == 0;
      }
    }
    var p := MostCommonAt(maxLevels, keys);
    assert d.mode == keys[p];
    forall v | v in maxLevels && Count(maxLevels, v) == d.modeCount
      ensures FirstIndex(maxLevels, d.mode) <= FirstIndex(maxLevels, v)
    {
      var q :| 0 <= q < |keys| && keys[q] == v;
      assert p <= q;
      AppearancesOrder(maxLevels, p, q);
    }
  }

  /** The position of the first occurrence of `v`. */
  function FirstIndex(xs: seq<int>, v: int): (r: nat)
    requires v in xs
    ensures r < |xs| && xs[r] == v && forall i :: 0 <= i < r ==> xs[i] != v
  {
    if xs[0] == v then 0 else 1 + FirstIndex(xs[1..], v)
  }

  /** Keys earlier in a `Counter`'s order first appear earlier in the list. */
  lemma {:induction false} AppearancesOrder(xs: seq<int>, p: nat, q: nat)
    requires p <= q < |Appearances(xs)|
    ensures Appearances(xs)[p] in xs && Appearances(xs)[q] in xs
    ensures FirstIndex(xs, Appearances(xs)[p]) <= FirstIndex(xs, Appearances(xs)[q])
  {
    var keys := Appearances(xs);
    var init := xs[..|xs| - 1];
    var x := xs[|xs| - 1];
    assert keys[p] in xs && keys[q] in xs;
    var before := Appearances(init);
    if q < |before| {
      assert keys[p] == before[p] && keys[q] == before[q];
      AppearancesOrder(init, p, q);
      FirstIndexPrefix(xs, init, before[p]);
      FirstIndexPrefix(xs, init, before[q]);
    } else {
      assert keys[q] == x && x !in init;
      assert FirstIndex(xs, x) == |xs| - 1;
    }
  }

  lemma FirstIndexPrefix(xs: seq<int>, init: seq<int>, v: int)
    requires |init| <= |xs| && init == xs[..|init|] && v in init
    ensures v in xs && FirstIndex(xs, v) == FirstIndex(init, v)
  {
    var k := FirstIndex(init, v);
    assert xs[k] == v;
    forall i | 0 <= i < k ensures xs[i] != v {
      assert xs[i] == init[i];
    }
  }

  lemma ExampleLevelsPrefix()
    ensures Levels([3, 1, 3]) == [1, 3]
  {
    assert [3, 1, 3][..2] == [3, 1] && [3, 1][..1] == [3] && [3][..0] == [];
    assert Levels([3]) == [3];
    assert Insert([3], 1) == [1, 3];
    assert Levels([3, 1]) == [1, 3];
    assert Insert([1, 3][1..], 3) == [3];
  }

  /** 3, 1, 3, 2, 1: the levels are 1, 2 and 3. */
  lemma ExampleLevels()
    ensures Levels([3, 1, 3, 2, 1]) == [1, 2, 3]
  {
    ExampleLevelsPrefix();
    assert [3, 1, 3, 2, 1][..4] == [3, 1, 3, 2] && [3, 1, 3, 2][..3] == [3, 1, 3];
    assert Insert([3], 2) == [2, 3];
    assert Levels([3, 1, 3, 2]) == [1, 2, 3];
    assert Insert([2, 3], 1) == [1, 2, 3];
  }

  lemma ExampleAppearancesPrefix()
    ensures Appearances([3, 1, 3]) == [3, 1]
  {
    assert Appearances([3]) == [3] by {
      assert [3][..0] == [];
    }
    assert Appearances([3, 1]) == [3, 1] by {
      assert [3, 1][..1] == [3];
    }
    assert [3, 1, 3][..2] == [3, 1];
  }

  lemma ExampleAppearances()
    ensures Appearances([3, 1, 3, 2, 1]) == [3, 1, 2]
  {
    ExampleAppearancesPrefix();
    assert Appearances([3, 1, 3, 2]) == [3, 1, 2] by {
      assert [3, 1, 3, 2][..3] == [3, 1, 3];
    }
    assert [3, 1, 3, 2, 1][..4] == [3, 1, 3, 2];
  }

  lemma ExampleCounts()
    ensures CountsAt([3, 1, 3, 2, 1], [1, 2, 3]) == [2, 1, 2]
  {
    var xs := [3, 1, 3, 2, 1];
    assert multiset(xs)[1] == 2 && multiset(xs)[2] == 1 && multiset(xs)[3] == 2;
    var r := CountsAt(xs, [1, 2, 3]);
    assert r[0] == 2 && r[1] == 1 && r[2] == 2;
  }

  /** Levels 1 and 3 tie with two applications each; 3 is reported, as it appears first. */
  lemma ExampleDistribution()
    ensures var d := DistributionOf([3, 1, 3, 2, 1]).value;
      && d.levels == [1, 2, 3]
      && d.counts == [2, 1, 2]
      && d.mode == 3
      && d.modeCount == 2
  {
    var xs := [3, 1, 3, 2, 1];
    ExampleLevels();
    ExampleCounts();
    ExampleAppearances();
    var keys := [3, 1, 2];
    assert Count(xs, 1) == 2 && Count(xs, 2) == 1 && Count(xs, 3) == 2;
    assert keys[..2][..1] == [3] && keys[..2] == [3, 1];
    assert MostCommonAt(xs, [3]) == 0;
    assert MostCommonAt(xs, [3, 1]) == 0;
    assert MostCommonAt(xs, keys) == 0;
  }
}
