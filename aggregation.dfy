/**
  `aggregate_transitions_by_bin`, identical in the integrated, final-status, bin-chart and
  banijya transition scripts: for every time bin, the mean percentage of each transition over
  the applications of the bin that have it, renormalised to add up to 100.
*/
module Aggregation {
  import opened Wrappers
  import opened Dicts
  import Sums
  import opened Transitions
  import TimeBins

  /** `bin_aggregates[bin_label]`: the bin's transitions and number of applications. */
  datatype BinAggregate = BinAggregate(binLabel: string, transitions: Dict<TransitionKey, real>, count: nat)

  /** `app_df[app_df['bin'] == bin_label]`, in order. */
  function AppsInBin(apps: seq<Summary>, binLabel: string): (r: seq<Summary>)
    ensures forall i :: 0 <= i < |r| ==> r[i] in apps && r[i].bin == binLabel
    ensures |r| <= |apps|
  {
    if apps == [] then []
    else
      var last := apps[|apps| - 1];
      AppsInBin(apps[..|apps| - 1], binLabel) + (if last.bin == binLabel then [last] else [])
  }

  /** Every application of the bin is selected. */
  lemma {:induction false} AppsInBinComplete(apps: seq<Summary>, binLabel: string, k: nat)
    requires k < |apps| && apps[k].bin == binLabel
    ensures apps[k] in AppsInBin(apps, binLabel)
  {
    if k < |apps| - 1 {
      AppsInBinComplete(apps[..|apps| - 1], binLabel, k);
    }
  }

  /** The positions of the applications whose `bin` column is `binLabel`. */
  function BinPositions(apps: seq<Summary>, binLabel: string): set<nat>
  {
    set i: nat | i < |apps| && apps[i].bin == binLabel
  }

  /** The selection holds exactly as many applications as the bin has. */
  lemma {:induction false} AppsInBinCount(apps: seq<Summary>, binLabel: string)
    ensures |AppsInBin(apps, binLabel)| == |BinPositions(apps, binLabel)|
  {
    if apps != [] {
      var n := |apps| - 1;
      var init := apps[..n];
      AppsInBinCount(init, binLabel);
      var before := BinPositions(init, binLabel);
      forall i: nat | i < n ensures apps[i] == init[i] {}
      if apps[n].bin == binLabel {
        assert BinPositions(apps, binLabel) == before + {n};
      } else {
        assert BinPositions(apps, binLabel) == before;
      }
    }
  }

  // ---------------------------------------------------------------------------------------
  // Collecting the percentages of each key: `transition_lists[trans_key].append(pct)`.

  /** `d[k].append(v)` on a `defaultdict(list)`. */
  function AppendTo(d: Dict<TransitionKey, seq<real>>, k: TransitionKey, v: real): (r: Dict<TransitionKey, seq<real>>)
    ensures Keys(r) == Keys(d) + {k}
    ensures Get(r, k) == Some(ListOf(d, k) + [v])
    ensures forall k' :: k' != k ==> Get(r, k') == Get(d, k')
  {
    match Get(d, k)
    case Some(l) => assert ListOf(d, k) == l; Put(d, k, l + [v])
    case None => assert ListOf(d, k) + [v] == [v]; Put(d, k, [v])
  }

  /** The list a `defaultdict(list)` holds for `k`: empty when `k` was never appended to. */
  function ListOf(d: Dict<TransitionKey, seq<real>>, k: TransitionKey): seq<real>
  {
    match Get(d, k)
    case Some(l) => l
    case None => []
  }

  /** Append every entry of one application's transitions, in their order. */
  function AddEntries(d: Dict<TransitionKey, seq<real>>, t: Dict<TransitionKey, real>): Dict<TransitionKey, seq<real>>
  {
    if t == [] then d
    else
      var init: Dict<TransitionKey, real> := t[..|t| - 1];
      AppendTo(AddEntries(d, init), t[|t| - 1].key, t[|t| - 1].value)
  }

  /** `transition_lists` after the applications `apps` have been visited in order. */
  function Collect(apps: seq<Summary>): Dict<TransitionKey, seq<real>>
  {
    if apps == [] then []
    else AddEntries(Collect(apps[..|apps| - 1]), apps[|apps| - 1].transitions)
  }

  /** Reference: the percentages recorded for `k`, one per application that has `k`, in order. */
  function ValuesFor(apps: seq<Summary>, k: TransitionKey): seq<real>
  {
    if apps == [] then []
    else
      var t := apps[|apps| - 1].transitions;
      ValuesFor(apps[..|apps| - 1], k) + (if k in Keys(t) then [Get(t, k).value] else [])
  }

  /** A dict with a last entry whose key is new is that dict with `Put` of the entry. */
  lemma LastEntry<V>(t: Dict<TransitionKey, V>)
    requires t != []
    ensures var init: Dict<TransitionKey, V> := t[..|t| - 1];
      && t[|t| - 1].key !in Keys(init)
      && t == Put(init, t[|t| - 1].key, t[|t| - 1].value)
  {
    var init: Dict<TransitionKey, V> := t[..|t| - 1];
    var last := t[|t| - 1];
    forall i | 0 <= i < |init| ensures init[i].key != last.key {
      assert init[i] == t[i];
    }
    assert t == init + [last];
  }

  /** Appending one application's entries adds its value, once, to each of its keys. */
  lemma {:induction false} AddEntriesGet(d: Dict<TransitionKey, seq<real>>, t: Dict<TransitionKey, real>, k: TransitionKey)
    ensures ListOf(AddEntries(d, t), k) == ListOf(d, k) + (if k in Keys(t) then [Get(t, k).value] else [])
    ensures k in Keys(AddEntries(d, t)) <==> k in Keys(d) || k in Keys(t)
  {
    if t != [] {
      var init: Dict<TransitionKey, real> := t[..|t| - 1];
      var last := t[|t| - 1];
      AddEntriesGet(d, init, k);
      LastEntry(t);
      if last.key == k {
        assert ListOf(AddEntries(d, t), k) == ListOf(AddEntries(d, init), k) + [last.value];
      } else {
        assert Get(AddEntries(d, t), k) == Get(AddEntries(d, init), k);
      }
    }
  }

  /** Each key's list holds exactly the percentages of the applications that have the key. */
  lemma {:induction false} CollectValues(apps: seq<Summary>, k: TransitionKey)
    ensures ListOf(Collect(apps), k) == ValuesFor(apps, k)
    ensures k in Keys(Collect(apps)) <==> ValuesFor(apps, k) != []
  {
    if apps != [] {
      var init := apps[..|apps| - 1];
      CollectValues(init, k);
      AddEntriesGet(Collect(init), apps[|apps| - 1].transitions, k);
    }
  }

  /** The reference list is non-empty exactly when some application has the key. */
  lemma {:induction false} ValuesForNonEmpty(apps: seq<Summary>, k: TransitionKey)
    ensures ValuesFor(apps, k) != [] <==> exists i :: 0 <= i < |apps| && k in Keys(apps[i].transitions)
  {
    if apps != [] {
      var init := apps[..|apps| - 1];
      ValuesForNonEmpty(init, k);
      if exists i :: 0 <= i < |init| && k in Keys(init[i].transitions) {
        var i :| 0 <= i < |init| && k in Keys(init[i].transitions);
        assert apps[i] == init[i];
      }
      if exists i :: 0 <= i < |apps| && k in Keys(apps[i].transitions) {
        var i :| 0 <= i < |apps| && k in Keys(apps[i].transitions);
        if i < |init| {
          assert init[i] == apps[i];
        }
      }
    }
  }

  // ---------------------------------------------------------------------------------------
  // Means and renormalisation.

  /** `np.mean` of a non-empty list. */
  function Mean(l: seq<real>): real
    requires |l| > 0
  {
    Sums.Sum(l) / (|l| as real)
  }

  predicate NonEmptyLists(d: Dict<TransitionKey, seq<real>>)
  {
    forall i :: 0 <= i < |d| ==> |d[i].value| > 0
  }

  /** `transition_means`: every list replaced by its mean, keys in the same order. */
  function Means(d: Dict<TransitionKey, seq<real>>): (r: Dict<TransitionKey, real>)
    requires NonEmptyLists(d)
    ensures |r| == |d|
    ensures forall i :: 0 <= i < |d| ==> r[i] == Pair(d[i].key, Mean(d[i].value))
  {
    var r := seq(|d|, i requires 0 <= i < |d| => Pair(d[i].key, Mean(d[i].value)));
    assert forall i, j :: 0 <= i < j < |r| ==> r[i].key == d[i].key && r[j].key == d[j].key;
    r
  }

  /** `{k: (v/total)*100 for k, v in transition_means.items()}`. */
  function Normalised(d: Dict<TransitionKey, real>, total: real): (r: Dict<TransitionKey, real>)
    requires total != 0.0
    ensures |r| == |d|
    ensures forall i :: 0 <= i < |d| ==> r[i] == Pair(d[i].key, Sums.Percent(d[i].value, total))
  {
    var r := seq(|d|, i requires 0 <= i < |d| => Pair(d[i].key, Sums.Percent(d[i].value, total)));
    assert forall i, j :: 0 <= i < j < |r| ==> r[i].key == d[i].key && r[j].key == d[j].key;
    r
  }

  /** Renormalising by the dict's own positive total makes it add up to exactly 100. */
  lemma NormalisedSum(d: Dict<TransitionKey, real>)
    requires SumValues(d) > 0.0
    ensures SumValues(Normalised(d, SumValues(d))) == 100.0
  {
    var total := SumValues(d);
    var r := Normalised(d, total);
    SumValuesIsSum(d);
    SumValuesIsSum(r);
    assert Values(r) == Sums.Percents(Values(d), total);
    Sums.SumPercents(Values(d), total);
    Sums.PercentWhole(total);
  }

  /** Every collected list is non-empty, so every mean is defined. */
  lemma CollectNonEmpty(apps: seq<Summary>)
    ensures NonEmptyLists(Collect(apps))
  {
    var d := Collect(apps);
    forall i | 0 <= i < |d| ensures |d[i].value| > 0 {
      var k := d[i].key;
      GetAt(d, i);
      CollectValues(apps, k);
    }
  }

  // ---------------------------------------------------------------------------------------
  // The aggregate of one bin and of all bins.

  /** `transition_means` of the applications of one bin, before renormalisation. */
  function MeansIn(inBin: seq<Summary>): Dict<TransitionKey, real>
  {
    CollectNonEmpty(inBin);
    Means(Collect(inBin))
  }

  /** `bin_aggregates[bin_label]` for the applications `apps`. */
  function BinOf(apps: seq<Summary>, binLabel: string): BinAggregate
  {
    var inBin := AppsInBin(apps, binLabel);
    if |inBin| == 0 then BinAggregate(binLabel, [], 0)
    else
      var means := MeansIn(inBin);
      var total := SumValues(means);
      BinAggregate(binLabel, if total > 0.0 then Normalised(means, total) else means, |inBin|)
  }

  function AggregateOf(apps: seq<Summary>): seq<BinAggregate>
  {
    seq(|TimeBins.Labels|, i requires 0 <= i < |TimeBins.Labels| => BinOf(apps, TimeBins.Labels[i]))
  }

  /** The `for trans_key, pct_list in transition_lists.items()` loop. */
  method MeansOf(transitionLists: Dict<TransitionKey, seq<real>>) returns (transitionMeans: Dict<TransitionKey, real>)
    requires NonEmptyLists(transitionLists)
    ensures transitionMeans == Means(transitionLists)
  {
    transitionMeans := [];
    var j := 0;
    while j < |transitionLists|
      invariant 0 <= j <= |transitionLists|
      invariant transitionMeans == Means(transitionLists[..j])
    {
      var key := transitionLists[j].key;
      forall i | 0 <= i < |transitionMeans| ensures transitionMeans[i].key != key {
        assert transitionMeans[i].key == transitionLists[i].key;
      }
      transitionMeans := Put(transitionMeans, key, Mean(transitionLists[j].value));
      assert transitionMeans == Means(transitionLists[..j + 1]);
      j := j + 1;
    }
    assert transitionLists[..j] == transitionLists;
  }

  /** The nested loops that fill `transition_lists` from the bin's applications. */
  method CollectTransitionLists(appsInBin: seq<Summary>) returns (transitionLists: Dict<TransitionKey, seq<real>>)
    ensures transitionLists == Collect(appsInBin)
  {
    transitionLists := [];
    var a := 0;
    while a < |appsInBin|
      invariant 0 <= a <= |appsInBin|
      invariant transitionLists == Collect(appsInBin[..a])
    {
      var t := appsInBin[a].transitions;
      var j := 0;
      while j < |t|
        invariant 0 <= j <= |t|
        invariant transitionLists == AddEntries(Collect(appsInBin[..a]), t[..j])
      {
        assert t[..j + 1][..j] == t[..j];
        transitionLists := AppendTo(transitionLists, t[j].key, t[j].value);
        j := j + 1;
      }
      assert t[..j] == t;
      assert appsInBin[..a + 1][..a] == appsInBin[..a];
      a := a + 1;
    }
    assert appsInBin[..a] == appsInBin;
  }

  /** The body of the `for bin_label in labels` loop, for one bin. */
  method AggregateBin(apps: seq<Summary>, binLabel: string) returns (agg: BinAggregate)
    ensures agg == BinOf(apps, binLabel)
  {
    var appsInBin := AppsInBin(apps, binLabel);
    if |appsInBin| == 0 {
      return BinAggregate(binLabel, [], 0);
    }
    var transitionLists := CollectTransitionLists(appsInBin);
    CollectNonEmpty(appsInBin);
    var transitionMeans := MeansOf(transitionLists);
    var total := SumValues(transitionMeans);
    if total > 0.0 {
      transitionMeans := Normalised(transitionMeans, total);
    }
    return BinAggregate(binLabel, transitionMeans, |appsInBin|);
  }

  method AggregateTransitionsByBin(apps: seq<Summary>) returns (binAggregates: seq<BinAggregate>)
    ensures binAggregates == AggregateOf(apps)
  {
    binAggregates := [];
    var b := 0;
    while b < |TimeBins.Labels|
      invariant 0 <= b <= |TimeBins.Labels|
      invariant |binAggregates| == b
      invariant forall i :: 0 <= i < b ==> binAggregates[i] == BinOf(apps, TimeBins.Labels[i])
    {
      var agg := AggregateBin(apps, TimeBins.Labels[b]);
      binAggregates := binAggregates + [agg];
      b := b + 1;
    }
  }

  // ---------------------------------------------------------------------------------------
  // What the aggregate promises.

  /**
    One entry per bin label, in label order; the count is the number of applications in the
    bin, and an empty bin has no transitions.
  */
  lemma AggregateShape(apps: seq<Summary>)
    ensures |AggregateOf(apps)| == |TimeBins.Labels|
    ensures forall i :: 0 <= i < |TimeBins.Labels| ==>
      && AggregateOf(apps)[i].binLabel == TimeBins.Labels[i]
      && AggregateOf(apps)[i].count == |AppsInBin(apps, TimeBins.Labels[i])|
      && AggregateOf(apps)[i].count == |BinPositions(apps, TimeBins.Labels[i])|
      && (AggregateOf(apps)[i].count == 0 ==> AggregateOf(apps)[i].transitions == [])
  {
    forall i | 0 <= i < |TimeBins.Labels| {
      AppsInBinCount(apps, TimeBins.Labels[i]);
    }
  }

  /** A bin's transitions are exactly the keys some application of the bin has. */
  lemma BinKeys(apps: seq<Summary>, binLabel: string, k: TransitionKey)
    ensures var inBin := AppsInBin(apps, binLabel);
      k in Keys(BinOf(apps, binLabel).transitions)
      <==> exists i :: 0 <= i < |inBin| && k in Keys(inBin[i].transitions)
  {
    var inBin := AppsInBin(apps, binLabel);
    CollectValues(inBin, k);
    ValuesForNonEmpty(inBin, k);
    if |inBin| > 0 {
      CollectNonEmpty(inBin);
      var lists := Collect(inBin);
      var means := Means(lists);
      assert Keys(means) == Keys(lists) by {
        forall x | x in Keys(lists) ensures x in Keys(means) {
          var i :| 0 <= i < |lists| && lists[i].key == x;
          assert means[i].key == x;
        }
      }
      var total := SumValues(means);
      if total > 0.0 {
        var r := Normalised(means, total);
        assert Keys(r) == Keys(means) by {
          forall x | x in Keys(means) ensures x in Keys(r) {
            var i :| 0 <= i < |means| && means[i].key == x;
            assert r[i].key == x;
          }
        }
      }
    }
  }

  /** Stated over the whole table: a bin's transitions are the keys of its applications. */
  lemma BinKeysOfApps(apps: seq<Summary>, binLabel: string, k: TransitionKey)
    ensures k in Keys(BinOf(apps, binLabel).transitions)
      <==> exists j :: 0 <= j < |apps| && apps[j].bin == binLabel && k in Keys(apps[j].transitions)
  {
    var inBin := AppsInBin(apps, binLabel);
    BinKeys(apps, binLabel, k);
    if exists j :: 0 <= j < |apps| && apps[j].bin == binLabel && k in Keys(apps[j].transitions) {
      var j :| 0 <= j < |apps| && apps[j].bin == binLabel && k in Keys(apps[j].transitions);
      AppsInBinComplete(apps, binLabel, j);
      var i :| 0 <= i < |inBin| && inBin[i] == apps[j];
      assert k in Keys(inBin[i].transitions);
    }
    if k in Keys(BinOf(apps, binLabel).transitions) {
      var i :| 0 <= i < |inBin| && k in Keys(inBin[i].transitions);
      var j :| 0 <= j < |apps| && apps[j] == inBin[i];
      assert apps[j].bin == binLabel;
    }
  }

  /**
    A key's value is the mean of the percentages of only those applications of the bin that
    have the key, renormalised by the total of all the bin's means when that total is positive.
  */
  lemma BinValue(apps: seq<Summary>, binLabel: string, k: TransitionKey)
    requires k in Keys(BinOf(apps, binLabel).transitions)
    ensures var inBin := AppsInBin(apps, binLabel);
      var total := SumValues(MeansIn(inBin));
      && |inBin| > 0
      && |ValuesFor(inBin, k)| > 0
      && Get(BinOf(apps, binLabel).transitions, k)
         == Some(if total > 0.0 then Sums.Percent(Mean(ValuesFor(inBin, k)), total)
                 else Mean(ValuesFor(inBin, k)))
  {
    var inBin := AppsInBin(apps, binLabel);
    CollectNonEmpty(inBin);
    var lists := Collect(inBin);
    var means := Means(lists);
    var total := SumValues(means);
    var r := BinOf(apps, binLabel).transitions;
    var i :| 0 <= i < |r| && r[i].key == k;
    CollectValues(inBin, k);
    GetAt(lists, i);
    GetAt(r, i);
  }

  /** A bin whose means add up to a positive total is renormalised to add up to exactly 100. */
  lemma BinSumsTo100(apps: seq<Summary>, binLabel: string)
    requires SumValues(MeansIn(AppsInBin(apps, binLabel))) > 0.0
    ensures SumValues(BinOf(apps, binLabel).transitions) == 100.0
  {
    NormalisedSum(MeansIn(AppsInBin(apps, binLabel)));
  }

  // ---------------------------------------------------------------------------------------
  // A worked example: two applications of the "3d" bin, one moving 1 -> 2 only, the other
  // spending 40% on 1 -> 2 and 60% on 2 -> 3.

  function ExampleApps(): seq<Summary>
  {
    var a := TransitionKey(1, Forward, 2);
    var b := TransitionKey(2, Forward, 3);
    [ Summary(1, 2.5, "3d", [Pair(a, 100.0)], 2),
      Summary(2, 2.5, "3d", [Pair(a, 40.0), Pair(b, 60.0)], 3) ]
  }

  lemma ExampleListsFirst()
    ensures Collect(ExampleApps()[..1]) == [Pair(TransitionKey(1, Forward, 2), [100.0])]
  {
    var apps := ExampleApps();
    var a := TransitionKey(1, Forward, 2);
    var t0: Dict<TransitionKey, real> := apps[0].transitions;
    var empty: Dict<TransitionKey, seq<real>> := [];
    assert AddEntries(empty, t0) == AppendTo(empty, a, 100.0) by {
      assert t0[..0] == [];
    }
    assert ListOf(empty, a) == [];
    assert AppendTo(empty, a, 100.0) == [Pair(a, [100.0])];
    assert apps[..1][..0] == [];
  }

  lemma ExampleAppendExisting()
    ensures AddEntries([Pair(TransitionKey(1, Forward, 2), [100.0])], [Pair(TransitionKey(1, Forward, 2), 40.0)])
            == [Pair(TransitionKey(1, Forward, 2), [100.0, 40.0])]
  {
    var a := TransitionKey(1, Forward, 2);
    var l1: Dict<TransitionKey, seq<real>> := [Pair(a, [100.0])];
    var t: Dict<TransitionKey, real> := [Pair(a, 40.0)];
    assert t[..0] == [];
    GetAt(l1, 0);
    assert AddEntries(l1, t) == Put(l1, a, [100.0] + [40.0]);
    PutShape(l1, a, [100.0] + [40.0]);
    assert l1[0].key == a && [100.0] + [40.0] == [100.0, 40.0];
  }

  lemma ExampleAppendNew()
    ensures AppendTo([Pair(TransitionKey(1, Forward, 2), [100.0, 40.0])], TransitionKey(2, Forward, 3), 60.0)
            == [Pair(TransitionKey(1, Forward, 2), [100.0, 40.0]), Pair(TransitionKey(2, Forward, 3), [60.0])]
  {
    var a := TransitionKey(1, Forward, 2);
    var b := TransitionKey(2, Forward, 3);
    var l2: Dict<TransitionKey, seq<real>> := [Pair(a, [100.0, 40.0])];
    assert b !in Keys(l2);
    PutShape(l2, b, [60.0]);
  }

  lemma ExampleLists()
    ensures Collect(ExampleApps())
            == [Pair(TransitionKey(1, Forward, 2), [100.0, 40.0]), Pair(TransitionKey(2, Forward, 3), [60.0])]
  {
    var apps := ExampleApps();
    var a := TransitionKey(1, Forward, 2);
    var t1: Dict<TransitionKey, real> := apps[1].transitions;
    ExampleListsFirst();
    ExampleAppendExisting();
    ExampleAppendNew();
    assert t1[..1] == [Pair(a, 40.0)];
  }

  /**
    1 -> 2 averages 100 and 40; 2 -> 3 averages only the one application that has it, so its
    mean is 60, not 30: an application without a key does not count as a zero for it.
  */
  lemma ExampleMeans()
    ensures MeansIn(ExampleApps())
            == [Pair(TransitionKey(1, Forward, 2), 70.0), Pair(TransitionKey(2, Forward, 3), 60.0)]
  {
    ExampleLists();
    assert Sums.Sum([100.0, 40.0]) == 140.0 by {
      assert [100.0, 40.0][..1] == [100.0];
      assert [100.0][..0] == [];
    }
    assert Sums.Sum([60.0]) == 60.0 by {
      assert [60.0][..0] == [];
    }
    var d := Collect(ExampleApps());
    CollectNonEmpty(ExampleApps());
    var m := Means(d);
    assert Mean(d[0].value) == 70.0;
    assert Mean(d[1].value) == 60.0;
    assert m[0] == Pair(TransitionKey(1, Forward, 2), 70.0);
    assert m[1] == Pair(TransitionKey(2, Forward, 3), 60.0);
  }

  lemma ExampleAppsInBin()
    ensures AppsInBin(ExampleApps(), "3d") == ExampleApps()
  {
    var apps := ExampleApps();
    assert apps[..1][..0] == [];
  }

  lemma ExampleNormalised()
    ensures var means := [Pair(TransitionKey(1, Forward, 2), 70.0), Pair(TransitionKey(2, Forward, 3), 60.0)];
      && SumValues(means) == 130.0
      && Normalised(means, 130.0)
         == [Pair(TransitionKey(1, Forward, 2), 700.0 / 13.0), Pair(TransitionKey(2, Forward, 3), 600.0 / 13.0)]
  {
    var means := [Pair(TransitionKey(1, Forward, 2), 70.0), Pair(TransitionKey(2, Forward, 3), 60.0)];
    assert means[..1] == [means[0]];
    assert means[..1][..0] == [];
    var r := Normalised(means, 130.0);
    assert r[0].value == 700.0 / 13.0;
    assert r[1].value == 600.0 / 13.0;
  }

  /** The means add up to 130, so they are renormalised to 700/13 and 600/13 percent. */
  lemma ExampleAggregate()
    ensures var agg := BinOf(ExampleApps(), "3d");
      && agg.count == 2
      && agg.transitions == [Pair(TransitionKey(1, Forward, 2), 700.0 / 13.0),
                             Pair(TransitionKey(2, Forward, 3), 600.0 / 13.0)]
  {
    ExampleAppsInBin();
    ExampleMeans();
    ExampleNormalised();
  }

}
