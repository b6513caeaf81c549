/**
  The per-application summariser shared by `calculate_application_data`,
  both `calculate_application_data_by_status` variants and both banijya `analyze_file`s:
  from one application's records in timestamp order it computes the elapsed days,
  the time bin, and the dict from transition key to percentage of the elapsed time.
*/
module Transitions {
  import opened Wrappers
  import opened Dicts
  import Sums
  import TimeBins

  /** Seconds since the epoch; the scripts parse timestamps with minute resolution. */
  type Instant = int

  /** `timedelta.total_seconds() / 86400`. */
  function Days(seconds: int): real
  {
    seconds as real / 86400.0
  }

  /** One workflow record of an application: its authority level (or working order) and time. */
  datatype Event = Event(level: int, time: Instant)

  /** `→` when the level rises, `←` otherwise. */
  datatype Arrow = Forward | Backward

  /** The key `L{from}→L{to}` / `L{from}←L{to}` (or `O…` for banijya working orders). */
  datatype TransitionKey = TransitionKey(from: int, arrow: Arrow, to: int)

  function KeyOf(from: int, to: int): TransitionKey
  {
    TransitionKey(from, if to > from then Forward else Backward, to)
  }

  predicate Sorted(ev: seq<Event>)
  {
    forall i, j :: 0 <= i < j < |ev| ==> ev[i].time <= ev[j].time
  }

  /** `app_records[time].min()`. */
  function MinTime(ev: seq<Event>): (t: Instant)
    requires |ev| > 0
    ensures forall i :: 0 <= i < |ev| ==> t <= ev[i].time
    ensures exists i :: 0 <= i < |ev| && ev[i].time == t
  {
    if |ev| == 1 then ev[0].time
    else
      var m := MinTime(ev[..|ev| - 1]);
      if ev[|ev| - 1].time < m then ev[|ev| - 1].time else m
  }

  /** `app_records[time].max()`. */
  function MaxTime(ev: seq<Event>): (t: Instant)
    requires |ev| > 0
    ensures forall i :: 0 <= i < |ev| ==> ev[i].time <= t
    ensures exists i :: 0 <= i < |ev| && ev[i].time == t
  {
    if |ev| == 1 then ev[0].time
    else
      var m := MaxTime(ev[..|ev| - 1]);
      if ev[|ev| - 1].time > m then ev[|ev| - 1].time else m
  }

  /** `total_days`: latest minus earliest timestamp, in days. */
  function ElapsedDays(ev: seq<Event>): real
    requires |ev| > 0
  {
    Days(MaxTime(ev) - MinTime(ev))
  }

  /** In timestamp order the earliest record is the first and the latest the last. */
  lemma SortedElapsed(ev: seq<Event>)
    requires |ev| > 0 && Sorted(ev)
    ensures MinTime(ev) == ev[0].time && MaxTime(ev) == ev[|ev| - 1].time
    ensures ElapsedDays(ev) == Days(ev[|ev| - 1].time - ev[0].time) >= 0.0
  {
  }

  /** Gap between record `i` and record `i + 1`, in days. */
  function GapDays(ev: seq<Event>, i: nat): real
    requires i + 1 < |ev|
  {
    Days(ev[i + 1].time - ev[i].time)
  }

  /** `trans_pct`: the gap as a percentage of the elapsed time, or 0 when that is not positive. */
  function Share(gapDays: real, totalDays: real): real
  {
    if totalDays > 0.0 then Sums.Percent(gapDays, totalDays) else 0.0
  }

  /** The `transitions` dict after the loop has looked at the first `n` consecutive pairs. */
  function Accumulated(ev: seq<Event>, n: nat, totalDays: real): Dict<TransitionKey, real>
    requires n < |ev|
  {
    if n == 0 then []
    else
      var d := Accumulated(ev, n - 1, totalDays);
      var from, to := ev[n - 1].level, ev[n].level;
      if from == to then d else AddTo(d, KeyOf(from, to), Share(GapDays(ev, n - 1), totalDays))
  }

  // ---------------------------------------------------------------------------------------
  // An independent description of the dict: which pairs contribute to a key, and how much.

  /** The pair at `i` is a move between two different levels, recorded under `k`. */
  predicate MovesAt(ev: seq<Event>, i: nat, k: TransitionKey)
    requires i + 1 < |ev|
  {
    && ev[i].level != ev[i + 1].level
    && k.from == ev[i].level && k.to == ev[i + 1].level
    && (k.arrow == Forward <==> ev[i + 1].level > ev[i].level)
  }

  predicate Occurs(ev: seq<Event>, n: nat, k: TransitionKey)
    requires n < |ev|
  {
    exists i :: 0 <= i < n && MovesAt(ev, i, k)
  }

  /** The summed percentages of all pairs among the first `n` that move under `k`. */
  function Contribution(ev: seq<Event>, n: nat, k: TransitionKey, totalDays: real): real
    requires n < |ev|
  {
    if n == 0 then 0.0
    else Contribution(ev, n - 1, k, totalDays)
         + (if MovesAt(ev, n - 1, k) then Share(GapDays(ev, n - 1), totalDays) else 0.0)
  }

  /**
    A key is in the dict exactly when some pair of different levels moves under it:
    same-level pairs add nothing, and `→` means the level rose.
  */
  lemma {:induction false} AccumulatedKeys(ev: seq<Event>, n: nat, totalDays: real, k: TransitionKey)
    requires n < |ev|
    ensures k in Keys(Accumulated(ev, n, totalDays)) <==> Occurs(ev, n, k)
  {
    if n > 0 {
      var m := n - 1;
      AccumulatedKeys(ev, m, totalDays, k);
      OccursStep(ev, n, k);
      if ev[m].level != ev[n].level {
        assert MovesAt(ev, m, k) <==> k == KeyOf(ev[m].level, ev[n].level);
      }
    }
  }

  /** A key's value is the sum of the percentages of all pairs that move under it. */
  lemma {:induction false} AccumulatedValue(ev: seq<Event>, n: nat, totalDays: real, k: TransitionKey)
    requires n < |ev| && Occurs(ev, n, k)
    ensures Get(Accumulated(ev, n, totalDays), k) == Some(Contribution(ev, n, k, totalDays))
  {
    var m := n - 1;
    OccursStep(ev, n, k);
    var d := Accumulated(ev, m, totalDays);
    var before := Contribution(ev, m, k, totalDays);
    if Occurs(ev, m, k) {
      AccumulatedValue(ev, m, totalDays, k);
      assert Get(d, k) == Some(before);
      assert k in Keys(d);
      if MovesAt(ev, m, k) {
        MoveStep(ev, n, totalDays, k, before);
      } else {
        StayStep(ev, n, totalDays, k);
      }
    } else {
      ContributionAbsent(ev, m, totalDays, k);
      AccumulatedKeys(ev, m, totalDays, k);
      assert k !in Keys(d) && before == 0.0;
      MoveStep(ev, n, totalDays, k, 0.0);
    }
  }

  /** A key that never occurs gets nothing from the reference sum. */
  lemma {:induction false} ContributionAbsent(ev: seq<Event>, n: nat, totalDays: real, k: TransitionKey)
    requires n < |ev| && !Occurs(ev, n, k)
    ensures Contribution(ev, n, k, totalDays) == 0.0
  {
    if n > 0 {
      OccursStep(ev, n, k);
      ContributionAbsent(ev, n - 1, totalDays, k);
    }
  }

  /**
    A pair that moves under `k` adds its share to `k`'s entry (taken as 0 when absent),
    exactly as the loop's `+=` does, and to the reference sum.
  */
  lemma MoveStep(ev: seq<Event>, n: nat, totalDays: real, k: TransitionKey, before: real)
    requires 0 < n < |ev| && MovesAt(ev, n - 1, k)
    requires var d := Accumulated(ev, n - 1, totalDays);
      if k in Keys(d) then Get(d, k) == Some(before) else before == 0.0
    ensures Get(Accumulated(ev, n, totalDays), k) == Some(before + Share(GapDays(ev, n - 1), totalDays))
    ensures Contribution(ev, n, k, totalDays)
            == Contribution(ev, n - 1, k, totalDays) + Share(GapDays(ev, n - 1), totalDays)
  {
    var d := Accumulated(ev, n - 1, totalDays);
    var sh := Share(GapDays(ev, n - 1), totalDays);
    assert k == KeyOf(ev[n - 1].level, ev[n].level);
    assert Accumulated(ev, n, totalDays) == AddTo(d, k, sh);
  }

  /** A pair that does not move under `k` leaves both `k`'s entry and its reference sum alone. */
  lemma StayStep(ev: seq<Event>, n: nat, totalDays: real, k: TransitionKey)
    requires 0 < n < |ev| && !MovesAt(ev, n - 1, k)
    ensures Get(Accumulated(ev, n, totalDays), k) == Get(Accumulated(ev, n - 1, totalDays), k)
    ensures Contribution(ev, n, k, totalDays) == Contribution(ev, n - 1, k, totalDays)
  {
    var m := n - 1;
    if ev[m].level != ev[n].level {
      assert k != KeyOf(ev[m].level, ev[n].level);
    }
  }

  lemma OccursStep(ev: seq<Event>, n: nat, k: TransitionKey)
    requires 0 < n < |ev|
    ensures Occurs(ev, n, k) <==> Occurs(ev, n - 1, k) || MovesAt(ev, n - 1, k)
  {
    if Occurs(ev, n, k) {
      var i :| 0 <= i < n && MovesAt(ev, i, k);
      if i < n - 1 {
        assert Occurs(ev, n - 1, k);
      }
    }
    if Occurs(ev, n - 1, k) {
      var i :| 0 <= i < n - 1 && MovesAt(ev, i, k);
      assert 0 <= i < n;
    }
  }

  /** With zero elapsed time every recorded transition is still present, with value 0. */
  lemma {:induction false} ZeroDurationShares(ev: seq<Event>, n: nat, k: TransitionKey)
    requires n < |ev|
    requires k in Keys(Accumulated(ev, n, 0.0))
    ensures Get(Accumulated(ev, n, 0.0), k) == Some(0.0)
  {
    if n > 0 {
      var d := Accumulated(ev, n - 1, 0.0);
      if k in Keys(d) {
        ZeroDurationShares(ev, n - 1, k);
      }
    }
  }

  /** Sum of the percentages of the pairs of different levels among the first `n`. */
  function MovedShare(ev: seq<Event>, n: nat, totalDays: real): real
    requires n < |ev|
  {
    if n == 0 then 0.0
    else MovedShare(ev, n - 1, totalDays)
         + (if ev[n - 1].level != ev[n].level then Share(GapDays(ev, n - 1), totalDays) else 0.0)
  }

  lemma {:induction false} SumIsMovedShare(ev: seq<Event>, n: nat, totalDays: real)
    requires n < |ev|
    ensures SumValues(Accumulated(ev, n, totalDays)) == MovedShare(ev, n, totalDays)
  {
    if n > 0 {
      var m := n - 1;
      SumIsMovedShare(ev, m, totalDays);
      var d := Accumulated(ev, m, totalDays);
      if ev[m].level != ev[n].level {
        var k := KeyOf(ev[m].level, ev[n].level);
        var sh := Share(GapDays(ev, m), totalDays);
        assert Accumulated(ev, n, totalDays) == AddTo(d, k, sh);
        AddToSum(d, k, sh);
      } else {
        assert Accumulated(ev, n, totalDays) == d;
      }
    }
  }

  /**
    The moved share never exceeds the share of all gaps up to record `n`, which is the time
    from the first record to record `n` as a percentage; it equals it when no pair repeats a level.
  */
  lemma {:induction false} MovedShareBound(ev: seq<Event>, n: nat, totalDays: real)
    requires n < |ev| && Sorted(ev) && totalDays > 0.0
    ensures MovedShare(ev, n, totalDays) <= Sums.Percent(Days(ev[n].time - ev[0].time), totalDays)
    ensures (forall i :: 0 <= i < n ==> ev[i].level != ev[i + 1].level)
            ==> MovedShare(ev, n, totalDays) == Sums.Percent(Days(ev[n].time - ev[0].time), totalDays)
  {
    if n == 0 {
      assert Days(ev[0].time - ev[0].time) == 0.0;
    } else {
      MovedShareBound(ev, n - 1, totalDays);
      var gap := GapDays(ev, n - 1);
      assert gap >= 0.0;
      assert Sums.Percent(gap, totalDays) >= 0.0;
      assert Days(ev[n - 1].time - ev[0].time) + gap == Days(ev[n].time - ev[0].time);
      Sums.PercentAdd(Days(ev[n - 1].time - ev[0].time), gap, totalDays);
    }
  }

  // ---------------------------------------------------------------------------------------
  // The summary record and the imperative summariser.

  /** One row of `application_data`. */
  datatype Summary = Summary(
    appId: int,
    totalDays: real,
    bin: string,
    transitions: Dict<TransitionKey, real>,
    numSteps: nat)

  function SummaryOf(appId: int, ev: seq<Event>): Summary
    requires |ev| > 0
  {
    var total := ElapsedDays(ev);
    Summary(appId, total, TimeBins.BinLabel(total), Accumulated(ev, |ev| - 1, total), |ev|)
  }

  /** The elapsed time runs from the first to the last record, and the bin is one of the labels. */
  lemma SummaryShape(appId: int, ev: seq<Event>)
    requires |ev| > 0 && Sorted(ev)
    ensures var s := SummaryOf(appId, ev);
      && s.appId == appId && s.numSteps == |ev|
      && s.totalDays == Days(ev[|ev| - 1].time - ev[0].time) >= 0.0
      && s.bin in TimeBins.Labels
      && (|ev| == 1 ==> s.totalDays == 0.0 && s.transitions == [])
  {
    SortedElapsed(ev);
  }

  /** The summary's transition keys are exactly the moves that occur between consecutive records. */
  lemma SummaryKeys(appId: int, ev: seq<Event>, k: TransitionKey)
    requires |ev| > 0
    ensures var s := SummaryOf(appId, ev);
      k in Keys(s.transitions) <==> Occurs(ev, |ev| - 1, k)
  {
    AccumulatedKeys(ev, |ev| - 1, ElapsedDays(ev), k);
  }

  /** Over a positive duration the transition percentages add up to at most 100. */
  lemma SummaryShareBound(appId: int, ev: seq<Event>)
    requires |ev| > 0 && Sorted(ev)
    ensures var s := SummaryOf(appId, ev);
      s.totalDays > 0.0 ==> SumValues(s.transitions) <= 100.0
  {
    var total := ElapsedDays(ev);
    var n := |ev| - 1;
    if total > 0.0 {
      SortedElapsed(ev);
      assert Days(ev[n].time - ev[0].time) == total;
      SumIsMovedShare(ev, n, total);
      MovedShareBound(ev, n, total);
      Sums.PercentWhole(total);
    }
  }

  /** Over a zero duration every transition is kept, with percentage 0. */
  lemma SummaryZeroDuration(appId: int, ev: seq<Event>, k: TransitionKey)
    requires |ev| > 0
    ensures var s := SummaryOf(appId, ev);
      s.totalDays == 0.0 && k in Keys(s.transitions) ==> Get(s.transitions, k) == Some(0.0)
  {
    if ElapsedDays(ev) == 0.0 && k in Keys(Accumulated(ev, |ev| - 1, 0.0)) {
      ZeroDurationShares(ev, |ev| - 1, k);
    }
  }

  /**
    One pass of the pair loop for two different levels: the key by direction, the gap as a
    share of the elapsed time, added to the key's running total or stored under a new key.
  */
  method RecordTransition(transitions: Dict<TransitionKey, real>, records: seq<Event>, i: nat, totalDays: real)
    returns (updated: Dict<TransitionKey, real>)
    requires i + 1 < |records| && records[i].level != records[i + 1].level
    requires transitions == Accumulated(records, i, totalDays)
    ensures updated == Accumulated(records, i + 1, totalDays)
  {
    var fromLevel := records[i].level;
    var toLevel := records[i + 1].level;
    var transitionTime := Days(records[i + 1].time - records[i].time);
    var transKey := if toLevel > fromLevel then TransitionKey(fromLevel, Forward, toLevel)
                    else TransitionKey(fromLevel, Backward, toLevel);
    var transPct := if totalDays > 0.0 then transitionTime / totalDays * 100.0 else 0.0;
    assert transKey == KeyOf(fromLevel, toLevel);
    assert transPct == Share(GapDays(records, i), totalDays);
    AddToCases(transitions, transKey, transPct);
    match Get(transitions, transKey) {
      case Some(sofar) => updated := Put(transitions, transKey, sofar + transPct);
      case None => updated := Put(transitions, transKey, transPct);
    }
  }

  /**
    The body of the per-application loop: elapsed days from the earliest to the latest record,
    the transition dict built pair by pair, and the clamped `np.digitize` bin.
  */
  method Summarise(appId: int, records: seq<Event>) returns (s: Summary)
    requires |records| > 0
    ensures s == SummaryOf(appId, records)
  {
    var startTime := MinTime(records);
    var endTime := MaxTime(records);
    var totalDays := Days(endTime - startTime);

    var transitions: Dict<TransitionKey, real> := [];
    var i := 0;
    while i < |records| - 1
      invariant 0 <= i <= |records| - 1
      invariant transitions == Accumulated(records, i, totalDays)
    {
      var fromLevel := records[i].level;
      var toLevel := records[i + 1].level;
      if fromLevel == toLevel {
        i := i + 1;
        continue;
      }
      transitions := RecordTransition(transitions, records, i, totalDays);
      i := i + 1;
    }

    var binIdx := TimeBins.Digitize(TimeBins.Edges, totalDays) - 1;
    if binIdx < 0 {
      binIdx := 0;
    }
    if binIdx >= |TimeBins.Labels| {
      binIdx := |TimeBins.Labels| - 1;
    }
    s := Summary(appId, totalDays, TimeBins.Labels[binIdx], transitions, |records|);
  }

  /** Levels 1, 1, 3, 3 at days 0, 1, 4 and 10. */
  function ExampleRecords(): seq<Event>
  {
    [Event(1, 0), Event(1, 86400), Event(3, 4 * 86400), Event(3, 10 * 86400)]
  }

  /** Ten days elapse, which is in the "2wk" bin. */
  lemma ExampleElapsed()
    ensures ElapsedDays(ExampleRecords()) == 10.0
    ensures TimeBins.BinLabel(ElapsedDays(ExampleRecords())) == "2wk"
  {
    var ev := ExampleRecords();
    assert Sorted(ev);
    SortedElapsed(ev);
    TimeBins.ExampleTenDays();
  }

  /** The single move 1 → 3 takes (4 - 1) / 10 of the time; the same-level pairs record nothing. */
  lemma ExampleTransitions()
    ensures Accumulated(ExampleRecords(), 3, 10.0) == [Pair(TransitionKey(1, Forward, 3), 30.0)]
  {
    var ev := ExampleRecords();
    assert Accumulated(ev, 1, 10.0) == [];
    assert Accumulated(ev, 2, 10.0) == [Pair(TransitionKey(1, Forward, 3), 30.0)];
  }

  lemma ExampleSummary()
    ensures SummaryOf(7, ExampleRecords())
            == Summary(7, 10.0, "2wk", [Pair(TransitionKey(1, Forward, 3), 30.0)], 4)
  {
    ExampleElapsed();
    ExampleTransitions();
  }
}
