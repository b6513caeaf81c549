/**
  The per-application view of a workflow table: each row carries an application id, a level
  (authority level or working order), a status and a parsed timestamp. The scripts take
  `unique()` ids, select one application's rows, and summarise them one application at a time.
*/
module Records {
  import opened Transitions

  /** One parsed row; `S` is the status column's type (an integer code or a status string). */
  datatype Record<S> = Record(appId: int, level: int, status: S, time: Instant)

  /** The table is in timestamp order, so every selection of it is too. */
  predicate TimeOrdered<S>(rs: seq<Record<S>>)
  {
    forall i, j :: 0 <= i < j < |rs| ==> rs[i].time <= rs[j].time
  }

  predicate HasId<S>(rs: seq<Record<S>>, id: int)
  {
    exists k :: 0 <= k < |rs| && rs[k].appId == id
  }

  /** `df['table_data_id'].unique()`: every id once, in order of first appearance. */
  function UniqueIds<S>(rs: seq<Record<S>>): (ids: seq<int>)
    ensures forall i, j :: 0 <= i < j < |ids| ==> ids[i] != ids[j]
    ensures forall id :: id in ids <==> HasId(rs, id)
  {
    if rs == [] then []
    else
      var init := rs[..|rs| - 1];
      var u := UniqueIds(init);
      assert forall id :: HasId(rs, id) <==> HasId(init, id) || rs[|rs| - 1].appId == id by {
        forall id | HasId(rs, id) ensures HasId(init, id) || rs[|rs| - 1].appId == id {
          var k :| 0 <= k < |rs| && rs[k].appId == id;
          if k < |rs| - 1 {
            assert init[k].appId == id;
          }
        }
        forall id | HasId(init, id) ensures HasId(rs, id) {
          var k :| 0 <= k < |init| && init[k].appId == id;
          assert rs[k].appId == id;
        }
      }
      if rs[|rs| - 1].appId in u then u else u + [rs[|rs| - 1].appId]
  }

  /** The position of the application's first row. */
  function FirstRow<S>(rs: seq<Record<S>>, id: int): (r: nat)
    requires HasId(rs, id)
    ensures r < |rs| && rs[r].appId == id
    ensures forall i :: 0 <= i < r ==> rs[i].appId != id
    decreases |rs|
  {
    var init := rs[..|rs| - 1];
    assert forall i :: 0 <= i < |rs| - 1 ==> rs[i] == init[i];
    if HasId(init, id) then FirstRow(init, id) else |rs| - 1
  }

  /** `unique()` lists the ids in the order of their first rows. */
  lemma {:induction false} UniqueIdsOrder<S>(rs: seq<Record<S>>, p: nat, q: nat)
    requires p < q < |UniqueIds(rs)|
    ensures HasId(rs, UniqueIds(rs)[p]) && HasId(rs, UniqueIds(rs)[q])
    ensures FirstRow(rs, UniqueIds(rs)[p]) < FirstRow(rs, UniqueIds(rs)[q])
  {
    var ids := UniqueIds(rs);
    var init := rs[..|rs| - 1];
    var before := UniqueIds(init);
    assert ids[p] in ids && ids[q] in ids;
    assert ids[p] == before[p];
    assert before[p] in before;
    if q < |before| {
      assert ids[q] == before[q] && before[q] in before;
      UniqueIdsOrder(init, p, q);
    } else {
      assert ids[q] == rs[|rs| - 1].appId && !HasId(init, ids[q]);
    }
  }

  /** `df[df['table_data_id'] == app_id]`: one application's rows, in table order. */
  function AppRecords<S>(rs: seq<Record<S>>, id: int): (r: seq<Record<S>>)
    ensures forall i :: 0 <= i < |r| ==> r[i] in rs && r[i].appId == id
    ensures |r| <= |rs|
  {
    if rs == [] then []
    else
      var last := rs[|rs| - 1];
      AppRecords(rs[..|rs| - 1], id) + (if last.appId == id then [last] else [])
  }

  /** Every row of the application is selected. */
  lemma {:induction false} AppRecordsComplete<S>(rs: seq<Record<S>>, id: int, k: nat)
    requires k < |rs| && rs[k].appId == id
    ensures rs[k] in AppRecords(rs, id)
  {
    if k < |rs| - 1 {
      AppRecordsComplete(rs[..|rs| - 1], id, k);
    }
  }

  /** An id taken from the table has at least one row. */
  lemma AppRecordsNonEmpty<S>(rs: seq<Record<S>>, id: int)
    requires HasId(rs, id)
    ensures |AppRecords(rs, id)| > 0
  {
    var k :| 0 <= k < |rs| && rs[k].appId == id;
    AppRecordsComplete(rs, id, k);
  }

  /** Selecting one application keeps timestamp order. */
  lemma {:induction false} AppRecordsOrdered<S>(rs: seq<Record<S>>, id: int)
    requires TimeOrdered(rs)
    ensures TimeOrdered(AppRecords(rs, id))
  {
    if rs != [] {
      var init := rs[..|rs| - 1];
      AppRecordsOrdered(init, id);
      var a := AppRecords(init, id);
      forall i | 0 <= i < |a| ensures a[i].time <= rs[|rs| - 1].time {
        var k :| 0 <= k < |init| && init[k] == a[i];
        assert rs[k] == a[i];
      }
    }
  }

  /** `app_records[<level column>].max()` of an application's rows. */
  function MaxLevel<S>(rs: seq<Record<S>>): int
    requires |rs| > 0
  {
    if |rs| == 1 then rs[0].level
    else
      var m := MaxLevel(rs[..|rs| - 1]);
      var last := rs[|rs| - 1].level;
      if last > m then last else m
  }

  /** The maximum bounds every row's level and is the level of some row. */
  lemma {:induction false} MaxLevelBounds<S>(rs: seq<Record<S>>)
    requires |rs| > 0
    ensures forall i :: 0 <= i < |rs| ==> rs[i].level <= MaxLevel(rs)
    ensures exists i :: 0 <= i < |rs| && rs[i].level == MaxLevel(rs)
  {
    if |rs| > 1 {
      var n := |rs| - 1;
      var init := rs[..n];
      MaxLevelBounds(init);
      var m := MaxLevel(init);
      forall i | 0 <= i < |rs| ensures rs[i].level <= MaxLevel(rs) {
        if i < n {
          assert init[i] == rs[i];
        }
      }
      if rs[n].level <= m {
        var k :| 0 <= k < n && init[k].level == m;
        assert rs[k] == init[k];
      } else {
        assert rs[n].level == MaxLevel(rs);
      }
    } else {
      assert rs[0].level == MaxLevel(rs);
    }
  }

  /** The records as the summariser sees them: level and time. */
  function Events<S>(rs: seq<Record<S>>): (ev: seq<Event>)
    ensures |ev| == |rs|
    ensures forall i :: 0 <= i < |rs| ==> ev[i] == Event(rs[i].level, rs[i].time)
  {
    seq(|rs|, i requires 0 <= i < |rs| => Event(rs[i].level, rs[i].time))
  }

  lemma OrderedEvents<S>(rs: seq<Record<S>>)
    requires TimeOrdered(rs)
    ensures Sorted(Events(rs))
  {
  }

  /** Every id taken from the table has rows. */
  lemma IdsHaveRows<S>(rs: seq<Record<S>>, ids: seq<int>)
    requires forall id :: id in ids ==> HasId(rs, id)
    ensures forall k :: 0 <= k < |ids| ==> |AppRecords(rs, ids[k])| > 0
  {
    forall k | 0 <= k < |ids| ensures |AppRecords(rs, ids[k])| > 0 {
      AppRecordsNonEmpty(rs, ids[k]);
    }
  }

  /**
    `f` of every id in `ids` that has rows (`present`), in order; an id without rows is
    skipped, as the `len(app_records) < 1` guard of each per-application loop does.
  */
  function PerApp<T>(ids: seq<int>, present: int -> bool, f: int --> T): seq<T>
    requires forall id :: present(id) ==> f.requires(id)
  {
    if ids == [] then []
    else
      var init := PerApp(ids[..|ids| - 1], present, f);
      var id := ids[|ids| - 1];
      if present(id) then init + [f(id)] else init
  }

  /** Every id with rows yields exactly one entry. */
  lemma {:induction false} PerAppLength<T>(ids: seq<int>, present: int -> bool, f: int --> T)
    requires forall id :: present(id) ==> f.requires(id)
    requires forall k :: 0 <= k < |ids| ==> present(ids[k])
    ensures |PerApp(ids, present, f)| == |ids|
  {
    if ids != [] {
      var init := ids[..|ids| - 1];
      assert forall k :: 0 <= k < |init| ==> init[k] == ids[k];
      PerAppLength(init, present, f);
    }
  }

  /** When every id has rows, the `i`-th entry is `f` of the `i`-th id. */
  lemma {:induction false} PerAppAt<T>(ids: seq<int>, present: int -> bool, f: int --> T, i: nat)
    requires forall id :: present(id) ==> f.requires(id)
    requires forall k :: 0 <= k < |ids| ==> present(ids[k])
    requires i < |ids|
    ensures i < |PerApp(ids, present, f)|
    ensures PerApp(ids, present, f)[i] == f(ids[i])
  {
    var n := |ids| - 1;
    var init := ids[..n];
    assert forall k :: 0 <= k < n ==> init[k] == ids[k];
    PerAppLength(init, present, f);
    if i < n {
      PerAppAt(init, present, f, i);
    }
  }

  /** The rows of `application_data` for the ids in `ids`, in order. */
  function Summaries<S>(rs: seq<Record<S>>, ids: seq<int>): seq<Summary>
  {
    PerApp(ids, id => |AppRecords(rs, id)| > 0,
           id requires |AppRecords(rs, id)| > 0 => SummaryOf(id, Events(AppRecords(rs, id))))
  }

  /** The `i`-th summary is that of the `i`-th id's rows. */
  lemma SummariesAt<S>(rs: seq<Record<S>>, ids: seq<int>, i: nat)
    requires forall k :: 0 <= k < |ids| ==> |AppRecords(rs, ids[k])| > 0
    requires i < |ids|
    ensures |Summaries(rs, ids)| == |ids|
    ensures Summaries(rs, ids)[i] == SummaryOf(ids[i], Events(AppRecords(rs, ids[i])))
  {
    var present := id => |AppRecords(rs, id)| > 0;
    var f := id requires |AppRecords(rs, id)| > 0 => SummaryOf(id, Events(AppRecords(rs, id)));
    PerAppLength(ids, present, f);
    PerAppAt(ids, present, f, i);
  }

  /**
    The summaries come in the order of `ids`, one per id, and each counts its application's
    rows as steps.
  */
  lemma SummariesOnePerId<S>(rs: seq<Record<S>>, ids: seq<int>)
    requires forall id :: id in ids ==> HasId(rs, id)
    ensures |Summaries(rs, ids)| == |ids|
    ensures forall i :: 0 <= i < |ids| ==>
      Summaries(rs, ids)[i].appId == ids[i] && Summaries(rs, ids)[i].numSteps == |AppRecords(rs, ids[i])|
  {
    IdsHaveRows(rs, ids);
    if |ids| > 0 {
      SummariesAt(rs, ids, 0);
    }
    forall i | 0 <= i < |ids|
      ensures Summaries(rs, ids)[i].appId == ids[i]
      ensures Summaries(rs, ids)[i].numSteps == |AppRecords(rs, ids[i])|
    {
      SummariesAt(rs, ids, i);
    }
  }

  /**
    The second loop of every `calculate_application_data*`: summarise each selected id's
    rows and append the result.
  */
  method SummariseAll<S>(rs: seq<Record<S>>, ids: seq<int>) returns (data: seq<Summary>)
    ensures data == Summaries(rs, ids)
  {
    data := [];
    var i := 0;
    while i < |ids|
      invariant 0 <= i <= |ids|
      invariant data == Summaries(rs, ids[..i])
    {
      assert ids[..i + 1][..i] == ids[..i];
      var appId := ids[i];
      var appRecords := AppRecords(rs, appId);
      if |appRecords| < 1 {
        i := i + 1;
        continue;
      }
      var s := Summarise(appId, Events(appRecords));
      data := data + [s];
      i := i + 1;
    }
    assert ids[..i] == ids;
  }
}
