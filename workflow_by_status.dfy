/**
  `calculate_application_data_by_status` of the final-status script: an application belongs
  to a category according to the integer `auth_status` of its chronologically last record.
*/
module WorkflowByStatus {
  import opened Wrappers
  import opened Transitions
  import opened Records
  import opened WorkflowTable

  datatype Category = Approved | Rejected | InProcess

  /** The categories' `filter_func`s: 1 approved, 2 or 3 rejected, 0 still in process. */
  predicate Selects(c: Category, finalStatus: int)
  {
    match c
    case Approved => finalStatus == 1
    case Rejected => finalStatus in [2, 3]
    case InProcess => finalStatus == 0
  }

  /** No final status is in two categories, and exactly the codes 0 to 3 are in one. */
  lemma CategoriesPartition(finalStatus: int)
    ensures forall c1, c2 :: Selects(c1, finalStatus) && Selects(c2, finalStatus) ==> c1 == c2
    ensures (exists c :: Selects(c, finalStatus)) <==> 0 <= finalStatus <= 3
  {
    if 0 <= finalStatus <= 3 {
      var c := if finalStatus == 1 then Approved else if finalStatus == 0 then InProcess else Rejected;
      assert Selects(c, finalStatus);
    }
  }

  /** `app_records.iloc[-1]['auth_status']` passes the category's filter. */
  predicate IsSelected(rs: seq<Record<int>>, id: int, c: Category)
  {
    var ar := AppRecords(rs, id);
    |ar| > 0 && Selects(c, ar[|ar| - 1].status)
  }

  /** `filtered_app_ids`: the ids of `ids` whose final status is in the category, in order. */
  function SelectedIds(rs: seq<Record<int>>, ids: seq<int>, c: Category): seq<int>
  {
    if ids == [] then []
    else
      var init := SelectedIds(rs, ids[..|ids| - 1], c);
      var id := ids[|ids| - 1];
      if IsSelected(rs, id, c) then init + [id] else init
  }

  /** An id is kept exactly when it is among `ids` and its final status is in the category. */
  lemma {:induction false} SelectedIdsMembers(rs: seq<Record<int>>, ids: seq<int>, c: Category, id: int)
    ensures id in SelectedIds(rs, ids, c) <==> id in ids && IsSelected(rs, id, c)
  {
    if ids != [] {
      var init := ids[..|ids| - 1];
      SelectedIdsMembers(rs, init, c, id);
      assert ids == init + [ids[|ids| - 1]];
    }
  }

  lemma SelectedIdsStep(rs: seq<Record<int>>, ids: seq<int>, c: Category, i: nat)
    requires i < |ids|
    ensures SelectedIds(rs, ids[..i + 1], c)
            == SelectedIds(rs, ids[..i], c) + (if IsSelected(rs, ids[i], c) then [ids[i]] else [])
  {
    assert ids[..i + 1][..i] == ids[..i];
  }

  /** The first loop: keep the ids whose last record's status passes the filter. */
  method FilterByFinalStatus(processDf: seq<Record<int>>, appIds: seq<int>, c: Category)
    returns (filteredAppIds: seq<int>)
    requires forall k :: 0 <= k < |appIds| ==> |AppRecords(processDf, appIds[k])| > 0
    ensures filteredAppIds == SelectedIds(processDf, appIds, c)
  {
    filteredAppIds := [];
    var i := 0;
    while i < |appIds|
      invariant 0 <= i <= |appIds|
      invariant filteredAppIds == SelectedIds(processDf, appIds[..i], c)
    {
      SelectedIdsStep(processDf, appIds, c, i);
      var appId := appIds[i];
      var appRecords := AppRecords(processDf, appId);
      var finalStatus := appRecords[|appRecords| - 1].status;
      if Selects(c, finalStatus) {
        filteredAppIds := filteredAppIds + [appId];
      }
      i := i + 1;
    }
    assert appIds[..i] == appIds;
  }

  /** `None` when the process has no rows or no application is in the category. */
  function ApplicationDataByStatus(rows: seq<WorkflowRow>, processName: string, c: Category)
    : Option<seq<Summary>>
  {
    var process := ProcessRecords(rows, processName);
    if |process| == 0 then None
    else
      var filtered := SelectedIds(process, UniqueIds(process), c);
      if |filtered| == 0 then None else Some(Summaries(process, filtered))
  }

  method CalculateApplicationDataByStatus(rows: seq<WorkflowRow>, processName: string, c: Category)
    returns (r: Option<seq<Summary>>)
    requires TableOrdered(rows)
    ensures r == ApplicationDataByStatus(rows, processName, c)
  {
    var processDf := ProcessRecords(rows, processName);
    if |processDf| == 0 {
      return None;
    }
    var appIds := UniqueIds(processDf);
    IdsHaveRows(processDf, appIds);
    var filteredAppIds := FilterByFinalStatus(processDf, appIds, c);
    if |filteredAppIds| == 0 {
      return None;
    }
    var applicationData := SummariseAll(processDf, filteredAppIds);
    return Some(applicationData);
  }

  /**
    Each selected application yields exactly one summary, in order, with its row count as
    `num_steps`; every application with a summary has its final status in the category.
  */
  lemma ByStatusOnePerApp(rows: seq<WorkflowRow>, processName: string, c: Category)
    requires ApplicationDataByStatus(rows, processName, c).Some?
    ensures var process := ProcessRecords(rows, processName);
      var filtered := SelectedIds(process, UniqueIds(process), c);
      var data := ApplicationDataByStatus(rows, processName, c).value;
      && |data| == |filtered|
      && forall i :: 0 <= i < |filtered| ==>
           && data[i].appId == filtered[i]
           && data[i].numSteps == |AppRecords(process, filtered[i])|
           && IsSelected(process, data[i].appId, c)
  {
    var process := ProcessRecords(rows, processName);
    var ids := UniqueIds(process);
    var filtered := SelectedIds(process, ids, c);
    forall id | id in filtered ensures HasId(process, id) && IsSelected(process, id, c) {
      SelectedIdsMembers(process, ids, c, id);
    }
    SummariesOnePerId(process, filtered);
  }

  /**
    The result is `None` exactly when the process has no rows or none of its applications
    has its final status in the category.
  */
  lemma ByStatusNone(rows: seq<WorkflowRow>, processName: string, c: Category)
    ensures var process := ProcessRecords(rows, processName);
      ApplicationDataByStatus(rows, processName, c).None?
      <==> (forall k :: 0 <= k < |rows| ==> rows[k].menu != processName)
           || (forall id :: HasId(process, id) ==> !IsSelected(process, id, c))
  {
    ProcessRecordsEmpty(rows, processName);
    var process := ProcessRecords(rows, processName);
    var ids := UniqueIds(process);
    var filtered := SelectedIds(process, ids, c);
    if |filtered| > 0 {
      SelectedIdsMembers(process, ids, c, filtered[0]);
    } else {
      forall id | HasId(process, id) ensures !IsSelected(process, id, c) {
        SelectedIdsMembers(process, ids, c, id);
      }
    }
  }
}
