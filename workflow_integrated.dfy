/**
  `calculate_application_data_by_status` of the integrated script: an application's category
  comes from the authoritative status lookup, refined by the authority level of its last record
  and the whole days since its last activity.
*/
module WorkflowIntegrated {
  import opened Wrappers
  import opened Transitions
  import opened Records
  import opened WorkflowTable

  /** 2026-01-28 00:00, the `today` against which dormancy is measured, in epoch seconds. */
  const Today: Instant := 1769558400

  // ---------------------------------------------------------------------------------------
  // The authoritative status lookup.

  /** One row of the menu-wise last-date table: `table_data_id` and `auth_status`. */
  datatype StatusRow = StatusRow(appId: int, authStatus: string)

  /** `status_lookup` after the rows up to the last have been assigned in order. */
  function LookupOf(rows: seq<StatusRow>): map<int, string>
  {
    if rows == [] then map[]
    else
      var last := rows[|rows| - 1];
      LookupOf(rows[..|rows| - 1])[last.appId := last.authStatus]
  }

  method BuildStatusLookup(rows: seq<StatusRow>) returns (statusLookup: map<int, string>)
    ensures statusLookup == LookupOf(rows)
  {
    statusLookup := map[];
    var i := 0;
    while i < |rows|
      invariant 0 <= i <= |rows|
      invariant statusLookup == LookupOf(rows[..i])
    {
      assert rows[..i + 1][..i] == rows[..i];
      statusLookup := statusLookup[rows[i].appId := rows[i].authStatus];
      i := i + 1;
    }
    assert rows[..i] == rows;
  }

  /** An id is in the lookup exactly when some row names it. */
  lemma {:induction false} LookupKeys(rows: seq<StatusRow>, id: int)
    ensures id in LookupOf(rows) <==> exists k :: 0 <= k < |rows| && rows[k].appId == id
  {
    if rows != [] {
      var n := |rows| - 1;
      var init := rows[..n];
      LookupKeys(init, id);
      if id in LookupOf(init) {
        var k :| 0 <= k < |init| && init[k].appId == id;
        assert rows[k].appId == id;
      }
      if exists k :: 0 <= k < |rows| && rows[k].appId == id {
        var k :| 0 <= k < |rows| && rows[k].appId == id;
        if k < n {
          assert init[k].appId == id;
        }
      }
    }
  }

  /** The id of the last row naming it maps to that row's status: a later row overwrites an earlier one. */
  lemma {:induction false} LookupLastWins(rows: seq<StatusRow>, k: nat)
    requires k < |rows|
    requires forall j :: k < j < |rows| ==> rows[j].appId != rows[k].appId
    ensures rows[k].appId in LookupOf(rows) && LookupOf(rows)[rows[k].appId] == rows[k].authStatus
  {
    var n := |rows| - 1;
    if k < n {
      var init := rows[..n];
      assert init[k] == rows[k];
      assert forall j :: k < j < |init| ==> init[j] == rows[j];
      LookupLastWins(init, k);
    }
  }

  // ---------------------------------------------------------------------------------------
  // The seven categories.

  datatype Category =
    | ApprovedAll | ApprovedL4Plus | ApprovedL4PlusOrDormant | ApprovedL6Plus
    | Rejected | BackForReview | InProcess

  /** Each category's `auth_statuses`. */
  function AuthStatuses(c: Category): seq<string>
  {
    match c
    case ApprovedAll => ["Approved"]
    case ApprovedL4Plus => ["Approved"]
    case ApprovedL4PlusOrDormant => ["Approved"]
    case ApprovedL6Plus => ["Approved"]
    case Rejected => ["Rejected"]
    case BackForReview => ["Back for review"]
    case InProcess => ["In Process", "Sent for recommendation", "Sent to external office", "Sent for committee"]
  }

  predicate IsApproved(c: Category)
  {
    c in {ApprovedAll, ApprovedL4Plus, ApprovedL4PlusOrDormant, ApprovedL6Plus}
  }

  /** Each category's `filter_func(auth_stat, final_level, days_dormant)`. */
  predicate Selects(c: Category, authStat: string, finalLevel: int, daysDormant: int)
  {
    match c
    case ApprovedAll => authStat == "Approved"
    case ApprovedL4Plus => authStat == "Approved" && finalLevel >= 4
    case ApprovedL4PlusOrDormant => authStat == "Approved" && (finalLevel >= 4 || daysDormant > 180)
    case ApprovedL6Plus => authStat == "Approved" && finalLevel >= 6
    case Rejected => authStat == "Rejected"
    case BackForReview => authStat == "Back for review"
    case InProcess => authStat in AuthStatuses(InProcess)
  }

  /** The approved categories are nested: L6+ within L4+ within L4+-or-dormant within all. */
  lemma ApprovedNesting(authStat: string, finalLevel: int, daysDormant: int)
    ensures Selects(ApprovedL6Plus, authStat, finalLevel, daysDormant)
            ==> Selects(ApprovedL4Plus, authStat, finalLevel, daysDormant)
    ensures Selects(ApprovedL4Plus, authStat, finalLevel, daysDormant)
            ==> Selects(ApprovedL4PlusOrDormant, authStat, finalLevel, daysDormant)
    ensures Selects(ApprovedL4PlusOrDormant, authStat, finalLevel, daysDormant)
            ==> Selects(ApprovedAll, authStat, finalLevel, daysDormant)
  {
  }

  /**
    A category only selects statuses from its own `auth_statuses`, and the unrefined ones select
    exactly those; an application is in at most one of the four status groups (approved,
    rejected, back for review, in process).
  */
  lemma CategoryStatuses(c: Category, c': Category, authStat: string, finalLevel: int, daysDormant: int)
    ensures Selects(c, authStat, finalLevel, daysDormant) ==> authStat in AuthStatuses(c)
    ensures c in {ApprovedAll, Rejected, BackForReview, InProcess}
            ==> (Selects(c, authStat, finalLevel, daysDormant) <==> authStat in AuthStatuses(c))
    ensures Selects(c, authStat, finalLevel, daysDormant) && Selects(c', authStat, finalLevel, daysDormant)
            ==> c == c' || (IsApproved(c) && IsApproved(c'))
  {
  }

  // ---------------------------------------------------------------------------------------
  // Selection and summaries.

  /** `(today - last_activity).days`: whole days, rounded down, since the latest record. */
  function DaysDormant(ar: seq<Record<int>>): int
    requires |ar| > 0
  {
    (Today - MaxTime(Events(ar))) / 86400
  }

  /** The application has an authoritative status and passes the category's filter. */
  predicate IsSelected(rs: seq<Record<int>>, statusLookup: map<int, string>, id: int, c: Category)
  {
    var ar := AppRecords(rs, id);
    && id in statusLookup
    && |ar| > 0
    && Selects(c, statusLookup[id], ar[|ar| - 1].level, DaysDormant(ar))
  }

  /** `filtered_app_ids`, in order. */
  function SelectedIds(rs: seq<Record<int>>, statusLookup: map<int, string>, ids: seq<int>, c: Category)
    : seq<int>
  {
    if ids == [] then []
    else
      var init := SelectedIds(rs, statusLookup, ids[..|ids| - 1], c);
      var id := ids[|ids| - 1];
      if IsSelected(rs, statusLookup, id, c) then init + [id] else init
  }

  lemma {:induction false} SelectedIdsMembers(
    rs: seq<Record<int>>, statusLookup: map<int, string>, ids: seq<int>, c: Category, id: int)
    ensures id in SelectedIds(rs, statusLookup, ids, c) <==> id in ids && IsSelected(rs, statusLookup, id, c)
  {
    if ids != [] {
      var init := ids[..|ids| - 1];
      SelectedIdsMembers(rs, statusLookup, init, c, id);
      assert ids == init + [ids[|ids| - 1]];
    }
  }

  lemma SelectedIdsStep(rs: seq<Record<int>>, statusLookup: map<int, string>, ids: seq<int>, c: Category, i: nat)
    requires i < |ids|
    ensures SelectedIds(rs, statusLookup, ids[..i + 1], c)
            == SelectedIds(rs, statusLookup, ids[..i], c)
               + (if IsSelected(rs, statusLookup, ids[i], c) then [ids[i]] else [])
  {
    assert ids[..i + 1][..i] == ids[..i];
  }

  /** The first loop: skip ids without an authoritative status, keep those passing the filter. */
  method FilterByAuthStatus(processDf: seq<Record<int>>, statusLookup: map<int, string>, appIds: seq<int>, c: Category)
    returns (filteredAppIds: seq<int>)
    requires forall k :: 0 <= k < |appIds| ==> |AppRecords(processDf, appIds[k])| > 0
    ensures filteredAppIds == SelectedIds(processDf, statusLookup, appIds, c)
  {
    filteredAppIds := [];
    var i := 0;
    while i < |appIds|
      invariant 0 <= i <= |appIds|
      invariant filteredAppIds == SelectedIds(processDf, statusLookup, appIds[..i], c)
    {
      SelectedIdsStep(processDf, statusLookup, appIds, c, i);
      var appId := appIds[i];
      if appId !in statusLookup {
        i := i + 1;
        continue;
      }
      var authStat := statusLookup[appId];
      var appRecords := AppRecords(processDf, appId);
      var finalLevel := appRecords[|appRecords| - 1].level;
      var daysDormant := DaysDormant(appRecords);
      assert IsSelected(processDf, statusLookup, appId, c) == Selects(c, authStat, finalLevel, daysDormant);
      if Selects(c, authStat, finalLevel, daysDormant) {
        filteredAppIds := filteredAppIds + [appId];
      }
      i := i + 1;
    }
    assert appIds[..i] == appIds;
  }

  function ApplicationDataByStatus(
    rows: seq<WorkflowRow>, statusLookup: map<int, string>, processName: string, c: Category)
    : Option<seq<Summary>>
  {
    var process := ProcessRecords(rows, processName);
    if |process| == 0 then None
    else
      var filtered := SelectedIds(process, statusLookup, UniqueIds(process), c);
      if |filtered| == 0 then None else Some(Summaries(process, filtered))
  }

  method CalculateApplicationDataByStatus(
    rows: seq<WorkflowRow>, statusLookup: map<int, string>, processName: string, c: Category)
    returns (r: Option<seq<Summary>>)
    requires TableOrdered(rows)
    ensures r == ApplicationDataByStatus(rows, statusLookup, processName, c)
  {
    var processDf := ProcessRecords(rows, processName);
    if |processDf| == 0 {
      return None;
    }
    var appIds := UniqueIds(processDf);
    IdsHaveRows(processDf, appIds);
    var filteredAppIds := FilterByAuthStatus(processDf, statusLookup, appIds, c);
    if |filteredAppIds| == 0 {
      return None;
    }
    var applicationData := SummariseAll(processDf, filteredAppIds);
    return Some(applicationData);
  }

  /**
    Each selected application yields exactly one summary, in order; every application with a
    summary is in the lookup and passes the category's filter.
  */
  lemma IntegratedOnePerApp(rows: seq<WorkflowRow>, statusLookup: map<int, string>, processName: string, c: Category)
    requires ApplicationDataByStatus(rows, statusLookup, processName, c).Some?
    ensures var process := ProcessRecords(rows, processName);
      var filtered := SelectedIds(process, statusLookup, UniqueIds(process), c);
      var data := ApplicationDataByStatus(rows, statusLookup, processName, c).value;
      && |data| == |filtered|
      && forall i :: 0 <= i < |filtered| ==>
           && data[i].appId == filtered[i]
           && data[i].numSteps == |AppRecords(process, filtered[i])|
           && data[i].appId in statusLookup
           && IsSelected(process, statusLookup, data[i].appId, c)
  {
    var process := ProcessRecords(rows, processName);
    var ids := UniqueIds(process);
    var filtered := SelectedIds(process, statusLookup, ids, c);
    forall id | id in filtered ensures HasId(process, id) && IsSelected(process, statusLookup, id, c) {
      SelectedIdsMembers(process, statusLookup, ids, c, id);
    }
    SummariesOnePerId(process, filtered);
    forall i | 0 <= i < |filtered| ensures IsSelected(process, statusLookup, filtered[i], c) {
      assert filtered[i] in filtered;
    }
  }

  /** An application missing from the lookup is never selected, whatever the category. */
  lemma MissingStatusNeverSelected(
    rows: seq<WorkflowRow>, statusLookup: map<int, string>, processName: string, c: Category, id: int)
    requires id !in statusLookup
    ensures var process := ProcessRecords(rows, processName);
      id !in SelectedIds(process, statusLookup, UniqueIds(process), c)
  {
    var process := ProcessRecords(rows, processName);
    SelectedIdsMembers(process, statusLookup, UniqueIds(process), c, id);
  }

  /** `None` exactly when the process has no rows or none of its applications is selected. */
  lemma IntegratedNone(rows: seq<WorkflowRow>, statusLookup: map<int, string>, processName: string, c: Category)
    ensures var process := ProcessRecords(rows, processName);
      ApplicationDataByStatus(rows, statusLookup, processName, c).None?
      <==> (forall k :: 0 <= k < |rows| ==> rows[k].menu != processName)
           || (forall id :: HasId(process, id) ==> !IsSelected(process, statusLookup, id, c))
  {
    ProcessRecordsEmpty(rows, processName);
    var process := ProcessRecords(rows, processName);
    var ids := UniqueIds(process);
    var filtered := SelectedIds(process, statusLookup, ids, c);
    if |filtered| > 0 {
      SelectedIdsMembers(process, statusLookup, ids, c, filtered[0]);
    } else {
      forall id | HasId(process, id) ensures !IsSelected(process, statusLookup, id, c) {
        SelectedIdsMembers(process, statusLookup, ids, c, id);
      }
    }
  }
}
