/**
  `calculate_application_data`: every application of one process, without a status filter,
  summarised into one row of `application_data`.
*/
module WorkflowBinCharts {
  import opened Wrappers
  import opened Transitions
  import opened Records
  import opened WorkflowTable

  /** `None` when the process has no rows; otherwise one summary per distinct application id. */
  function ApplicationData(rows: seq<WorkflowRow>, processName: string): Option<seq<Summary>>
  {
    var process := ProcessRecords(rows, processName);
    if |process| == 0 then None else Some(Summaries(process, UniqueIds(process)))
  }

  method CalculateApplicationData(rows: seq<WorkflowRow>, processName: string)
    returns (r: Option<seq<Summary>>)
    requires TableOrdered(rows)
    ensures r == ApplicationData(rows, processName)
  {
    var processDf := ProcessRecords(rows, processName);
    if |processDf| == 0 {
      return None;
    }
    var appIds := UniqueIds(processDf);
    var applicationData := SummariseAll(processDf, appIds);
    return Some(applicationData);
  }

  /**
    The result is `None` exactly when no row names the process; otherwise each distinct id of
    the process yields exactly one summary, in order of first appearance, with its row count
    as `num_steps`.
  */
  lemma ApplicationDataOnePerApp(rows: seq<WorkflowRow>, processName: string)
    ensures ApplicationData(rows, processName).None?
            <==> forall k :: 0 <= k < |rows| ==> rows[k].menu != processName
    ensures var process := ProcessRecords(rows, processName);
      ApplicationData(rows, processName).Some? ==>
        var data := ApplicationData(rows, processName).value;
        var ids := UniqueIds(process);
        && |data| == |ids|
        && (forall i :: 0 <= i < |ids| ==>
              data[i].appId == ids[i] && data[i].numSteps == |AppRecords(process, ids[i])|)
  {
    ProcessRecordsEmpty(rows, processName);
    var process := ProcessRecords(rows, processName);
    SummariesOnePerId(process, UniqueIds(process));
  }

  /**
    Each summary is that of its application's rows in timestamp order, so it has every
    property `SummaryOf` promises (elapsed days, bin, transition keys and shares).
  */
  lemma ApplicationDataSummaries(rows: seq<WorkflowRow>, processName: string, i: nat)
    requires TableOrdered(rows)
    requires i < |UniqueIds(ProcessRecords(rows, processName))|
    ensures var process := ProcessRecords(rows, processName);
      var id := UniqueIds(process)[i];
      var ev := Events(AppRecords(process, id));
      && |ev| > 0 && Sorted(ev)
      && ApplicationData(rows, processName).Some?
      && i < |ApplicationData(rows, processName).value|
      && ApplicationData(rows, processName).value[i] == SummaryOf(id, ev)
  {
    var process := ProcessRecords(rows, processName);
    var ids := UniqueIds(process);
    IdsHaveRows(process, ids);
    SummariesAt(process, ids, i);
    ProcessRecordsOrdered(rows, processName);
    AppRecordsOrdered(process, ids[i]);
    OrderedEvents(AppRecords(process, ids[i]));
  }
}
