/**
  The `Industry_workflow_history` table after date parsing: each row names its process
  (`menu_name`) and carries an application id, authority level, integer `auth_status` code and
  timestamp. Rows whose date did not parse are already dropped.
*/
module WorkflowTable {
  import opened Records

  datatype WorkflowRow = WorkflowRow(menu: string, record: Record<int>)

  predicate TableOrdered(rows: seq<WorkflowRow>)
  {
    forall i, j :: 0 <= i < j < |rows| ==> rows[i].record.time <= rows[j].record.time
  }

  /** `df[df['menu_name'] == process_name]`: the process's rows, in table order. */
  function ProcessRows(rows: seq<WorkflowRow>, processName: string): (r: seq<WorkflowRow>)
    ensures forall i :: 0 <= i < |r| ==> r[i] in rows && r[i].menu == processName
  {
    if rows == [] then []
    else
      var last := rows[|rows| - 1];
      ProcessRows(rows[..|rows| - 1], processName) + (if last.menu == processName then [last] else [])
  }

  /** The records of the process's rows. */
  function ProcessRecords(rows: seq<WorkflowRow>, processName: string): (r: seq<Record<int>>)
  {
    var p := ProcessRows(rows, processName);
    seq(|p|, i requires 0 <= i < |p| => p[i].record)
  }

  /** Every row naming the process is selected. */
  lemma {:induction false} ProcessRowsComplete(rows: seq<WorkflowRow>, processName: string, k: nat)
    requires k < |rows| && rows[k].menu == processName
    ensures rows[k] in ProcessRows(rows, processName)
  {
    if k < |rows| - 1 {
      ProcessRowsComplete(rows[..|rows| - 1], processName, k);
    }
  }

  /** The process has no rows exactly when no row of the table names it. */
  lemma ProcessRecordsEmpty(rows: seq<WorkflowRow>, processName: string)
    ensures |ProcessRecords(rows, processName)| == 0
            <==> forall k :: 0 <= k < |rows| ==> rows[k].menu != processName
  {
    var p := ProcessRows(rows, processName);
    if |p| > 0 {
      assert p[0] in rows;
    }
    if k :| 0 <= k < |rows| && rows[k].menu == processName {
      ProcessRowsComplete(rows, processName, k);
    }
  }

  /** Selecting a process keeps timestamp order. */
  lemma {:induction false} ProcessRowsOrdered(rows: seq<WorkflowRow>, processName: string)
    requires TableOrdered(rows)
    ensures TableOrdered(ProcessRows(rows, processName))
  {
    if rows != [] {
      var init := rows[..|rows| - 1];
      ProcessRowsOrdered(init, processName);
      var p := ProcessRows(init, processName);
      forall i | 0 <= i < |p| ensures p[i].record.time <= rows[|rows| - 1].record.time {
        var k :| 0 <= k < |init| && init[k] == p[i];
        assert rows[k] == init[k];
      }
    }
  }

  lemma ProcessRecordsOrdered(rows: seq<WorkflowRow>, processName: string)
    requires TableOrdered(rows)
    ensures TimeOrdered(ProcessRecords(rows, processName))
  {
    ProcessRowsOrdered(rows, processName);
  }
}
