/**
  The row selections feeding `calculate_distribution`: the deregistration script's completed and
  pending categories, the share-process script's Verified, Rejected and In-Process categories,
  and the discounted-deregistration phases' approved/pending split, each with the `time_days`
  column it computes.
*/
module CategoryFilters {
  import opened Wrappers
  import opened Sums
  import opened Transitions
  import opened TimePeriods

  /** 2026-01-25 00:00, the `today` pending and in-process times run to, in epoch seconds. */
  const Today: Instant := 1769299200

  /** A boolean-mask selection: the rows satisfying `p`, in table order. */
  function Filter<T(!new)>(rows: seq<T>, p: T -> bool): (r: seq<T>)
    ensures |r| <= |rows|
    ensures forall x :: x in r <==> x in rows && p(x)
  {
    if rows == [] then []
    else
      var last := rows[|rows| - 1];
      Filter(rows[..|rows| - 1], p) + (if p(last) then [last] else [])
  }

  /** Two masks that no row satisfies together and every row satisfies one of split the table. */
  lemma {:induction false} FilterSplit<T(!new)>(rows: seq<T>, p: T -> bool, q: T -> bool)
    requires forall i :: 0 <= i < |rows| ==> p(rows[i]) != q(rows[i])
    ensures |Filter(rows, p)| + |Filter(rows, q)| == |rows|
  {
    if rows != [] {
      FilterSplit(rows[..|rows| - 1], p, q);
    }
  }

  // ---------------------------------------------------------------------------------------
  // Deregistration: submitted to approved, or submitted to today while payment is pending.

  /**
    One deregistration row. A missing payment status is a string equal to neither
    `IN_PROCESS` nor `PENDING`, as NaN compares unequal to both.
  */
  datatype DeregistrationRow = DeregistrationRow(
    deregistrationType: string,
    applicationStatus: string,
    submittedDate: Option<Instant>,
    approvedDate: Option<Instant>,
    paymentVerificationStatus: string,
    paymentStatus: string)

  datatype DeregistrationCategory =
    | LiquidationCompleted | ForcedCompleted | LiquidationPending | ForcedPending

  function DeregistrationType(c: DeregistrationCategory): string
  {
    match c
    case LiquidationCompleted => "LIQUIDATION"
    case LiquidationPending => "LIQUIDATION"
    case ForcedCompleted => "FORCED"
    case ForcedPending => "FORCED"
  }

  predicate IsCompletedCategory(c: DeregistrationCategory)
  {
    c == LiquidationCompleted || c == ForcedCompleted
  }

  /** The category's mask. */
  predicate DeregistrationSelects(c: DeregistrationCategory, row: DeregistrationRow)
  {
    && row.deregistrationType == DeregistrationType(c)
    && row.applicationStatus == "APPROVED"
    && row.submittedDate.Some?
    && if IsCompletedCategory(c) then row.approvedDate.Some?
       else row.paymentVerificationStatus == "IN_PROCESS" || row.paymentStatus == "PENDING"
  }

  function DeregistrationRows(rows: seq<DeregistrationRow>, c: DeregistrationCategory): seq<DeregistrationRow>
  {
    Filter(rows, row => DeregistrationSelects(c, row))
  }

  /** Completed: approved date minus submitted date; pending: today minus submitted date. */
  function DeregistrationTime(c: DeregistrationCategory, row: DeregistrationRow): (t: TimeDays)
    requires DeregistrationSelects(c, row)
    ensures t.Some?
  {
    if IsCompletedCategory(c) then Some(Days(row.approvedDate.value - row.submittedDate.value))
    else Some(Days(Today - row.submittedDate.value))
  }

  /** The category's `time_days` column. */
  function DeregistrationTimes(rows: seq<DeregistrationRow>, c: DeregistrationCategory): (ts: seq<TimeDays>)
    ensures |ts| == |DeregistrationRows(rows, c)|
  {
    var selected := DeregistrationRows(rows, c);
    seq(|selected|, i requires 0 <= i < |selected| =>
      assert selected[i] in selected;
      DeregistrationTime(c, selected[i]))
  }

  /**
    A completed row was approved, with both dates present, and its time is the days between
    them; a pending row was approved, submitted, and awaits payment verification or payment.
  */
  lemma DeregistrationRowFacts(rows: seq<DeregistrationRow>, c: DeregistrationCategory, i: nat)
    requires i < |DeregistrationRows(rows, c)|
    ensures var row := DeregistrationRows(rows, c)[i];
      && row in rows
      && row.applicationStatus == "APPROVED" && row.submittedDate.Some?
      && row.deregistrationType == DeregistrationType(c)
      && (IsCompletedCategory(c) ==>
            && row.approvedDate.Some?
            && DeregistrationTimes(rows, c)[i] == Some(Days(row.approvedDate.value - row.submittedDate.value)))
      && (!IsCompletedCategory(c) ==>
            && (row.paymentVerificationStatus == "IN_PROCESS" || row.paymentStatus == "PENDING")
            && DeregistrationTimes(rows, c)[i] == Some(Days(Today - row.submittedDate.value)))
  {
    var selected := DeregistrationRows(rows, c);
    assert selected[i] in selected;
  }

  /** Every deregistration time is defined, so a non-empty category's percentages add up to 100. */
  lemma DeregistrationDistributionComplete(rows: seq<DeregistrationRow>, c: DeregistrationCategory)
    requires |DeregistrationRows(rows, c)| > 0
    ensures var d := DistributionOf(DeregistrationTimes(rows, c));
      SumNat(d.counts) == |DeregistrationRows(rows, c)| && Sum(d.percentages) == 100.0
  {
    DistributionComplete(DeregistrationTimes(rows, c));
  }

  // ---------------------------------------------------------------------------------------
  // Share process: submission to verification or rejection, or submission to today.

  datatype ShareRow = ShareRow(status: string, submissionDate: Option<Instant>, updatedDate: Option<Instant>)

  datatype ShareCategory = Verified | Rejected | InProcess

  const InProcessStatuses: seq<string> := ["UNVERIFIED", "SUBMITTED", "RE_SUBMITTED", "VERIFIED_AND_FORWARD"]

  /** The category's test on `post_event_process_status`. */
  predicate ShareSelects(c: ShareCategory, status: string)
  {
    match c
    case Verified => status == "VERIFIED"
    case Rejected => status == "REJECTED"
    case InProcess => status in InProcessStatuses
  }

  /** No status belongs to two categories. */
  lemma ShareCategoriesDisjoint(c: ShareCategory, c': ShareCategory, status: string)
    requires ShareSelects(c, status) && ShareSelects(c', status)
    ensures c == c'
  {
  }

  /** Drafts and cancelled applications are in no category. */
  lemma DraftAndCanceledExcluded(c: ShareCategory)
    ensures !ShareSelects(c, "DRAFT") && !ShareSelects(c, "CANCELED")
  {
  }

  /** `df_with_submission`, then the category's mask. */
  function ShareRows(rows: seq<ShareRow>, c: ShareCategory): seq<ShareRow>
  {
    var withSubmission := Filter(rows, (row: ShareRow) => row.submissionDate.Some?);
    Filter(withSubmission, (row: ShareRow) => ShareSelects(c, row.status))
  }

  /**
    Verified and rejected: updated date minus submission date, NaN when the updated date is
    missing; in process: today minus submission date.
  */
  function ShareTime(c: ShareCategory, row: ShareRow): TimeDays
    requires row.submissionDate.Some?
  {
    match c
    case InProcess => Some(Days(Today - row.submissionDate.value))
    case _ => if row.updatedDate.Some? then Some(Days(row.updatedDate.value - row.submissionDate.value)) else None
  }

  function ShareTimes(rows: seq<ShareRow>, c: ShareCategory): (ts: seq<TimeDays>)
    ensures |ts| == |ShareRows(rows, c)|
  {
    var selected := ShareRows(rows, c);
    seq(|selected|, i requires 0 <= i < |selected| =>
      assert selected[i] in selected;
      ShareTime(c, selected[i]))
  }

  /** A row is in a category exactly when it has a submission date and the category's status. */
  lemma ShareRowsMembers(rows: seq<ShareRow>, c: ShareCategory, row: ShareRow)
    ensures row in ShareRows(rows, c) <==> row in rows && row.submissionDate.Some? && ShareSelects(c, row.status)
  {
  }

  /**
    A verified or rejected row without an updated date is in its category's total but in no
    period, so that category's percentages add up to less than 100.
  */
  lemma ShareMissingUpdateShortfall(rows: seq<ShareRow>, c: ShareCategory, i: nat)
    requires c != InProcess
    requires i < |ShareRows(rows, c)| && ShareRows(rows, c)[i].updatedDate.None?
    ensures var d := DistributionOf(ShareTimes(rows, c));
      SumNat(d.counts) < |ShareRows(rows, c)| && Sum(d.percentages) < 100.0
  {
    var selected := ShareRows(rows, c);
    assert selected[i] in selected;
    DistributionShortfall(ShareTimes(rows, c), i);
  }

  /** In-process times are always defined, so that category's percentages add up to 100. */
  lemma ShareInProcessComplete(rows: seq<ShareRow>)
    requires |ShareRows(rows, InProcess)| > 0
    ensures var d := DistributionOf(ShareTimes(rows, InProcess));
      SumNat(d.counts) == |ShareRows(rows, InProcess)| && Sum(d.percentages) == 100.0
  {
    var selected := ShareRows(rows, InProcess);
    forall i | 0 <= i < |selected| ensures selected[i].submissionDate.Some? {
      assert selected[i] in selected;
    }
    DistributionComplete(ShareTimes(rows, InProcess));
  }

  // ---------------------------------------------------------------------------------------
  // Discounted deregistration, each of the three phases: approved or still pending.

  datatype PhaseRow = PhaseRow(applicationStatus: string, submissionDate: Option<Instant>, approvedDate: Option<Instant>)

  predicate PhaseApproved(row: PhaseRow)
  {
    row.applicationStatus == "APPROVED" && row.submissionDate.Some? && row.approvedDate.Some?
  }

  predicate PhasePending(row: PhaseRow)
  {
    row.submissionDate.Some? && (row.applicationStatus != "APPROVED" || row.approvedDate.None?)
  }

  function ApprovedRows(rows: seq<PhaseRow>): seq<PhaseRow>
  {
    Filter(rows, PhaseApproved)
  }

  function PendingRows(rows: seq<PhaseRow>): seq<PhaseRow>
  {
    Filter(rows, PhasePending)
  }

  /** Every submitted row is approved or pending and never both; no other row is either. */
  lemma PhasePartition(row: PhaseRow)
    ensures row.submissionDate.Some? <==> PhaseApproved(row) || PhasePending(row)
    ensures !(PhaseApproved(row) && PhasePending(row))
  {
  }

  /** The approved and pending selections together count every submitted row once. */
  lemma PhaseSplitCounts(rows: seq<PhaseRow>)
    ensures |ApprovedRows(rows)| + |PendingRows(rows)| == |Filter(rows, (row: PhaseRow) => row.submissionDate.Some?)|
  {
    var submitted := Filter(rows, (row: PhaseRow) => row.submissionDate.Some?);
    forall i | 0 <= i < |submitted| ensures PhaseApproved(submitted[i]) != PhasePending(submitted[i]) {
      assert submitted[i] in submitted;
    }
    FilterSplit(submitted, PhaseApproved, PhasePending);
    FilterOfFilter(rows, (row: PhaseRow) => row.submissionDate.Some?, PhaseApproved);
    FilterOfFilter(rows, (row: PhaseRow) => row.submissionDate.Some?, PhasePending);
  }

  /** A mask implying an earlier one selects the same rows from the earlier selection. */
  lemma {:induction false} FilterOfFilter<T(!new)>(rows: seq<T>, p: T -> bool, q: T -> bool)
    requires forall x :: q(x) ==> p(x)
    ensures Filter(Filter(rows, p), q) == Filter(rows, q)
  {
    if rows != [] {
      var init := rows[..|rows| - 1];
      var last := rows[|rows| - 1];
      FilterOfFilter(init, p, q);
      if p(last) {
        var filtered := Filter(rows, p);
        assert filtered == Filter(init, p) + [last];
        assert filtered[..|filtered| - 1] == Filter(init, p);
        assert Filter(filtered, q) == Filter(Filter(init, p), q) + (if q(last) then [last] else []);
      } else {
        assert Filter(rows, p) == Filter(init, p);
        assert !q(last);
      }
    }
  }

  function ApprovedTimes(rows: seq<PhaseRow>): (ts: seq<TimeDays>)
    ensures |ts| == |ApprovedRows(rows)|
    ensures forall i :: 0 <= i < |ts| ==> ts[i].Some?
  {
    var approved := ApprovedRows(rows);
    seq(|approved|, i requires 0 <= i < |approved| =>
      assert approved[i] in approved;
      Some(Days(approved[i].approvedDate.value - approved[i].submissionDate.value)))
  }

  function PendingTimes(rows: seq<PhaseRow>): (ts: seq<TimeDays>)
    ensures |ts| == |PendingRows(rows)|
    ensures forall i :: 0 <= i < |ts| ==> ts[i].Some?
  {
    var pending := PendingRows(rows);
    seq(|pending|, i requires 0 <= i < |pending| =>
      assert pending[i] in pending;
      Some(Days(Today - pending[i].submissionDate.value)))
  }

  /** Every phase time is defined: non-empty selections have percentages adding up to 100. */
  lemma PhaseDistributionsComplete(rows: seq<PhaseRow>)
    ensures |ApprovedRows(rows)| > 0 ==>
      Sum(DistributionOf(ApprovedTimes(rows)).percentages) == 100.0
    ensures |PendingRows(rows)| > 0 ==>
      Sum(DistributionOf(PendingTimes(rows)).percentages) == 100.0
  {
    if |ApprovedRows(rows)| > 0 {
      DistributionComplete(ApprovedTimes(rows));
    }
    if |PendingRows(rows)| > 0 {
      DistributionComplete(PendingTimes(rows));
    }
  }
}
