/**
  `analyze_authority_levels` of the authority-level distribution script: for one process and one
  authoritative-status category, the highest authority level each matching application reached,
  which the chart then counts level by level.
*/
module AuthorityLevels {
  import opened Wrappers
  import opened Records
  import opened WorkflowTable
  import LevelDistribution
  import Sums

  /** The four entries of `status_categories`. */
  datatype Category = Approved | Rejected | BackForReview | InProcess

  /** A category's `auth_statuses`. */
  function AuthStatuses(c: Category): seq<string>
  {
    match c
    case Approved => ["Approved"]
    case Rejected => ["Rejected"]
    case BackForReview => ["Back for review"]
    case InProcess => ["In Process", "Sent for recommendation", "Sent to external office", "Sent for committee"]
  }

  /** No authoritative status belongs to two categories. */
  lemma CategoriesDisjoint(c: Category, c': Category, authStat: string)
    requires authStat in AuthStatuses(c) && authStat in AuthStatuses(c')
    ensures c == c'
  {
  }

  /** The application has an authoritative status and it is one of the category's. */
  predicate Qualifies(statusLookup: map<int, string>, id: int, c: Category)
  {
    id in statusLookup && statusLookup[id] in AuthStatuses(c)
  }

  /** The ids that pass both `continue` guards, in order: the reference for the loop's output. */
  function QualifyingIds(statusLookup: map<int, string>, ids: seq<int>, c: Category): seq<int>
  {
    if ids == [] then []
    else
      var init := QualifyingIds(statusLookup, ids[..|ids| - 1], c);
      var id := ids[|ids| - 1];
      if Qualifies(statusLookup, id, c) then init + [id] else init
  }

  lemma {:induction false} QualifyingIdsMembers(statusLookup: map<int, string>, ids: seq<int>, c: Category, id: int)
    ensures id in QualifyingIds(statusLookup, ids, c) <==> id in ids && Qualifies(statusLookup, id, c)
  {
    if ids != [] {
      var init := ids[..|ids| - 1];
      QualifyingIdsMembers(statusLookup, init, c, id);
      assert ids == init + [ids[|ids| - 1]];
    }
  }

  /** An application qualifies for at most one category. */
  lemma QualifiesForOneCategory(statusLookup: map<int, string>, id: int, c: Category, c': Category)
    requires Qualifies(statusLookup, id, c) && Qualifies(statusLookup, id, c')
    ensures c == c'
  {
    CategoriesDisjoint(c, c', statusLookup[id]);
  }

  /**
    `max_levels` after the loop has seen `ids`: for each qualifying id whose rows give a maximum
    (the `notna` guard), that maximum.
  */
  function MaxLevels(rs: seq<Record<int>>, statusLookup: map<int, string>, ids: seq<int>, c: Category): seq<int>
  {
    if ids == [] then []
    else
      var init := MaxLevels(rs, statusLookup, ids[..|ids| - 1], c);
      var id := ids[|ids| - 1];
      var appRecords := AppRecords(rs, id);
      if Qualifies(statusLookup, id, c) && |appRecords| > 0 then init + [MaxLevel(appRecords)] else init
  }

  /**
    When every id has rows, the loop yields exactly one level per qualifying application, in
    order, and that level is the highest its rows reached.
  */
  lemma {:induction false} MaxLevelsPerApp(rs: seq<Record<int>>, statusLookup: map<int, string>, ids: seq<int>, c: Category)
    requires forall k :: 0 <= k < |ids| ==> |AppRecords(rs, ids[k])| > 0
    ensures var q := QualifyingIds(statusLookup, ids, c);
      var m := MaxLevels(rs, statusLookup, ids, c);
      && |m| == |q|
      && forall i :: 0 <= i < |q| ==> |AppRecords(rs, q[i])| > 0 && m[i] == MaxLevel(AppRecords(rs, q[i]))
  {
    if ids != [] {
      var init := ids[..|ids| - 1];
      assert forall k :: 0 <= k < |init| ==> init[k] == ids[k];
      MaxLevelsPerApp(rs, statusLookup, init, c);
    }
  }

  /** The result of `analyze_authority_levels`. */
  function AuthorityLevelsOf(rows: seq<WorkflowRow>, statusLookup: map<int, string>, processName: string, c: Category)
    : Option<seq<int>>
  {
    var process := ProcessRecords(rows, processName);
    if |process| == 0 then None
    else
      var maxLevels := MaxLevels(process, statusLookup, UniqueIds(process), c);
      if |maxLevels| == 0 then None else Some(maxLevels)
  }

  lemma MaxLevelsStep(rs: seq<Record<int>>, statusLookup: map<int, string>, ids: seq<int>, c: Category, i: nat)
    requires i < |ids|
    ensures var appRecords := AppRecords(rs, ids[i]);
      MaxLevels(rs, statusLookup, ids[..i + 1], c)
      == MaxLevels(rs, statusLookup, ids[..i], c)
         + (if Qualifies(statusLookup, ids[i], c) && |appRecords| > 0 then [MaxLevel(appRecords)] else [])
  {
    assert ids[..i + 1][..i] == ids[..i];
  }

  method AnalyzeAuthorityLevels(rows: seq<WorkflowRow>, statusLookup: map<int, string>, processName: string, c: Category)
    returns (r: Option<seq<int>>)
    ensures r == AuthorityLevelsOf(rows, statusLookup, processName, c)
  {
    var processDf := ProcessRecords(rows, processName);
    if |processDf| == 0 {
      return None;
    }
    var appIds := UniqueIds(processDf);
    var maxLevels := [];
    var i := 0;
    while i < |appIds|
      invariant 0 <= i <= |appIds|
      invariant maxLevels == MaxLevels(processDf, statusLookup, appIds[..i], c)
    {
      MaxLevelsStep(processDf, statusLookup, appIds, c, i);
      var appId := appIds[i];
      if appId !in statusLookup {
        i := i + 1;
        continue;
      }
      var authStat := statusLookup[appId];
      if authStat !in AuthStatuses(c) {
        i := i + 1;
        continue;
      }
      var appRecords := AppRecords(processDf, appId);
      if |appRecords| > 0 {
        maxLevels := maxLevels + [MaxLevel(appRecords)];
      }
      i := i + 1;
    }
    assert appIds[..i] == appIds;
    if |maxLevels| == 0 {
      return None;
    }
    return Some(maxLevels);
  }

  /**
    A result holds one level per qualifying application of the process, in order of first
    appearance, each the highest authority level among that application's rows.
  */
  lemma AuthorityLevelsPerApp(rows: seq<WorkflowRow>, statusLookup: map<int, string>, processName: string, c: Category)
    requires AuthorityLevelsOf(rows, statusLookup, processName, c).Some?
    ensures var process := ProcessRecords(rows, processName);
      var q := QualifyingIds(statusLookup, UniqueIds(process), c);
      var levels := AuthorityLevelsOf(rows, statusLookup, processName, c).value;
      && |levels| == |q| > 0
      && forall i :: 0 <= i < |q| ==>
           && HasId(process, q[i]) && Qualifies(statusLookup, q[i], c)
           && (forall j :: 0 <= j < |process| && process[j].appId == q[i] ==> process[j].level <= levels[i])
           && (exists j :: 0 <= j < |process| && process[j].appId == q[i] && process[j].level == levels[i])
  {
    var process := ProcessRecords(rows, processName);
    var ids := UniqueIds(process);
    var q := QualifyingIds(statusLookup, ids, c);
    var levels := MaxLevels(process, statusLookup, ids, c);
    IdsHaveRows(process, ids);
    MaxLevelsPerApp(process, statusLookup, ids, c);
    forall i | 0 <= i < |q|
      ensures && HasId(process, q[i]) && Qualifies(statusLookup, q[i], c)
              && (forall j :: 0 <= j < |process| && process[j].appId == q[i] ==> process[j].level <= levels[i])
              && (exists j :: 0 <= j < |process| && process[j].appId == q[i] && process[j].level == levels[i])
    {
      AuthorityLevelAt(process, statusLookup, ids, c, q, levels, i);
    }
  }

  lemma AuthorityLevelAt(
    process: seq<Record<int>>, statusLookup: map<int, string>, ids: seq<int>, c: Category,
    q: seq<int>, levels: seq<int>, i: nat)
    requires forall id :: id in ids <==> HasId(process, id)
    requires q == QualifyingIds(statusLookup, ids, c)
    requires i < |q| && i < |levels|
    requires |AppRecords(process, q[i])| > 0 && levels[i] == MaxLevel(AppRecords(process, q[i]))
    ensures && HasId(process, q[i]) && Qualifies(statusLookup, q[i], c)
            && (forall j :: 0 <= j < |process| && process[j].appId == q[i] ==> process[j].level <= levels[i])
            && (exists j :: 0 <= j < |process| && process[j].appId == q[i] && process[j].level == levels[i])
  {
    QualifyingIdsMembers(statusLookup, ids, c, q[i]);
    AppMaxLevel(process, q[i]);
  }

  /** The maximum over an application's rows bounds every row of it in the table and is reached by one. */
  lemma AppMaxLevel(rs: seq<Record<int>>, id: int)
    requires |AppRecords(rs, id)| > 0
    ensures var m := MaxLevel(AppRecords(rs, id));
      && (forall j :: 0 <= j < |rs| && rs[j].appId == id ==> rs[j].level <= m)
      && (exists j :: 0 <= j < |rs| && rs[j].appId == id && rs[j].level == m)
  {
    var ar := AppRecords(rs, id);
    var m := MaxLevel(ar);
    MaxLevelBounds(ar);
    forall j | 0 <= j < |rs| && rs[j].appId == id ensures rs[j].level <= m {
      AppRecordsComplete(rs, id, j);
    }
    var k :| 0 <= k < |ar| && ar[k].level == m;
    assert ar[k] in rs;
  }

  /**
    `None` exactly when no row names the process or no application of the process has an
    authoritative status in the category.
  */
  lemma AuthorityLevelsNone(rows: seq<WorkflowRow>, statusLookup: map<int, string>, processName: string, c: Category)
    ensures var process := ProcessRecords(rows, processName);
      AuthorityLevelsOf(rows, statusLookup, processName, c).None?
      <==> (forall k :: 0 <= k < |rows| ==> rows[k].menu != processName)
           || (forall id :: HasId(process, id) ==> !Qualifies(statusLookup, id, c))
  {
    ProcessRecordsEmpty(rows, processName);
    var process := ProcessRecords(rows, processName);
    var ids := UniqueIds(process);
    var q := QualifyingIds(statusLookup, ids, c);
    IdsHaveRows(process, ids);
    MaxLevelsPerApp(process, statusLookup, ids, c);
    if |q| > 0 {
      QualifyingIdsMembers(statusLookup, ids, c, q[0]);
    } else {
      forall id | HasId(process, id) ensures !Qualifies(statusLookup, id, c) {
        QualifyingIdsMembers(statusLookup, ids, c, id);
      }
    }
  }

  /** An application missing from the lookup contributes no level, whatever the category. */
  lemma MissingStatusContributesNothing(
    rows: seq<WorkflowRow>, statusLookup: map<int, string>, processName: string, c: Category, id: int)
    requires id !in statusLookup
    ensures var process := ProcessRecords(rows, processName);
      id !in QualifyingIds(statusLookup, UniqueIds(process), c)
  {
    var process := ProcessRecords(rows, processName);
    QualifyingIdsMembers(statusLookup, UniqueIds(process), c, id);
  }

  /**
    The chart's bars: one per level reached, their counts adding up to the number of
    qualifying applications, their percentages to 100, and the cumulative line ending at 100.
  */
  lemma AuthorityChart(rows: seq<WorkflowRow>, statusLookup: map<int, string>, processName: string, c: Category)
    requires AuthorityLevelsOf(rows, statusLookup, processName, c).Some?
    ensures var process := ProcessRecords(rows, processName);
      var q := QualifyingIds(statusLookup, UniqueIds(process), c);
      var d := LevelDistribution.DistributionOf(AuthorityLevelsOf(rows, statusLookup, processName, c).value);
      && d.Some?
      && Sums.SumNat(d.value.counts) == |q|
      && Sums.Sum(d.value.percentages) == 100.0
      && d.value.cumulative[|d.value.cumulative| - 1] == 100.0
  {
    var levels := AuthorityLevelsOf(rows, statusLookup, processName, c).value;
    AuthorityLevelsPerApp(rows, statusLookup, processName, c);
    LevelDistribution.DistributionCounts(levels);
    LevelDistribution.DistributionPercentages(levels);
  }
}
