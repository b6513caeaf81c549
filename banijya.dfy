/**
  The banijya scripts: one Excel file per entity and application type, named
  `<Entity>_<AppType>.xlsx`; `analyze_file` summarises every `TrackCode` of a file with its
  `Working_Order` as level and `Working_Status` as status; the main loop selects applications
  by entity, application type and final status.
*/
module Banijya {
  import opened Wrappers
  import opened Dicts
  import opened Transitions
  import opened Records
  import LevelDistribution
  import Sums

  // ---------------------------------------------------------------------------------------
  // File names.

  /** `s.replace('.xlsx', '')`: every occurrence, scanning left to right. */
  function RemoveXlsx(s: string): (r: string)
    ensures |r| <= |s|
  {
    if |s| < 5 then s
    else if s[..5] == ".xlsx" then RemoveXlsx(s[5..])
    else [s[0]] + RemoveXlsx(s[1..])
  }

  /** `s.split(sep)`: never empty; consecutive separators give empty parts. */
  function Split(s: string, sep: char): (parts: seq<string>)
    ensures |parts| >= 1
    ensures forall i :: 0 <= i < |parts| ==> sep !in parts[i]
  {
    if s == [] then [""]
    else
      var rest := Split(s[1..], sep);
      if s[0] == sep then [""] + rest
      else [[s[0]] + rest[0]] + rest[1..]
  }

  /** `sep.join(parts)`, the inverse of `Split`. */
  function Join(parts: seq<string>, sep: char): string
    requires |parts| >= 1
  {
    if |parts| == 1 then parts[0] else parts[0] + [sep] + Join(parts[1..], sep)
  }

  lemma {:induction false} JoinSplit(s: string, sep: char)
    ensures Join(Split(s, sep), sep) == s
  {
    if s != [] {
      var rest := Split(s[1..], sep);
      JoinSplit(s[1..], sep);
      if s[0] == sep {
        assert Split(s, sep)[1..] == rest;
      } else {
        var parts := Split(s, sep);
        if |rest| > 1 {
          assert parts[1..] == rest[1..];
          assert Join(rest, sep) == rest[0] + [sep] + Join(rest[1..], sep);
        }
      }
    }
  }

  lemma {:induction false} SplitJoin(parts: seq<string>, sep: char)
    requires |parts| >= 1
    requires forall i :: 0 <= i < |parts| ==> sep !in parts[i]
    ensures Split(Join(parts, sep), sep) == parts
  {
    if |parts| == 1 {
      SplitNoSeparator(parts[0], sep);
    } else {
      var tail := Join(parts[1..], sep);
      SplitJoin(parts[1..], sep);
      SplitPrefix(parts[0], tail, sep);
    }
  }

  lemma {:induction false} SplitNoSeparator(s: string, sep: char)
    requires sep !in s
    ensures Split(s, sep) == [s]
  {
    if s != [] {
      assert s == [s[0]] + s[1..];
      SplitNoSeparator(s[1..], sep);
    }
  }

  /** A separator-free head and a separator in front of `tail` split off as the first part. */
  lemma {:induction false} SplitPrefix(head: string, tail: string, sep: char)
    requires sep !in head
    ensures Split(head + [sep] + tail, sep) == [head] + Split(tail, sep)
  {
    var s := head + [sep] + tail;
    if head == [] {
      assert s[1..] == tail;
    } else {
      assert head == [head[0]] + head[1..];
      assert s[0] == head[0] != sep;
      assert s[1..] == head[1..] + [sep] + tail;
      SplitPrefix(head[1..], tail, sep);
    }
  }

  /** The split of the file name into `entity_type` and `app_type`. */
  datatype FileKind = FileKind(entityType: string, appType: string)

  /** `parts[0]`, and `parts[1]` or `'Unknown'` when the name has no `_`. */
  function ParseFilename(filename: string): FileKind
  {
    var parts := Split(RemoveXlsx(filename), '_');
    FileKind(parts[0], if |parts| > 1 then parts[1] else "Unknown")
  }

  /** Without a `.`, nothing is removed in front of the `.xlsx` suffix. */
  lemma {:induction false} RemoveXlsxSuffix(s: string)
    requires '.' !in s
    ensures RemoveXlsx(s + ".xlsx") == s
  {
    if s != [] {
      assert (s + ".xlsx")[1..] == s[1..] + ".xlsx";
      assert (s + ".xlsx")[..5] != ".xlsx" by {
        assert (s + ".xlsx")[0] == s[0];
      }
      RemoveXlsxSuffix(s[1..]);
    } else {
      assert ".xlsx"[5..] == [];
    }
  }

  lemma {:induction false} JoinChars(parts: seq<string>, sep: char, c: char)
    requires |parts| >= 1 && c != sep
    requires forall i :: 0 <= i < |parts| ==> c !in parts[i]
    ensures c !in Join(parts, sep)
  {
    if |parts| > 1 {
      JoinChars(parts[1..], sep, c);
    }
  }

  /**
    A name made of `_`-separated segments without `_` or `.`, followed by `.xlsx`, gives the
    first segment as entity type and the second as application type, or `'Unknown'` when there
    is only one segment.
  */
  lemma ParseFilenameOf(segments: seq<string>)
    requires |segments| >= 1
    requires forall i :: 0 <= i < |segments| ==> '_' !in segments[i] && '.' !in segments[i]
    ensures ParseFilename(Join(segments, '_') + ".xlsx")
            == FileKind(segments[0], if |segments| > 1 then segments[1] else "Unknown")
  {
    JoinChars(segments, '_', '.');
    RemoveXlsxSuffix(Join(segments, '_'));
    SplitJoin(segments, '_');
  }

  /** The entity type never contains `_`, and a name without `_` has application type `'Unknown'`. */
  lemma ParseFilenameShape(filename: string)
    ensures '_' !in ParseFilename(filename).entityType
    ensures '_' !in RemoveXlsx(filename)
            ==> ParseFilename(filename) == FileKind(RemoveXlsx(filename), "Unknown")
  {
    if '_' !in RemoveXlsx(filename) {
      SplitNoSeparator(RemoveXlsx(filename), '_');
    }
  }

  lemma ExampleFilename()
    ensures ParseFilename("Company_New.xlsx") == FileKind("Company", "New")
    ensures ParseFilename("Private.xlsx") == FileKind("Private", "Unknown")
  {
    assert "Company_New" == Join(["Company", "New"], '_');
    assert "Company_New.xlsx" == "Company_New" + ".xlsx";
    ParseFilenameOf(["Company", "New"]);
    assert "Private" == Join(["Private"], '_');
    assert "Private.xlsx" == "Private" + ".xlsx";
    ParseFilenameOf(["Private"]);
  }

  // ---------------------------------------------------------------------------------------
  // Status categories.

  datatype Category = Approved | PendingPayment | Rejected | SentBack | InProcess

  /** Each category's `final_statuses`. */
  function FinalStatuses(c: Category): seq<string>
  {
    match c
    case Approved => ["Accept"]
    case PendingPayment => ["AcceptNotPaid"]
    case Rejected => ["Reject"]
    case SentBack => ["SendBack"]
    case InProcess => ["Request", "Forward"]
  }

  /** No `Working_Status` belongs to two categories. */
  lemma CategoriesDisjoint(c1: Category, c2: Category, status: string)
    ensures status in FinalStatuses(c1) && status in FinalStatuses(c2) ==> c1 == c2
  {
  }

  // ---------------------------------------------------------------------------------------
  // `analyze_file`.

  /** One element of `applications`: the summary and the banijya columns. */
  datatype Application = Application(
    summary: Summary,
    finalStatus: string,
    maxOrder: int,
    entityType: string,
    appType: string)

  /** `sort_values('ActionDate')`, taken as given: each application's rows are in time order. */
  ghost predicate AppsOrdered(df: seq<Record<string>>)
  {
    forall id :: TimeOrdered(AppRecords(df, id))
  }

  function ApplicationOf(kind: FileKind, df: seq<Record<string>>, trackCode: int): Application
    requires |AppRecords(df, trackCode)| > 0
  {
    var ar := AppRecords(df, trackCode);
    Application(SummaryOf(trackCode, Events(ar)), ar[|ar| - 1].status, MaxLevel(ar),
                kind.entityType, kind.appType)
  }

  /** The applications of the track codes `ids`, in order; a code without rows is skipped. */
  function ApplicationsOf(kind: FileKind, df: seq<Record<string>>, ids: seq<int>): seq<Application>
  {
    PerApp(ids, id => |AppRecords(df, id)| > 0, id requires |AppRecords(df, id)| > 0 => ApplicationOf(kind, df, id))
  }

  /** The body of the `for track_code in df['TrackCode'].unique()` loop, for a code with rows. */
  method AnalyzeApplication(kind: FileKind, df: seq<Record<string>>, trackCode: int) returns (app: Application)
    requires |AppRecords(df, trackCode)| > 0
    ensures app == ApplicationOf(kind, df, trackCode)
  {
    var appRecords := AppRecords(df, trackCode);
    var finalStatus := appRecords[|appRecords| - 1].status;
    var s := Summarise(trackCode, Events(appRecords));
    var maxOrder := MaxLevel(appRecords);
    app := Application(s, finalStatus, maxOrder, kind.entityType, kind.appType);
  }

  method AnalyzeFile(filename: string, df: seq<Record<string>>) returns (applications: seq<Application>)
    ensures applications == ApplicationsOf(ParseFilename(filename), df, UniqueIds(df))
  {
    var parts := Split(RemoveXlsx(filename), '_');
    var entityType := parts[0];
    var appType := if |parts| > 1 then parts[1] else "Unknown";
    applications := AnalyzeTrackCodes(FileKind(entityType, appType), df);
  }

  lemma ApplicationsStep(kind: FileKind, df: seq<Record<string>>, ids: seq<int>, i: nat)
    requires i < |ids|
    ensures ApplicationsOf(kind, df, ids[..i + 1])
            == ApplicationsOf(kind, df, ids[..i])
               + (if |AppRecords(df, ids[i])| == 0 then [] else [ApplicationOf(kind, df, ids[i])])
  {
    assert ids[..i + 1][..i] == ids[..i];
  }

  /** The loop over `df['TrackCode'].unique()`, appending one application per code. */
  method AnalyzeTrackCodes(kind: FileKind, df: seq<Record<string>>) returns (applications: seq<Application>)
    ensures applications == ApplicationsOf(kind, df, UniqueIds(df))
  {
    var trackCodes := UniqueIds(df);
    applications := [];
    var i := 0;
    while i < |trackCodes|
      invariant 0 <= i <= |trackCodes|
      invariant applications == ApplicationsOf(kind, df, trackCodes[..i])
    {
      ApplicationsStep(kind, df, trackCodes, i);
      var trackCode := trackCodes[i];
      var appRecords := AppRecords(df, trackCode);
      if |appRecords| == 0 {
        i := i + 1;
        continue;
      }
      var app := AnalyzeApplication(kind, df, trackCode);
      applications := applications + [app];
      i := i + 1;
    }
    assert trackCodes[..i] == trackCodes;
  }

  /** When every code has rows, the `i`-th application is that of the `i`-th code. */
  lemma ApplicationsAt(kind: FileKind, df: seq<Record<string>>, ids: seq<int>, i: nat)
    requires forall k :: 0 <= k < |ids| ==> |AppRecords(df, ids[k])| > 0
    requires i < |ids|
    ensures |ApplicationsOf(kind, df, ids)| == |ids|
    ensures ApplicationsOf(kind, df, ids)[i] == ApplicationOf(kind, df, ids[i])
  {
    var present := id => |AppRecords(df, id)| > 0;
    var f := id requires |AppRecords(df, id)| > 0 => ApplicationOf(kind, df, id);
    PerAppLength(ids, present, f);
    PerAppAt(ids, present, f, i);
  }

  /**
    Every track code of the file yields one application, in order of first appearance, and
    the rows it is built from are in time order.
  */
  lemma AnalyzeFileApplications(filename: string, df: seq<Record<string>>, i: nat)
    requires AppsOrdered(df)
    requires i < |UniqueIds(df)|
    ensures var ids := UniqueIds(df);
      var apps := ApplicationsOf(ParseFilename(filename), df, ids);
      && |apps| == |ids|
      && |AppRecords(df, ids[i])| > 0
      && TimeOrdered(AppRecords(df, ids[i]))
      && apps[i] == ApplicationOf(ParseFilename(filename), df, ids[i])
  {
    var ids := UniqueIds(df);
    var kind := ParseFilename(filename);
    IdsHaveRows(df, ids);
    ApplicationsAt(kind, df, ids, i);
  }

  /**
    An application's summary is that of its rows, its final status is the status of its
    latest row, its `max_order` is the highest order any of its rows reached, and it carries
    the file's entity and application types.
  */
  lemma ApplicationFacts(kind: FileKind, df: seq<Record<string>>, trackCode: int)
    requires |AppRecords(df, trackCode)| > 0
    requires TimeOrdered(AppRecords(df, trackCode))
    ensures var ar := AppRecords(df, trackCode);
      var app := ApplicationOf(kind, df, trackCode);
      && app.summary == SummaryOf(trackCode, Events(ar))
      && Sorted(Events(ar))
      && app.finalStatus == ar[|ar| - 1].status
      && (forall j :: 0 <= j < |ar| ==> ar[j].time <= ar[|ar| - 1].time)
      && (forall j :: 0 <= j < |ar| ==> ar[j].level <= app.maxOrder)
      && (exists j :: 0 <= j < |ar| && ar[j].level == app.maxOrder)
      && app.entityType == kind.entityType && app.appType == kind.appType
  {
    OrderedEvents(AppRecords(df, trackCode));
    MaxLevelBounds(AppRecords(df, trackCode));
  }

  // ---------------------------------------------------------------------------------------
  // Selecting applications in the main loop.

  /**
    `df_all[(entity_type == e) & (app_type == a)]` filtered by
    `final_status.isin(final_statuses)`, in order.
  */
  function StatusSubset(apps: seq<Application>, entityType: string, appType: string, c: Category)
    : (r: seq<Application>)
    ensures forall i :: 0 <= i < |r| ==>
      && r[i] in apps
      && r[i].entityType == entityType && r[i].appType == appType
      && r[i].finalStatus in FinalStatuses(c)
  {
    if apps == [] then []
    else
      var last := apps[|apps| - 1];
      StatusSubset(apps[..|apps| - 1], entityType, appType, c)
      + (if last.entityType == entityType && last.appType == appType && last.finalStatus in FinalStatuses(c)
         then [last] else [])
  }

  /** Every application of the entity and type whose final status is in the category is selected. */
  lemma {:induction false} StatusSubsetComplete(apps: seq<Application>, entityType: string, appType: string,
                                                c: Category, k: nat)
    requires k < |apps|
    requires apps[k].entityType == entityType && apps[k].appType == appType
    requires apps[k].finalStatus in FinalStatuses(c)
    ensures apps[k] in StatusSubset(apps, entityType, appType, c)
  {
    if k < |apps| - 1 {
      StatusSubsetComplete(apps[..|apps| - 1], entityType, appType, c, k);
    }
  }

  /** An application appears in the subsets of at most one status category. */
  lemma StatusSubsetsDisjoint(apps: seq<Application>, entityType: string, appType: string,
                              c1: Category, c2: Category, a: Application)
    requires a in StatusSubset(apps, entityType, appType, c1)
    requires a in StatusSubset(apps, entityType, appType, c2)
    ensures c1 == c2
  {
    CategoriesDisjoint(c1, c2, a.finalStatus);
  }

  /** `status_subset` as the summaries `aggregate_transitions_by_bin` reads. */
  function SummariesOf(apps: seq<Application>): (r: seq<Summary>)
    ensures |r| == |apps|
    ensures forall i :: 0 <= i < |apps| ==> r[i] == apps[i].summary
  {
    seq(|apps|, i requires 0 <= i < |apps| => apps[i].summary)
  }

  /** `status_subset['max_order'].tolist()`. */
  function MaxOrders(apps: seq<Application>): (r: seq<int>)
    ensures |r| == |apps|
    ensures forall i :: 0 <= i < |apps| ==> r[i] == apps[i].maxOrder
  {
    seq(|apps|, i requires 0 <= i < |apps| => apps[i].maxOrder)
  }

  /**
    The authority chart of a non-empty subset counts every selected application exactly once
    at the highest order it reached.
  */
  lemma SubsetDistribution(apps: seq<Application>, entityType: string, appType: string, c: Category)
    requires |StatusSubset(apps, entityType, appType, c)| > 0
    ensures var subset := StatusSubset(apps, entityType, appType, c);
      var d := LevelDistribution.DistributionOf(MaxOrders(subset));
      && d.Some?
      && Sums.SumNat(d.value.counts) == |subset|
      && forall i :: 0 <= i < |subset| ==> subset[i].maxOrder in d.value.levels
  {
    var subset := StatusSubset(apps, entityType, appType, c);
    var xs := MaxOrders(subset);
    LevelDistribution.DistributionCounts(xs);
    forall i | 0 <= i < |subset| ensures subset[i].maxOrder in xs {
      assert xs[i] == subset[i].maxOrder;
    }
  }
}
