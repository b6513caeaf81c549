# Workflow time analysis: a verified model

This project models the workflow aggregator repeated across the repository's analysis scripts.
- It reads a timestamped workflow log: one row per action on an application.
- It groups the rows by application id.
- It summarises every application into a single record. The record holds the elapsed days between the first and last action, one of sixteen time bins, and a dict from each level transition (`L1→L3`, `L4←L2`, `O2→O5` for banijya working orders) to its share of the elapsed time.
- It then aggregates these records per bin: the mean share of each transition, renormalised to add up to 100.

Around that core the model also covers:
- how applications are chosen for a category: the final `auth_status` code, the authoritative-status lookup refined by final level and dormancy, and the banijya final `Working_Status`;
- the authority-level chart: the highest level reached per application, then counted, shown as percentages with a cumulative line, and the most common level;
- the period distributions of the deregistration, share-process and discounted-deregistration scripts: `pd.cut` into eleven periods, `value_counts`, percentages of the category size, and the missing-time case.

Modules:
- `Wrappers` is the optional value. `Dicts` models insertion-ordered Python dicts. `Sums` covers sums, percentages and `np.cumsum`.
- `TimeBins` (`np.digitize` with clamping) and `TimePeriods` (`pd.cut`, `calculate_distribution`) are the two binnings.
- `Transitions` is the per-application summariser. `Records` and `WorkflowTable` are the row selections. `Aggregation` is `aggregate_transitions_by_bin`.
- `WorkflowBinCharts`, `WorkflowByStatus`, `WorkflowIntegrated` and `AuthorityLevels` model the four workflow scripts.
- `LevelDistribution` is the authority chart's counting. `Banijya` is the two banijya scripts. `CategoryFilters` is the three period-distribution scripts.

Every loop of the modelled operations is a `method` with a `while` or `for` loop. It is proved equal to a specification function, and the properties are proved about that function:
- `Summarise` and `RecordTransition` are proved against `SummaryOf` and `Accumulated`.
- `AggregateTransitionsByBin`, `AggregateBin`, `CollectTransitionLists` and `MeansOf` are proved against `AggregateOf`, `BinOf`, `Collect` and `Means`.
- The selection loops are proved against `SelectedIds` and `MaxLevels`.
- `SummariseAll`, `AnalyzeTrackCodes`, `BuildStatusLookup`, `CalculateDistribution` and `CalculateAll` follow the same pattern.

The transition dict is also described independently, by which consecutive pairs move under a key (`Occurs`) and the sum of their shares (`Contribution`). Lemmas connect the two descriptions, and `ValuesFor` does the same for the per-bin lists.

How values are modelled:
- **Time:** integer seconds since the epoch. `total_seconds() / 86400` is exact `real` division. `(today - t).days` is the floor of the seconds over 86400.
- **Today:** the `today` constants are 2026-01-25 for the distribution scripts and 2026-01-28 for the integrated script's dormancy.
- **Missing values:** a missing `time_days` (NaN) is `None`. A missing status string is a string equal to no category constant, as NaN compares unequal to all of them.

Three behaviours of the scripts that are easy to misread:
- **Zero elapsed time does not empty the transition dict.** Every move between different levels is still recorded, with share 0 (`SummaryZeroDuration`, `SummaryKeys`). The dict is empty only when there is a single record or no pair changes level (`SummaryShape`).
- **A key's bin mean is taken over only the applications that have the key.** Two applications of one bin, `{A:100}` and `{A:40, B:60}`, give means `{A:70, B:60}`. Their total of 130 renormalises them to `700/13` and `600/13` (`ExampleMeans`, `ExampleAggregate`).
- **Adding up to 100 has conditions:**
  - A bin's shares add up to 100 only when the bin's means have a positive total (`BinSumsTo100`). An all-zero bin is left as it is.
  - One application's shares add up to at most 100 (`SummaryShareBound`). Time spent between records at the same level counts in the total but in no key.

## Model

| member | source | states |
|---|---|---|
| Dicts.IndexOf | workflow_time_by_status_integrated.py:229 | The found position holds the key; no position is found exactly when the key is not in the dict. |
| Dicts.Get | workflow_time_by_status_integrated.py:170 | `dict.get` gives nothing exactly when the key is absent. |
| Dicts.GetAt | workflow_time_by_status_integrated.py:229-232 | Looking up a stored key gives its stored value. |
| Dicts.Put | workflow_time_by_status_integrated.py:232 | After `d[k] = v`, `k` maps to `v`, every other key keeps its value, and the key set gains `k`. |
| Dicts.PutShape | workflow_time_by_status_integrated.py:229-232 | Assigning to an existing key keeps its place in insertion order; a new key is appended. |
| Dicts.AddTo | workflow_time_by_status_integrated.py:229-232 | The accumulation step: `k` becomes its old value plus `v`, or `v` if new; other keys unchanged. |
| Dicts.AddToSum | workflow_time_by_status_integrated.py:229-232 | The accumulation step raises the dict's total by exactly the added value. |
| Dicts.AddToCases | workflow_time_by_status_integrated.py:229-232 | The step equals the `+=` branch when the key is present and the plain assignment when absent. |
| Dicts.Values | workflow_time_by_status_integrated.py:275 | `d.values()` lists the values in insertion order. |
| Dicts.SumValuesIsSum | workflow_time_by_status_integrated.py:275 | `sum(d.values())` is the sum of the value list. |
| Sums.PercentAdd | workflow_time_by_status_integrated.py:224 | Percentages of one total add up like their parts. |
| Sums.PercentWhole | workflow_time_by_status_integrated.py:224 | A total is 100 percent of itself. |
| Sums.Percents | authority_level_distribution.py:146 | One percentage per count, each the count over the total times 100. |
| Sums.SumPercents | authority_level_distribution.py:146 | The percentages add up to the percentage of the sum. |
| Sums.CumSum | authority_level_distribution.py:192 | `np.cumsum` has one entry per term. |
| Sums.CumSumAt | authority_level_distribution.py:192 | Entry `i` of the running sum is the sum of the first `i + 1` terms. |
| Sums.CumSumMonotone | authority_level_distribution.py:192 | Over non-negative terms the running sum never falls and ends at the total. |
| Sums.PercentBelowWhole | deregistration_submission_to_approval.py:98 | A part smaller than the total is below 100 percent. |
| TimeBins.Digitize | workflow_time_by_status_integrated.py:235 | `np.digitize` gives at most the number of edges. |
| TimeBins.BinLabel | workflow_time_by_status_integrated.py:234-244 | An application's `bin` is the label at the clamped bin index of its elapsed days. |
| TimeBins.BinIndex | workflow_time_by_status_integrated.py:235-239 | The clamped bin index is always one of the sixteen labels. |
| TimeBins.EdgesAscending | workflow_time_by_status_integrated.py:65-66 | The finite edges ascend strictly and there are as many as labels. |
| TimeBins.DigitizeSplits | workflow_time_by_status_integrated.py:235 | Digitize counts exactly the ascending edges at or below the value; all later edges are above it. |
| TimeBins.DigitizeAll | workflow_time_by_status_integrated.py:235 | A value at or above every edge gets the number of edges. |
| TimeBins.DigitizeNone | workflow_time_by_status_integrated.py:235 | A value below every edge gets 0. |
| TimeBins.DigitizeMonotone | workflow_time_by_status_integrated.py:235 | A larger value never gets a smaller count. |
| TimeBins.BinIndexIsInterval | workflow_time_by_status_integrated.py:235-239 | A non-negative elapsed time is in bin `j` exactly when edge `j` <= days < edge `j + 1`; the last bin is unbounded. |
| TimeBins.BinIndexNegative | workflow_time_by_status_integrated.py:236-237 | A negative value is clamped into the first bin. |
| TimeBins.BinIndexMonotone | workflow_time_by_status_integrated.py:235-239 | A longer elapsed time never lands in an earlier bin. |
| TimeBins.ExampleTenDays | workflow_time_by_status_integrated.py:65-66 | Ten days fall in the "2wk" bin. |
| TimePeriods.Cut | deregistration_submission_to_approval.py:88 | The number of edges strictly below a value is at most the number of edges. |
| TimePeriods.PeriodIndex | deregistration_submission_to_approval.py:27-29 | Every finite value gets one of the eleven labels. |
| TimePeriods.CutSplits | deregistration_submission_to_approval.py:88 | Over ascending edges, the edges below the value come first and all others are at or above it. |
| TimePeriods.CutAll | deregistration_submission_to_approval.py:88 | A value above every edge is past all of them. |
| TimePeriods.PeriodIndexIsInterval | deregistration_submission_to_approval.py:27-29 | A value is in period `j` exactly when it is above edge `j - 1` and at most edge `j` (right-closed); the outer periods are unbounded. |
| TimePeriods.CutMonotone | deregistration_submission_to_approval.py:88 | A larger value is past at least as many edges. |
| TimePeriods.PeriodIndexMonotone | deregistration_submission_to_approval.py:88 | A longer time never lands in an earlier period. |
| TimePeriods.Defined | deregistration_submission_to_approval.py:88-89 | At most every row has a defined (non-NaN) time. |
| TimePeriods.CountIn | deregistration_submission_to_approval.py:88-89 | The `value_counts()` entry of one label: how many defined times fall in its period. |
| TimePeriods.ValueCounts | deregistration_submission_to_approval.py:88-89 | One count per label: the number of times in that period. |
| TimePeriods.ValueCountsTotal | deregistration_submission_to_approval.py:88-89 | The counts add up to the number of non-NaN times; NaN falls in no period. |
| TimePeriods.DistributionOf | deregistration_submission_to_approval.py:84-103 | Eleven counts and eleven percentages; an empty category gives zeros. |
| TimePeriods.CalculateDistribution | deregistration_submission_to_approval.py:84-103 | The label loop returns exactly the counts and percentages of `DistributionOf`. |
| TimePeriods.DistributionTotals | deregistration_submission_to_approval.py:88-98 | The counts add up to the defined times, never more than the rows; the percentages add up to that number as a percentage of the row count. |
| TimePeriods.DistributionPercent | deregistration_submission_to_approval.py:98 | Each percentage is its count over the category's row count times 100. |
| TimePeriods.AllDefined | deregistration_submission_to_approval.py:88-89 | With no NaN, every row has a defined time. |
| TimePeriods.SomeUndefined | deregistration_submission_to_approval.py:88-89 | A NaN time leaves fewer defined times than rows. |
| TimePeriods.DistributionComplete | deregistration_submission_to_approval.py:84-103 | With no NaN, the counts add up to the row count and the percentages to 100. |
| TimePeriods.DistributionShortfall | deregistration_submission_to_approval.py:84-103 | One NaN time leaves the counts below the row count and the percentages below 100. |
| TimePeriods.CalculateAll | deregistration_submission_to_approval.py:105-113 | `all_data` holds one entry per category, in order, with its counts, percentages and row count. |
| CategoryFilters.Filter | deregistration_submission_to_approval.py:36-56 | A boolean mask keeps exactly the rows satisfying it, and never more rows. |
| CategoryFilters.FilterSplit | discounted_deregistration_three_phases.py:54-62 | Two masks that split every row between them select all rows between them. |
| CategoryFilters.DeregistrationSelects | deregistration_submission_to_approval.py:36-56 | A category's mask: its type, `APPROVED`, a submission date, and an approved date (completed) or a payment still in process or pending (pending). |
| CategoryFilters.DeregistrationTime | deregistration_submission_to_approval.py:60-65 | Every selected deregistration row has a defined time. |
| CategoryFilters.DeregistrationTimes | deregistration_submission_to_approval.py:58-65 | One time per selected row. |
| CategoryFilters.DeregistrationRowFacts | deregistration_submission_to_approval.py:36-65 | A completed row is an approved row of its type with both dates, its time approved minus submitted. A pending row is approved, submitted and awaiting payment verification or payment, its time today minus submitted. |
| CategoryFilters.DeregistrationDistributionComplete | deregistration_submission_to_approval.py:84-103 | A non-empty deregistration category is counted completely and its percentages add up to 100. |
| CategoryFilters.ShareSelects | share_process_time_distribution.py:33-44 | A category's test on `post_event_process_status`: `VERIFIED`, `REJECTED`, or one of the four in-process statuses. |
| CategoryFilters.ShareTime | share_process_time_distribution.py:35-45 | Verified and rejected rows: updated minus submission date, missing without an updated date. In-process rows: today minus submission date. |
| CategoryFilters.ShareCategoriesDisjoint | share_process_time_distribution.py:33-44 | No `post_event_process_status` is in two of Verified, Rejected, In-Process. |
| CategoryFilters.DraftAndCanceledExcluded | share_process_time_distribution.py:41-44 | Drafts and cancelled applications are in no category. |
| CategoryFilters.ShareTimes | share_process_time_distribution.py:34-45 | One time per selected share row. |
| CategoryFilters.ShareRowsMembers | share_process_time_distribution.py:31-44 | A row is in a category exactly when it has a submission date and the category's status. |
| CategoryFilters.ShareMissingUpdateShortfall | share_process_time_distribution.py:35-39 | A verified or rejected row without an updated date makes that category's percentages add up to less than 100. |
| CategoryFilters.ShareInProcessComplete | share_process_time_distribution.py:44-45 | In-process times are always defined: the category's percentages add up to 100. |
| CategoryFilters.PhaseApproved | discounted_deregistration_three_phases.py:54-56 | An approved phase row is `APPROVED` with both dates. |
| CategoryFilters.PhasePending | discounted_deregistration_three_phases.py:60-61 | A pending phase row has a submission date and is not `APPROVED` or lacks an approved date. |
| CategoryFilters.PhasePartition | discounted_deregistration_three_phases.py:54-62 | A row is approved or pending exactly when it has a submission date, and never both. |
| CategoryFilters.PhaseSplitCounts | discounted_deregistration_three_phases.py:54-62 | Approved plus pending rows count every submitted row once. |
| CategoryFilters.FilterOfFilter | share_process_time_distribution.py:31-44 | Masking an earlier selection by a stronger mask is masking the table by it. |
| CategoryFilters.ApprovedTimes | discounted_deregistration_three_phases.py:54-57 | One defined time per approved phase row. |
| CategoryFilters.PendingTimes | discounted_deregistration_three_phases.py:60-62 | One defined time per pending phase row. |
| CategoryFilters.PhaseDistributionsComplete | discounted_deregistration_three_phases.py:54-65 | Non-empty approved and pending selections have percentages adding up to 100. |
| Transitions.MinTime | workflow_time_by_status_integrated.py:199 | The minimum timestamp is at or below every record's and is some record's. |
| Transitions.MaxTime | workflow_time_by_status_integrated.py:200 | The maximum timestamp is at or above every record's and is some record's. |
| Transitions.ElapsedDays | workflow_time_by_status_integrated.py:199-201 | `total_days` is the latest minus the earliest timestamp, in days. |
| Transitions.KeyOf | workflow_time_by_status_integrated.py:216-220 | A move's key keeps the from and to levels; its arrow is `→` when the level rises and `←` when it falls. |
| Transitions.Share | workflow_time_by_status_integrated.py:222-226 | `trans_pct` is the gap over the elapsed time times 100 when that time is positive, and 0 otherwise. |
| Transitions.Accumulated | workflow_time_by_status_integrated.py:204-232 | The `transitions` dict after the first `n` consecutive pairs: a same-level pair is skipped, any other adds its share under its key or starts the key. |
| Transitions.SortedElapsed | workflow_time_by_status_integrated.py:199-201 | In time order the elapsed days run from the first record to the last and are non-negative. |
| Transitions.AccumulatedKeys | workflow_time_by_status_integrated.py:206-220 | A key is in the dict exactly when some consecutive pair of different levels moves under it. Same-level pairs record nothing; `→` means the level rose. |
| Transitions.AccumulatedValue | workflow_time_by_status_integrated.py:206-232 | A key's value is the sum of the shares of all pairs that move under it. |
| Transitions.ContributionAbsent | workflow_time_by_status_integrated.py:229-232 | A key no pair moves under has no share. |
| Transitions.MoveStep | workflow_time_by_status_integrated.py:229-232 | A pair moving under a key adds its share to that key's running total, or starts it. |
| Transitions.StayStep | workflow_time_by_status_integrated.py:212-214 | A pair not moving under a key leaves that key's entry alone. |
| Transitions.ZeroDurationShares | workflow_time_by_status_integrated.py:222-226 | With zero elapsed time every recorded key is still present, with share 0. |
| Transitions.SumIsMovedShare | workflow_time_by_status_integrated.py:206-232 | The dict's total is the summed share of all pairs that change level. |
| Transitions.MovedShareBound | workflow_time_by_status_integrated.py:206-226 | Those shares total at most the time to record `n` as a percentage; exactly that when no pair repeats a level. |
| Transitions.SummaryOf | workflow_time_by_status_integrated.py:198-247 | One application's record: its id, elapsed days, the bin label of those days, the dict over all consecutive pairs and its row count. |
| Transitions.SummaryShape | workflow_time_by_status_integrated.py:241-247 | The summary keeps the id and record count; the elapsed days run from first to last record; the bin is a label. A single record gives 0 days and no transitions. |
| Transitions.SummaryKeys | workflow_time_by_status_integrated.py:204-232 | The summary's keys are exactly the level moves between consecutive records. |
| Transitions.SummaryShareBound | workflow_time_by_status_integrated.py:222-232 | Over a positive duration an application's shares add up to at most 100. |
| Transitions.SummaryZeroDuration | workflow_time_by_status_integrated.py:222-226 | Over zero duration every recorded transition has share 0. |
| Transitions.RecordTransition | workflow_time_by_status_integrated.py:207-232 | One pass for two different levels gives the dict after one more pair. |
| Transitions.Summarise | workflow_time_by_status_integrated.py:198-247 | The per-application body returns exactly `SummaryOf` of the records. |
| Transitions.ExampleElapsed | workflow_time_by_status_integrated.py:199-201 | Levels 1, 1, 3, 3 at days 0, 1, 4, 10: ten days elapse, in the "2wk" bin. |
| Transitions.ExampleTransitions | workflow_time_by_status_integrated.py:206-232 | The same records give only `L1→L3`, worth 30 percent. |
| Transitions.ExampleSummary | workflow_time_by_status_integrated.py:241-247 | The full summary of that example. |
| Records.FirstRow | workflow_time_by_status_integrated.py:164 | The position of an id's first row: that row has the id and no earlier row does. |
| Records.UniqueIdsOrder | workflow_time_by_status_integrated.py:164 | `unique()` lists the ids in the order of their first rows. |
| Records.UniqueIds | workflow_time_by_status_integrated.py:164 | `unique()` lists each id once, exactly the ids with a row; `UniqueIdsOrder` gives the order. |
| Records.AppRecords | workflow_time_by_status_integrated.py:175 | An application's selection holds only its own rows from the table. |
| Records.AppRecordsComplete | workflow_time_by_status_integrated.py:175 | Every row of the application is selected. |
| Records.AppRecordsNonEmpty | workflow_time_by_status_integrated.py:193-196 | An id taken from the table has at least one row. |
| Records.AppRecordsOrdered | workflow_time_by_status_integrated.py:193 | Selecting an application keeps time order. |
| Records.MaxLevel | authority_level_distribution.py:118 | `max()` of the level column of an application's rows. |
| Records.MaxLevelBounds | authority_level_distribution.py:118 | The maximum level is at or above every row's and is some row's. |
| Records.Events | workflow_time_by_status_integrated.py:207-210 | Each record's level and time, in order. |
| Records.OrderedEvents | workflow_time_by_status_integrated.py:193 | Time-ordered rows give time-ordered events. |
| Records.PerAppLength | workflow_time_by_status_integrated.py:192-196 | When every id has rows, the loop appends one entry per id. |
| Records.PerAppAt | workflow_time_by_status_integrated.py:192-247 | The `i`-th appended entry is that of the `i`-th id. |
| Records.SummariesAt | workflow_time_by_status_integrated.py:192-247 | The `i`-th summary is the summary of the `i`-th id's rows. |
| Records.SummariesOnePerId | workflow_time_by_status_integrated.py:192-247 | One summary per id, in order; each summary's id is its application's and its `num_steps` the application's row count. |
| Records.SummariseAll | workflow_time_by_status_integrated.py:190-247 | The summarising loop returns exactly `Summaries`. |
| WorkflowTable.ProcessRows | workflow_time_by_status_integrated.py:157 | The process selection holds only rows of that process. |
| WorkflowTable.ProcessRowsComplete | workflow_time_by_status_integrated.py:157 | Every row naming the process is selected. |
| WorkflowTable.ProcessRecordsEmpty | workflow_time_by_status_integrated.py:157-161 | The selection is empty exactly when no row names the process. |
| WorkflowTable.ProcessRowsOrdered | workflow_time_by_status_integrated.py:157 | Selecting a process keeps time order. |
| WorkflowTable.ProcessRecordsOrdered | workflow_time_by_status_integrated.py:157 | The selected records are in time order. |
| WorkflowBinCharts.CalculateApplicationData | workflow_time_bin_charts.py:57-137 | Returns exactly `ApplicationData`: nothing for an absent process, else one summary per application. |
| WorkflowBinCharts.ApplicationDataOnePerApp | workflow_time_bin_charts.py:64-134 | Nothing exactly when no row names the process; otherwise one summary per distinct id, in order, with its row count. |
| WorkflowBinCharts.ApplicationDataSummaries | workflow_time_bin_charts.py:77-134 | Each summary is `SummaryOf` the application's non-empty, time-ordered records. |
| WorkflowByStatus.Selects | workflow_time_by_status.py:58-77 | Each category's `filter_func` on the final status code: 1 approved, 2 or 3 rejected, 0 in process. |
| WorkflowByStatus.SelectedIds | workflow_time_by_status.py:97-104 | `filtered_app_ids`: the ids whose last record's status passes the filter, in `unique()` order. |
| WorkflowByStatus.CategoriesPartition | workflow_time_by_status.py:58-77 | No final status is in two categories; exactly the codes 0 to 3 are in one. |
| WorkflowByStatus.SelectedIdsMembers | workflow_time_by_status.py:98-104 | An id is kept exactly when it is an application of the process whose last record's status passes the filter. |
| WorkflowByStatus.FilterByFinalStatus | workflow_time_by_status.py:98-104 | The first loop returns exactly `SelectedIds`. |
| WorkflowByStatus.CalculateApplicationDataByStatus | workflow_time_by_status.py:79-172 | Returns exactly `ApplicationDataByStatus`. |
| WorkflowByStatus.ByStatusOnePerApp | workflow_time_by_status.py:112-169 | One summary per selected id, in order, with its row count; each has its final status in the category. |
| WorkflowByStatus.ByStatusNone | workflow_time_by_status.py:88-108 | Nothing exactly when the process has no rows or no application's final status is in the category. |
| WorkflowIntegrated.LookupOf | workflow_time_by_status_integrated.py:44-48 | `status_lookup` after every status row has been assigned in order. |
| WorkflowIntegrated.BuildStatusLookup | workflow_time_by_status_integrated.py:44-48 | The loop returns the lookup of all rows assigned in order. |
| WorkflowIntegrated.LookupKeys | workflow_time_by_status_integrated.py:44-48 | An id is in the lookup exactly when some row names it. |
| WorkflowIntegrated.LookupLastWins | workflow_time_by_status_integrated.py:44-48 | An id maps to the status of the last row naming it. |
| WorkflowIntegrated.AuthStatuses | workflow_time_by_status_integrated.py:89-146 | Each category's `auth_statuses` list. |
| WorkflowIntegrated.Selects | workflow_time_by_status_integrated.py:89-146 | Each category's `filter_func` of the status, the final level and the dormant days. |
| WorkflowIntegrated.DaysDormant | workflow_time_by_status_integrated.py:178-179 | `(today - last_activity).days`: whole days since the latest record, rounded down. |
| WorkflowIntegrated.IsSelected | workflow_time_by_status_integrated.py:169-181 | An application is kept when the lookup has its status and the filter passes on its last record's level and its dormant days. |
| WorkflowIntegrated.SelectedIds | workflow_time_by_status_integrated.py:167-182 | `filtered_app_ids`: the selected ids, in `unique()` order. |
| WorkflowIntegrated.ApprovedNesting | workflow_time_by_status_integrated.py:89-121 | L6+ lies within L4+, within L4+-or-dormant, within all approved. |
| WorkflowIntegrated.CategoryStatuses | workflow_time_by_status_integrated.py:89-146 | A category selects only its own statuses; the unrefined ones select exactly them. An application is in at most one status group. |
| WorkflowIntegrated.SelectedIdsMembers | workflow_time_by_status_integrated.py:167-182 | An id is kept exactly when it has an authoritative status and passes the filter on final level and dormancy. |
| WorkflowIntegrated.FilterByAuthStatus | workflow_time_by_status_integrated.py:167-182 | The first loop returns exactly `SelectedIds`. |
| WorkflowIntegrated.CalculateApplicationDataByStatus | workflow_time_by_status_integrated.py:148-250 | Returns exactly `ApplicationDataByStatus`. |
| WorkflowIntegrated.IntegratedOnePerApp | workflow_time_by_status_integrated.py:190-247 | One summary per selected id, in order, with its row count; each is in the lookup and passes the filter. |
| WorkflowIntegrated.MissingStatusNeverSelected | workflow_time_by_status_integrated.py:170-173 | An application missing from the lookup is never selected. |
| WorkflowIntegrated.IntegratedNone | workflow_time_by_status_integrated.py:157-186 | Nothing exactly when the process has no rows or none of its applications is selected. |
| AuthorityLevels.AuthStatuses | authority_level_distribution.py:60-81 | Each category's `auth_statuses` list. |
| AuthorityLevels.Qualifies | authority_level_distribution.py:105-112 | An application passes both `continue` guards: the lookup has its status and the status is one of the category's. |
| AuthorityLevels.MaxLevels | authority_level_distribution.py:102-121 | `max_levels`: the highest level of each qualifying application, in `unique()` order. |
| AuthorityLevels.CategoriesDisjoint | authority_level_distribution.py:60-81 | No authoritative status belongs to two categories. |
| AuthorityLevels.QualifyingIdsMembers | authority_level_distribution.py:104-112 | An id qualifies exactly when it is an application of the process with a status in the category. |
| AuthorityLevels.QualifiesForOneCategory | authority_level_distribution.py:106-112 | An application qualifies for at most one category. |
| AuthorityLevels.MaxLevelsPerApp | authority_level_distribution.py:104-121 | One level per qualifying application, in order, each its rows' maximum. |
| AuthorityLevels.AnalyzeAuthorityLevels | authority_level_distribution.py:83-128 | Returns exactly `AuthorityLevelsOf`. |
| AuthorityLevels.AuthorityLevelsPerApp | authority_level_distribution.py:98-128 | A result has one level per qualifying application: no row of the application exceeds it and one reaches it. |
| AuthorityLevels.AppMaxLevel | authority_level_distribution.py:115-118 | An application's maximum bounds each of its rows in the table and is reached by one. |
| AuthorityLevels.AuthorityLevelsNone | authority_level_distribution.py:91-125 | Nothing exactly when no row names the process or no application has a status in the category. |
| AuthorityLevels.MissingStatusContributesNothing | authority_level_distribution.py:106-109 | An application missing from the lookup contributes no level. |
| AuthorityLevels.AuthorityChart | authority_level_distribution.py:137-146 | The chart's counts add up to the number of qualifying applications, its percentages to 100, and its cumulative line ends at 100. |
| LevelDistribution.Insert | authority_level_distribution.py:141 | Inserting into an ascending list keeps it strictly ascending and adds exactly the value. |
| LevelDistribution.Levels | authority_level_distribution.py:141 | `sorted(level_counts.keys())`: strictly ascending, exactly the values that occur. |
| LevelDistribution.CountsAt | authority_level_distribution.py:142 | One count per level, the number of applications at it. |
| LevelDistribution.CountsAtSum | authority_level_distribution.py:138-142 | Counts over distinct levels covering every value add up to the number of values. |
| LevelDistribution.Appearances | authority_level_distribution.py:138 | The `Counter`'s keys: each value once, exactly those that occur. |
| LevelDistribution.MostCommonAt | authority_level_distribution.py:165-166 | The chosen key's count is maximal, and every earlier key's count is strictly smaller. |
| LevelDistribution.DistributionOf | authority_level_distribution.py:132-166 | Nothing for an empty list; otherwise the sorted levels, their counts, the counts as percentages of the list's length, their running sum and the most common level. |
| LevelDistribution.DistributionCounts | authority_level_distribution.py:137-142 | Levels strictly ascending and exactly those reached; each count positive and correct; counts add up to the number of applications. |
| LevelDistribution.CountPercentages | authority_level_distribution.py:145-146 | Counts of a positive total as percentages add up to 100; their running sum never falls and ends at 100. |
| LevelDistribution.DistributionPercentages | authority_level_distribution.py:145-146 | The chart's percentages add up to 100 and its cumulative line rises to 100. |
| LevelDistribution.DistributionMode | authority_level_distribution.py:165-166 | The mode occurs and no level is more common. Among equally common levels it is the one first seen. |
| LevelDistribution.FirstIndex | authority_level_distribution.py:165 | The position of a value's first occurrence. |
| LevelDistribution.AppearancesOrder | authority_level_distribution.py:138 | Earlier `Counter` keys first appear earlier in the list. |
| LevelDistribution.ExampleLevelsPrefix | authority_level_distribution.py:141 | The levels of 3, 1, 3 are 1, 3. |
| LevelDistribution.ExampleLevels | authority_level_distribution.py:141 | The levels of 3, 1, 3, 2, 1 are 1, 2, 3. |
| LevelDistribution.ExampleAppearancesPrefix | authority_level_distribution.py:138 | The keys of 3, 1, 3 are 3, 1 in order of first appearance. |
| LevelDistribution.ExampleAppearances | authority_level_distribution.py:138 | The keys of 3, 1, 3, 2, 1 are 3, 1, 2. |
| LevelDistribution.ExampleCounts | authority_level_distribution.py:142 | Its counts at 1, 2, 3 are 2, 1, 2. |
| LevelDistribution.ExampleDistribution | authority_level_distribution.py:165-166 | Levels 1 and 3 tie at two; 3 is reported as it appears first. |
| Aggregation.AppsInBin | workflow_time_by_status_integrated.py:257 | The bin's selection holds only applications of that bin; `AppsInBinComplete` and `AppsInBinCount` give the converse. |
| Aggregation.AppsInBinComplete | workflow_time_by_status_integrated.py:257 | Every application of the bin is selected. |
| Aggregation.AppsInBinCount | workflow_time_by_status_integrated.py:257 | The selection holds exactly as many applications as there are applications in the bin. |
| Aggregation.AppendTo | workflow_time_by_status_integrated.py:264-267 | `defaultdict(list)` append: the key's list gains the value at its end; other keys unchanged. |
| Aggregation.AddEntriesGet | workflow_time_by_status_integrated.py:266-267 | Appending one application's entries adds its value, once, to each of its keys. |
| Aggregation.CollectValues | workflow_time_by_status_integrated.py:263-267 | Each key's list is the percentages, in order, of exactly the applications that have the key. |
| Aggregation.Collect | workflow_time_by_status_integrated.py:263-267 | `transition_lists` after visiting the bin's applications and their entries in order. |
| Aggregation.ValuesForNonEmpty | workflow_time_by_status_integrated.py:263-267 | The reference list is non-empty exactly when some application has the key. |
| Aggregation.Mean | workflow_time_by_status_integrated.py:272 | `np.mean`: the sum of a non-empty list over its length. |
| Aggregation.Means | workflow_time_by_status_integrated.py:270-272 | Each key with the mean of its list, keys in the same order. |
| Aggregation.Normalised | workflow_time_by_status_integrated.py:277 | Each key with its value over the total times 100, keys in the same order. |
| Aggregation.NormalisedSum | workflow_time_by_status_integrated.py:274-277 | Renormalising by a positive own total gives exactly 100. |
| Aggregation.CollectNonEmpty | workflow_time_by_status_integrated.py:263-272 | Every collected list is non-empty, so every mean is defined. |
| Aggregation.MeansOf | workflow_time_by_status_integrated.py:270-272 | The means loop returns exactly `Means`. |
| Aggregation.CollectTransitionLists | workflow_time_by_status_integrated.py:263-267 | The nested loops return exactly `Collect`. |
| Aggregation.BinOf | workflow_time_by_status_integrated.py:256-282 | A bin's entry: no transitions and count 0 when empty; otherwise the means of its lists, renormalised when their total is positive, and the bin's size. |
| Aggregation.AggregateOf | workflow_time_by_status_integrated.py:252-284 | `bin_aggregates`: one `BinOf` per label, in label order. |
| Aggregation.AggregateBin | workflow_time_by_status_integrated.py:256-282 | One pass of the bin loop returns exactly `BinOf`. |
| Aggregation.AggregateTransitionsByBin | workflow_time_by_status_integrated.py:252-284 | Returns exactly `AggregateOf`, one entry per label. |
| Aggregation.AggregateShape | workflow_time_by_status_integrated.py:256-282 | One entry per label, in order; each count is the number of applications whose `bin` is that label; an empty bin has no transitions. |
| Aggregation.BinKeys | workflow_time_by_status_integrated.py:263-277 | A bin's keys are exactly those of its applications. |
| Aggregation.BinKeysOfApps | workflow_time_by_status_integrated.py:257-277 | A bin's keys are exactly the keys of the table's applications with that bin. |
| Aggregation.BinValue | workflow_time_by_status_integrated.py:263-277 | A key's value is the mean over only the bin's applications that have it, renormalised when the means' total is positive. |
| Aggregation.BinSumsTo100 | workflow_time_by_status_integrated.py:274-277 | A bin whose means have a positive total adds up to exactly 100. |
| Aggregation.ExampleListsFirst | workflow_time_by_status_integrated.py:264-267 | After the first application the only list is `A: [100]`. |
| Aggregation.ExampleAppendExisting | workflow_time_by_status_integrated.py:264-267 | Appending 40 to `A` gives `A: [100, 40]`. |
| Aggregation.ExampleAppendNew | workflow_time_by_status_integrated.py:264-267 | A new key `B` is appended after `A`. |
| Aggregation.ExampleLists | workflow_time_by_status_integrated.py:263-267 | The example bin's lists are `A: [100, 40]`, `B: [60]`. |
| Aggregation.ExampleMeans | workflow_time_by_status_integrated.py:270-272 | Its means are `A: 70`, `B: 60`. |
| Aggregation.ExampleAppsInBin | workflow_time_by_status_integrated.py:257 | Both example applications are in bin "3d". |
| Aggregation.ExampleNormalised | workflow_time_by_status_integrated.py:274-277 | Means 70 and 60 total 130 and renormalise to 700/13 and 600/13. |
| Aggregation.ExampleAggregate | workflow_time_by_status_integrated.py:256-282 | The example bin has count 2 and transitions 700/13 and 600/13. |
| Banijya.RemoveXlsx | banijya/banijya_workflow_analysis.py:68 | `replace('.xlsx', '')` never lengthens the name. |
| Banijya.Split | banijya/banijya_workflow_analysis.py:68 | `split('_')` gives at least one part, none containing `_`. |
| Banijya.JoinSplit | banijya/banijya_workflow_analysis.py:68 | Joining the parts restores the name. |
| Banijya.SplitJoin | banijya/banijya_workflow_analysis.py:68 | Splitting joined separator-free parts gives them back. |
| Banijya.RemoveXlsxSuffix | banijya/banijya_workflow_analysis.py:68 | A name without `.` loses exactly its `.xlsx` suffix. |
| Banijya.ParseFilename | banijya/banijya_workflow_analysis.py:68-70 | The entity type is the first `_`-part of the name without `.xlsx`; the application type is the second, or `Unknown`. |
| Banijya.ParseFilenameOf | banijya/banijya_workflow_analysis.py:68-70 | `A_B….xlsx` gives entity type `A` and application type `B`; a single segment gives `Unknown`. |
| Banijya.ParseFilenameShape | banijya/banijya_workflow_analysis.py:68-70 | The entity type never contains `_`; a name without `_` has application type `Unknown`. |
| Banijya.ExampleFilename | banijya/banijya_workflow_analysis.py:68-70 | `Company_New.xlsx` and `Private.xlsx` parse as expected. |
| Banijya.FinalStatuses | banijya/banijya_workflow_analysis.py:33-59 | Each category's `final_statuses` list. |
| Banijya.CategoriesDisjoint | banijya/banijya_workflow_analysis.py:33-59 | No `Working_Status` belongs to two categories. |
| Banijya.ApplicationOf | banijya/banijya_workflow_analysis.py:78-137 | One track code's record: the summary of its rows, the latest row's `Working_Status`, the highest `Working_Order` and the file's entity and application type. |
| Banijya.AnalyzeApplication | banijya/banijya_workflow_analysis.py:78-137 | One track code's body returns exactly `ApplicationOf`. |
| Banijya.AnalyzeFile | banijya/banijya_workflow_analysis.py:61-140 | Returns the applications of every track code, tagged with the parsed file name. |
| Banijya.AnalyzeTrackCodes | banijya/banijya_workflow_analysis.py:75-140 | The track-code loop returns exactly `ApplicationsOf`. |
| Banijya.ApplicationsAt | banijya/banijya_workflow_analysis.py:77-137 | One application per code, the `i`-th that of the `i`-th code. |
| Banijya.AnalyzeFileApplications | banijya/banijya_workflow_analysis.py:77-137 | Every track code of the file yields one application, built from its time-ordered rows. |
| Banijya.ApplicationFacts | banijya/banijya_workflow_analysis.py:78-137 | The summary is that of its rows. The final status is the latest row's. `max_order` is the highest order reached. Entity and type come from the file. |
| Banijya.StatusSubset | banijya/banijya_workflow_analysis.py:285-298 | Selected applications have the entity, type and a final status of the category. |
| Banijya.StatusSubsetComplete | banijya/banijya_workflow_analysis.py:285-298 | Every matching application is selected. |
| Banijya.StatusSubsetsDisjoint | banijya/banijya_workflow_analysis.py:294-298 | An application is in at most one category's subset. |
| Banijya.SummariesOf | banijya/banijya_transitions_analysis.py:311-319 | The subset's summaries, in order, as the aggregation reads them. |
| Banijya.MaxOrders | banijya/banijya_workflow_analysis.py:314 | The subset's `max_order` values, in order. |
| Banijya.SubsetDistribution | banijya/banijya_workflow_analysis.py:314-315 | The authority chart of a non-empty subset counts every application exactly once, at its highest order. |

## Left out

- Reading CSV and Excel files, date parsing, console output, chart drawing and saving images are not modelled. Rows are taken as already parsed, with unparseable dates dropped.
- Floating-point rounding is not modelled. Days and percentages are exact reals, so identities such as "adds up to 100" hold exactly here, and only up to rounding in the scripts.
- `sort_values` is not modelled; time order is a precondition (`TableOrdered`, `AppsOrdered`). The sort is not stable, so rows with equal timestamps may come in any order in the scripts; the model takes table order.
- WorkflowBinCharts.CalculateApplicationData: requires the table in time order, which the scripts obtain by sorting each application's rows.
- WorkflowByStatus.CalculateApplicationDataByStatus: requires the table in time order, as above.
- WorkflowIntegrated.CalculateApplicationDataByStatus: requires the table in time order, as above.
- WorkflowByStatus.FilterByFinalStatus: requires every id to have rows, which holds for ids from `unique()` (its only caller shows this with `IdsHaveRows`).
- WorkflowIntegrated.FilterByAuthStatus: requires every id to have rows, as above.
- Banijya.AnalyzeFileApplications: requires each application's rows in time order instead of sorting them.
- NaN levels (`auth_level`, `Working_Order`) are not modelled. Levels are integers, so the `pd.notna(max_level)` guards always pass and banijya's `else 0` fallback for `max_order` never applies.
- The formatted key strings (`L1→L3`, `O2←O1`) are a datatype (from, direction, to); the `L`/`O` prefix and the formatting are left out.
- Application ids and track codes are integers.
- A missing status cell is a string that equals no category constant, matching NaN's comparisons. Missing dates are `None`.
- `calculate_distribution` also writes a `time_bin` column into the caller's frame; nothing reads it afterwards, so it is left out.
- `pd.cut` on a finite value and `value_counts().sort_index()` are functions of the time list; a missing time falls into no period.
- The plotting helpers' own statistics (`np.median`, `np.mean` of levels, bar labels, colours, the transition breakdown drawing) are presentation and not modelled.
- The main loops over processes, categories, entity and application types only call the modelled operations and print or save charts; they are not modelled as loops.
