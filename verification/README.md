# Verified models of agent-utils' measurement and checking tools

These modules model the parts of the repository that decide something about a
run: whether steps and workers stayed within their limits, whether a cgroup kept
to its CPU quota, whether a set of timing records is complete, whether an issue
number collides, and how the harness's own fixtures behave. Each model follows
the branches, error cases and constants of the code it cites; the theorems say
what the outcome means, for every input or every run. `dafny verify
dfyconfig.toml` checks all of it.

## The parts

**CPU-footprint analysis** (`Events`, `Lifetimes`, `LifetimeLaws`, `LiveSets`,
`LifetimeSpans`, `Sweep`, `CpuShares`, `Footprint`, `FootprintLaws`, `Labels`). A
log is a sequence of records any of whose fields may be absent. Records are
sorted by time, starts and ends are matched into half-open lifetimes, a sweep
line finds the peak overlap, lifetimes are marked in wall-clock buckets and
cumulative CPU readings are spread over them. The central result,
`FootprintLaws.VerdictIsExact`, reads the verdict off the fields of the raw
records: ok exactly when every start and end record is complete, every
identity's records alternate and close, and at every instant no more identities
are live than the limits allow.

**Quota check** (`Bandwidth`, `BandwidthLaws`, `QuotaConsumers`). Every pair of
`cpu.stat` readings a long window apart is judged against
`Q * (ceil(W / P) + 1) + burst + slack`. The scan is exact, never accuses a
consumer that `cpu.max` and `cpu.max.burst` permit (the "CPU Interface Files"
section of the Linux cgroup v2 documentation), and its bound cannot be lowered.

**Guests and their barrier** (`Guest`, `BarrierLaws`, `BarrierDeadlines`,
`GuestLaws`, `WorkerLaws`, `WorkerLogs`, `Reaping`, `GuestFootprint`,
`LateJoiners`). Any number of processes, in any interleaving, append an identity,
count identities, take a lock with `mkdir`, publish an epoch with
write-then-rename, read it, fork workers and log. The clock never goes back;
processes time out, misread files, fail, and die at any point. Waiting for the
workers is one step; `Reaping.PollingIsWaiting` shows that the polling loop
amounts to it. `write()` with `O_APPEND`, `mkdir()` and `rename()` are atomic, as
in the System Interfaces volume of POSIX.1-2017. The joint theorems analyse the
log these processes write.

**Checkers** (`CaseTimings`, `IssueNumbers`), **harness state and walks**
(`ProcessTree`, `RecoveryFixture`, `FixtureLaws`, `EnvironmentRule`), and shared
sequence, sorting, string-order and arithmetic definitions (`Sequences`,
`Sorting`, `Ordering`, `Arithmetic`).

## Where a promise needs a condition

- Timestamp 0 sorts like -1 (`monotonic_ns or -1`), so a log holding both stamps
  may not be sorted by time and an interval can run backwards
  (`LifetimeLaws.NegativeHappens`). `Events.OrderableIff` shows that every
  interleaving of a log sorts into time order exactly when it does not hold both,
  and `LifetimeLaws.NegativeNeedsSplitZero` which records it takes.
  Theorems that depend on time order assume `Orderable`, nothing stronger.
- A group of steps that succeed is reported as overlapping if each had begun by
  the release epoch (`GuestFootprint.ReleasedStepsOverlap`). That every run gives
  this for every group of successful steps holds exactly when no process is told
  to expect fewer participants than there are processes
  (`LateJoiners.OverlapIff`); otherwise some run has two released, successful
  steps and a reported peak of one (`LateJoiners.StepsApart`,
  `LateJoiners.ApartPeak`).
- The window scan looks at each pair once, in sorted order. It examines every long
  window, one from a reading to itself included, exactly when there is none of
  that last kind: no read ends a whole minimum window before it starts
  (`BandwidthLaws.EachWindowOnce`); `BandwidthLaws.UntimedReadIsMissed` is a pair
  missed without that.
- Applying the environment rule twice is one application exactly when each name
  the first changes leave set is non-empty and holds no `=`
  (`EnvironmentRule.CompositionIff`).
- The process-tree walk keeps no visited set. It ends exactly when the root is
  not its own ancestor (`ProcessTree.WalkEndsIff`).
- The issue-number guard protects the main it was checked against. If another
  change lands first (`IssueNumbers.StaleCheckCollides`), the check still suffices
  exactly when the two changes file no number under different slugs
  (`IssueNumbers.StaleCheckIff`).

## Model

| member | source | states |
|---|---|---|
| Sorting.SortFilters | cross/cpu_footprint_analysis.py:186 | stability: sorting a log and keeping some records equals keeping them and sorting |
| Events.OrderableIff | cross/cpu_footprint_analysis.py:186 | every rearrangement of the log sorts into the order of its stamps exactly when stamps 0 and -1 do not both occur |
| Lifetimes.CompletedIntervals | cross/cpu_footprint_analysis.py:180-220 | the loop with its dictionary of open starts returns the matcher's lifetimes and its issues, unclosed starts included |
| Lifetimes.RunProjects | cross/cpu_footprint_analysis.py:187-216 | what the matcher says of one identity is what it says of that identity's records alone |
| LifetimeLaws.InterleavingIndependence | cross/cpu_footprint_analysis.py:154-220 | logs that differ only in how writers interleaved give the same bag of lifetimes and the same bag of issues |
| LifetimeLaws.EventsAreConserved | cross/cpu_footprint_analysis.py:187-219 | starts = duplicates + lifetimes + negatives + unclosed, ends = orphans + lifetimes + negatives, for every log |
| LifetimeLaws.LifetimesAreSequential | cross/cpu_footprint_analysis.py:210-216 | no lifetime runs backwards, none is reported negative, and lifetimes of one identity are pairwise disjoint |
| LifetimeLaws.NegativeNeedsSplitZero | cross/cpu_footprint_analysis.py:213-214 | for every log, a negative interval needs a start stamped 0 and an end stamped -1 of that identity |
| LifetimeLaws.NegativeHappens | cross/cpu_footprint_analysis.py:186-214 | a log on which the negative branch is taken |
| LiveSets.TraceBrackets | cross/cpu_footprint_analysis.py:204-216 | one identity's records in time order raise no issue exactly when they alternate, and leave a lifetime open exactly when their number is odd |
| LiveSets.ReadIs | cross/cpu_footprint_analysis.py:187-203 | a record is read as a start or end of an identity exactly when its kind, step, worker, pid and stamp say so, and as malformed exactly when one it needs is absent |
| LiveSets.NoIssuesIffBracketed | cross/cpu_footprint_analysis.py:180-220 | no issue exactly when, by the records' own fields, every start and end is complete and every identity's records alternate and close |
| LiveSets.LiveIffInterval | cross/cpu_footprint_analysis.py:180-220 | by counts of raw start and end records an identity is live at t exactly when one of its lifetimes contains t |
| LiveSets.LiveCount | cross/cpu_footprint_analysis.py:180-237 | the lifetimes containing t are as many as the identities live at t in the raw log |
| LifetimeSpans.LifetimesAreSpans | cross/cpu_footprint_analysis.py:187-216 | in any log an identity lives from a to b exactly when, in time order, a run of its starts, the first at a, is followed by an end at b: a repeated start leaves the first in force |
| LifetimeSpans.FaultsAreIssues | cross/cpu_footprint_analysis.py:204-219 | in any log each kind of issue about an identity is raised exactly when its records in time order show that fault |
| Sweep.MaxOverlap | cross/cpu_footprint_analysis.py:223-237 | the peak is the largest number of lifetimes with start <= t < end over all instants t, and some instant attains it |
| Sweep.RunningCount | cross/cpu_footprint_analysis.py:231-236 | the running count never goes negative and never exceeds the lifetimes live at some instant |
| Sweep.HeightIsLiveCount | cross/cpu_footprint_analysis.py:225-236 | sweeping past every boundary at t leaves exactly the lifetimes containing t, so touching lifetimes do not overlap |
| CpuShares.SpreadPair | cross/cpu_footprint_analysis.py:308-322 | in place, adds to every bucket exactly the pair's interpolated share of it, including buckets the index range skips |
| CpuShares.SpreadWorker | cross/cpu_footprint_analysis.py:306-322 | in place, adds the shares of all consecutive pairs of one worker |
| CpuShares.SpreadAll | cross/cpu_footprint_analysis.py:306-322 | in place, adds the shares of all workers |
| CpuShares.ShareIsProportional | cross/cpu_footprint_analysis.py:316-322 | a share is never negative and within one nanosecond of the exact proportional share |
| CpuShares.SharesTelescope | cross/cpu_footprint_analysis.py:313-322 | the shares of the first n buckets sum to the interpolated delta of the part of the pair inside them |
| CpuShares.PairIsConserved | cross/cpu_footprint_analysis.py:303-322 | the shares of a pair inside the grid sum to exactly its CPU delta |
| CpuShares.CpuIsConserved | cross/cpu_footprint_analysis.py:303-322 | over all workers the buckets hold exactly the CPU of the clipped pairs |
| CpuShares.PairsAreConserved | cross/cpu_footprint_analysis.py:303-322 | when the samples lie inside the grid the bucket totals sum to exactly the CPU deltas of the accepted pairs |
| CpuShares.CountersAreConserved | cross/cpu_footprint_analysis.py:303-322 | when cumulative counters are read inside the grid the bucket totals sum to exactly what the counters advanced by |
| Footprint.GridIsTight | cross/cpu_footprint_analysis.py:261-264 | the grid starts on the aligned stretch that holds the first start, reaches the last end and has no bucket more than that needs |
| Footprint.GridCovers | cross/cpu_footprint_analysis.py:261-279 | every bucket a lifetime overlaps is inside the grid: the clamp to the bucket count loses none |
| Footprint.OverlapInRange | cross/cpu_footprint_analysis.py:277-281 | an overlapped bucket lies in the computed index range, zero-length and edge-ending lifetimes included |
| Footprint.MarkLive | cross/cpu_footprint_analysis.py:273-282 | in place, each bucket's set becomes exactly the identities with a lifetime overlapping it |
| Footprint.GroupSamples | cross/cpu_footprint_analysis.py:284-307 | the loop with its dictionary returns the sorted readings of each worker |
| FootprintLaws.SampleListsAreReadings | cross/cpu_footprint_analysis.py:284-307 | one ascending list for each worker with a reading, holding each reading as often as the log's start, sample and end records carry it |
| Footprint.Analyze | cross/cpu_footprint_analysis.py:244-344 | the lifetimes, issues, exact peaks and buckets, or the two errors in exactly their cases, with the bucket count that was too large |
| FootprintLaws.VerdictIsExact | cross/cpu_footprint_analysis.py:347-361 | ok exactly when, by the records' own fields, the log is complete, bracketed and within the limits at every instant |
| FootprintLaws.ViolationsAreNamed | cross/cpu_footprint_analysis.py:347-361 | the violations are exactly the issues and each peak above its limit, with that peak and limit |
| FootprintLaws.VerdictIgnoresInterleaving | cross/cpu_footprint_analysis.py:339-361 | peaks, issues and verdict depend neither on how the log interleaved nor on the bucket width |
| FootprintLaws.PeaksFitBuckets | cross/cpu_footprint_analysis.py:273-340 | some single bucket shows at least as many live identities as the exact peak |
| FootprintLaws.BucketsShowOverlaps | cross/cpu_footprint_analysis.py:261-282 | an identity is shown in a bucket exactly when one of its lifetimes overlaps that stretch of time |
| FootprintLaws.BucketsConserveCpu | cross/cpu_footprint_analysis.py:284-334 | the buckets' CPU adds up to the CPU of the clipped sample pairs |
| FootprintLaws.BucketsHoldAcceptedCpu | cross/cpu_footprint_analysis.py:284-334 | with every reading inside the grid the buckets' CPU adds up to the accepted pairs of each worker's consecutive readings, as the log's records carry them |
| Labels.LabelInjective | cross/cpu_footprint_analysis.py:31-32 | identities of one kind with equal labels are equal, whatever characters step names hold |
| Labels.DigitsRead | cross/cpu_footprint_analysis.py:31-32 | numbers are printed as their decimal digits, without leading zeros |
| Bandwidth.ScanSeries | cross/cpu_footprint_analysis.py:457-486 | the nested loops examine and report exactly the long windows of the sorted series that break the bound |
| Bandwidth.CollectConfigs | cross/cpu_footprint_analysis.py:409-430 | the recorded quotas, by group and process and by group |
| Bandwidth.CollectSeries | cross/cpu_footprint_analysis.py:432-445 | the readings of each group and process, malformed ones dropped |
| Bandwidth.CheckBandwidth | cross/cpu_footprint_analysis.py:389-503 | the number of windows, the violations and the verdict over all series, or each of the two errors in exactly its case |
| BandwidthLaws.QuotaIsLatest | cross/cpu_footprint_analysis.py:417-430 | the quotas kept are those of the last record whose own fields give the process, or the group, a bounded quota |
| BandwidthLaws.QuotaIsJudged | cross/cpu_footprint_analysis.py:409-453 | a series is judged by quota q exactly when q is its own process's last, or, if that recorded none, the group's last, with quota, period and burst as recorded |
| BandwidthLaws.SeriesIsRecorded | cross/cpu_footprint_analysis.py:432-445 | a series holds each reading as often as the log has a complete record of it |
| BandwidthLaws.SeriesAreListed | cross/cpu_footprint_analysis.py:432-452 | the series checked are those with a reading, each once, by path and then pid |
| BandwidthLaws.EachWindowOnce | cross/cpu_footprint_analysis.py:461-467 | each pair of readings a long window apart is examined exactly once, whatever order the log lists them in, exactly when no reading is a long window apart from itself |
| BandwidthLaws.UntimedReadIsMissed | cross/cpu_footprint_analysis.py:461-466 | a separated pair that goes unexamined when a read ends a whole window before it starts |
| BandwidthLaws.SomeWindowExamined | cross/cpu_footprint_analysis.py:461-467 | a series is examined at all exactly when two of its readings are a long window apart |
| BandwidthLaws.BadWindowReported | cross/cpu_footprint_analysis.py:468-486 | a series is reported exactly when a long window of it goes backwards or over the bound |
| BandwidthLaws.ReportIsExact | cross/cpu_footprint_analysis.py:461-486 | as a bag, the report holds each violation as often as the log holds a pair of readings that earns it, whatever order it lists them in |
| BandwidthLaws.VerdictIsExact | cross/cpu_footprint_analysis.py:488-503 | over the log's own records: ok exactly when some series with a quota has a long window and no long window of any series breaks its bound, if no reading is a long window apart from itself |
| BandwidthLaws.ReportedIffEarned | cross/cpu_footprint_analysis.py:447-486 | a violation is reported exactly when two recorded readings and the quota they are judged by earn it, with that window, use and allowance |
| QuotaConsumers.TokenBucket | cross/cpu_footprint_analysis.py:397-401 | over any run of periods the grants are at most the quotas plus what the carried tokens gave up |
| QuotaConsumers.PeriodsTouched | cross/cpu_footprint_analysis.py:385-400 | a window of length w meets at most ceil(w/p)+1 periods, for any phase |
| QuotaConsumers.LegalPairPasses | cross/cpu_footprint_analysis.py:465-486 | two readings of a legal consumer never go backwards and never exceed the allowance |
| QuotaConsumers.NoFalseAlarm | cross/cpu_footprint_analysis.py:447-503 | consumers that the quotas in the log's records permit, read at any instants inside the recorded windows, yield no violation |
| QuotaConsumers.CounterNeverBackwards | cross/cpu_footprint_analysis.py:461-474 | a series read from any counter that only grows is never reported as going backwards, whatever the other series hold |
| QuotaConsumers.BoundIsTight | cross/cpu_footprint_analysis.py:475-479 | for every quota, slack and whole number of periods some legal consumer uses exactly what is allowed |
| BarrierLaws.InvStep | cross/cpu_footprint_guest.py:191-246 | every step of every process keeps the barrier's invariant |
| BarrierLaws.BarrierIsSafe | cross/cpu_footprint_guest.py:191-246 | in every reachable state at most one publication; everyone who returned has its epoch; the winner had seen its participants, each arrived at least its delay before the epoch, which is at most that delay ahead of the clock |
| BarrierLaws.DeadWinnerShutsBarrier | cross/cpu_footprint_guest.py:227-246 | if the lock winner fails or dies before publishing, nobody ever gets an epoch, however the run continues |
| BarrierDeadlines.DeadlineDecides | cross/cpu_footprint_guest.py:206-246 | in every reachable state a process at the top of its loop goes on exactly when its deadline is ahead and fails exactly when it has come |
| BarrierDeadlines.EpochInTime | cross/cpu_footprint_guest.py:205-222 | in every run whoever got an epoch looked at the clock before the deadline it set, its timeout ahead, when it began to wait |
| BarrierDeadlines.FailureHasCause | cross/cpu_footprint_guest.py:206-246 | in every run a barrier fails only by a deadline met at the top of the loop or by an error: misread files never make it fail |
| BarrierDeadlines.LateNeverReleased | cross/cpu_footprint_guest.py:206-246 | a process whose deadline has come while it waits never gets an epoch, however the run continues, and can only end without success |
| BarrierDeadlines.LateEnds | cross/cpu_footprint_guest.py:244-362 | left to itself it ends with failure and its start and end are in the log |
| GuestLaws.GuestStep | cross/cpu_footprint_guest.py:257-401 | every step keeps what each process has logged, when it began and how late its workers end |
| GuestLaws.ReapedLate | cross/cpu_footprint_guest.py:257-277 | once all of a step's workers have succeeded the duration has passed since the release |
| WorkerLaws.VerdictIsHonest | cross/cpu_footprint_guest.py:363-401 | a process ends with success exactly when it got an epoch and every worker it was told to run was forked and exited with 0 |
| WorkerLogs.WorkerHasOneLifetime | cross/cpu_footprint_guest.py:249-277 | a worker that exited with 0 has exactly one lifetime in any log that holds its records, from no earlier than the release and at least its duration long |
| Reaping.Reaper.ReapNonblocking | cross/cpu_footprint_guest.py:288-299 | in place, one pass drops every remaining child that has ended and keeps its code, 70 for one that is no child any more |
| Reaping.ReapedOne | cross/cpu_footprint_guest.py:289-299 | asking one more child changes the tally by that child's answer alone, so the order of the pass does not matter |
| Reaping.PassIsExact | cross/cpu_footprint_guest.py:288-299 | a pass keeps a running child, gives an ended one its code and one that is no child any more 70 |
| Reaping.PollingIsWaiting | cross/cpu_footprint_guest.py:385-396 | whenever the polls happen in a run, no child remains exactly when every worker has exited, and the statuses then give the verdict of waiting in one step |
| GuestFootprint.EndsAfterRelease | cross/cpu_footprint_guest.py:323-401 | a step that succeeded ended after the release epoch, whoever else joined |
| GuestFootprint.ReleasedStepsOverlap | cross/cpu_footprint_guest.py:181-401 | any group of k successful steps that had begun by the release epoch gives max_live_steps >= k for any interleaving of their logs, whatever other processes did |
| GuestFootprint.SuccessfulStepsOverlap | cross/cpu_footprint_guest.py:181-401 | any group of k released, successful steps gives max_live_steps >= k when no process expects fewer participants than there are |
| GuestFootprint.AllStepsOverlapExactly | cross/cpu_footprint_guest.py:181-401 | when all processes begin by the release and succeed the reported peak is exactly their number |
| LateJoiners.StepsApart | cross/cpu_footprint_guest.py:204-401 | if a process expects fewer participants than there are, some run has it succeed before another process begins, which then gets the old epoch and succeeds too |
| LateJoiners.ApartPeak | cross/cpu_footprint_analysis.py:223-237 | two steps that succeed one after the other give a peak of exactly one |
| LateJoiners.OverlapIff | cross/cpu_footprint_guest.py:181-401 | in every run every group of successful steps is within the reported peak, exactly when no process expects fewer participants than there are |
| LateJoiners.EpochCoversAllIff | cross/cpu_footprint_guest.py:204-246 | in every run every returned process had begun by the epoch, exactly when no process expects fewer participants than there are |
| CaseTimings.CheckRun | scripts/case_timings.py:565-576 | no problem exactly when the cases enumerate the inventory without repeats; every kind of problem is reported exactly where the record shows it |
| CaseTimings.AddRun | scripts/case_timings.py:563-589 | a record's cases are each counted once or reported as duplicates, a nested record adds nothing, and the problems are exactly its own and its repeats of earlier primary cases |
| CaseTimings.VerifyRuns | scripts/case_timings.py:550-592 | no problem exactly when every record is exact and no primary key repeats; each problem is reported exactly when some record shows it; primary count plus duplicates is all non-nested cases; the result ascends by runner, gate and case; the gates missing are exactly those reported |
| CaseTimings.FirstsAreFirst | scripts/case_timings.py:581-589 | a case is in the aggregate exactly when no earlier primary case has its runner, gate and id |
| CaseTimings.FirstsKeys | scripts/case_timings.py:581-589 | the aggregate has exactly the keys of the primary cases |
| IssueNumbers.GroupByNumber | scripts/check_issue_numbers.py:71-76 | the filings of each number are exactly the changed issue files with that number, each once |
| IssueNumbers.CheckNumber | scripts/check_issue_numbers.py:77-91 | no hit exactly when the filings share one slug, the target's if it has the number; every mismatch is reported, and a double filing exactly when two slugs differ |
| IssueNumbers.Violations | scripts/check_issue_numbers.py:59-92 | no hit exactly when the change collides with nothing; each hit is earned; every colliding file is reported with the target's filing and every number with two slugs with all its files |
| IssueNumbers.BaseIssueFiles | scripts/check_issue_numbers.py:121-162 | each wanted number of the target is mapped to the last listed file that holds it and that file's slug |
| IssueNumbers.GuardIsExact | scripts/check_issue_numbers.py:59-92 | against a consistent main a change passes exactly when main stays consistent and no owned number changes its slug |
| IssueNumbers.AlwaysConsistent | scripts/check_issue_numbers.py:2-18 | along every sequence of checked landings all files of one number share one slug |
| IssueNumbers.OwnedNumberKeepsSlug | scripts/check_issue_numbers.py:2-18 | a number that stays owned along the landings keeps its slug |
| IssueNumbers.StaleCheckCollides | scripts/check_issue_numbers.py:4-8 | two filings that each pass against an old main collide when both land |
| IssueNumbers.StaleCheckIff | scripts/check_issue_numbers.py:2-18 | two changes each accepted against one main both land safely exactly when they file no number under different slugs |
| ProcessTree.ListChildren | cross/herdr_agent_differential.py:60-62 | each process's children are listed, each once |
| ProcessTree.TreeTicks | cross/herdr_agent_differential.py:58-69 | the total is the ticks of the processes whose parent chain reaches the root, each counted once; none exactly when the root is gone |
| ProcessTree.WalkEndsIff | cross/herdr_agent_differential.py:63-68 | the stack empties exactly when the root is not its own ancestor |
| RecoveryFixture.Fixture.Create | cross/herdr_agent_differential.py:343-352 | the saved state and reply of a tab creation |
| RecoveryFixture.Fixture.Start | cross/herdr_agent_differential.py:353-370 | the saved state and reply of a launch: missing pane, refused extra launch, or the next planned process |
| RecoveryFixture.Fixture.ReadPane | cross/herdr_agent_differential.py:396-407 | the saved state and reply of a read, with its one injected interruption |
| RecoveryFixture.Fixture.ClosePane | cross/herdr_agent_differential.py:408-415 | the saved state and reply of closing a pane, with its one injected interruption |
| RecoveryFixture.Fixture.CloseTab | cross/herdr_agent_differential.py:416-421 | the saved state and reply of closing a tab |
| RecoveryFixture.Fixture.RenameTab | cross/herdr_agent_differential.py:424-428 | the saved state and reply of renaming a tab |
| RecoveryFixture.Fixture.RenameAgent | cross/herdr_agent_differential.py:429-430 | the saved state and reply of renaming an agent |
| RecoveryFixture.Fixture.Report | cross/herdr_agent_differential.py:435-436 | the saved state and reply of a session report, on an empty shell too |
| RecoveryFixture.Fixture.GetTab | cross/herdr_agent_differential.py:380-389 | a tab lookup changes nothing and finds the one live pane that shows the tab, or reports it missing |
| FixtureLaws.IdsAreNeverReused | cross/herdr_agent_differential.py:343-352 | panes keep their tab and terminal over any calls, and a new tab's pane, tab and terminal ids are ones no pane has or ever had |
| FixtureLaws.TabLookupIsExact | cross/herdr_agent_differential.py:380-389 | after any calls a lookup finds a pane exactly when it is live and shows the tab |
| FixtureLaws.ClosedOnce | cross/herdr_agent_differential.py:408-421 | after any calls a closed pane stays closed and is recorded exactly once, an open one not at all |
| FixtureLaws.LaunchesFollowPlan | cross/herdr_agent_differential.py:353-370 | after any calls the launch count is the recorded launches, within the plan; a pane holds the process planned for its last launch, and no two panes that of one launch |
| FixtureLaws.SessionIs | cross/herdr_agent_differential.py:359-364 | a launch asks for what follows the first occurrence of the first selector present, or for session-1 |
| FixtureLaws.SessionFollows | cross/herdr_agent_differential.py:353-436 | a pane's session changes only by a launch in it or a report on it |
| FixtureLaws.FirstTab | cross/herdr_agent_differential.py:343-352 | the first tab is pane w1:p1, tab w1:t1 and terminal term-1 |
| EnvironmentRule.ByTheRule | cross/herdr_differential.py:540-559 | the loops compute the rule: first entries, then changes, then name, `=` and value |
| EnvironmentRule.ParseHolds | cross/herdr_differential.py:549-553 | after the entries a name holds v exactly when it is non-empty without `=` and the first entry that starts with it and `=` goes on with v |
| EnvironmentRule.UnusableIgnored | cross/herdr_differential.py:551-552 | leaving out every entry without `=` or without a name changes nothing |
| EnvironmentRule.NameHolds | cross/herdr_differential.py:545-558 | a name holds v exactly when its last change sets it to v, or no change names it, it is non-empty without `=`, and the first entry that starts with it and `=` goes on with v |
| EnvironmentRule.UniqueKept | cross/herdr_differential.py:549-558 | no name appears twice in the result |
| EnvironmentRule.PutKeepsPlaces | cross/herdr_differential.py:557-558 | a replaced name keeps its place and a new one goes to the end |
| EnvironmentRule.UnchangedKeepOrder | cross/herdr_differential.py:545-558 | variables no change names survive with their values in their order |
| EnvironmentRule.ParseRender | cross/herdr_differential.py:551-559 | rendering and reading back gives the same environment when every name is valid |
| EnvironmentRule.CompositionIff | cross/herdr_differential.py:540-559 | two applications equal one with both lists, for every second list, exactly when each name the first leaves set is non-empty and holds no `=` |

## Left out

- Files, JSON, `/proc`, `/sys`, signals, subprocess control and command lines: the models start from the parsed values.
- Message texts: problems, issues and violations carry their data, not their wording.
- Lifetimes.CompletedIntervals: the trailing unclosed-start issues are stated as a bag, because the order is that of the identities' printed form.
- Footprint.Analyze: does not state `sampled_cpus` and `sampled_cpu_union`, because they are descriptive fields that no verdict reads; the same goes for the sorting of `step_intervals` and `worker_intervals` for output.
- `quota_cores`, `max_observed_cores` and `reasons` of the bandwidth check: floating-point and text that do not affect `ok`.
- Bandwidth.ParseQuota: `cpu.max` and its burst are taken as integers, because splitting and integer parsing of the text is not modelled.
- The guest without a barrier file, and its cgroup sampling: sampling and sample records appear only as log records of other kinds.
- The polling sleeps: time passes between any two steps.
- The pids a process's workers get are fixed beforehand, and `WorkerLogs.WorkerHasOneLifetime` assumes that no two workers share step, number and pid.
- Barrier identities are pairs of step and pid, which agrees with counting distinct lines of the file for step names without line breaks.
- IssueNumbers.Violations: hits are produced in no particular order, because the sorted order only affects the printout; the number in a file name is an arbitrary function of the path, so the regular expression is not modelled.
- `slug_of`, the git commands and ref resolution of the issue guard.
- Loading of timing records (JSON, JUnit, TAP, Playwright), size bounds and rendering; `CaseTimings` starts from loaded records.
- Fixture calls that only print, record input or change focus; the arguments of the modelled calls are already split.
- The black-box differential cases of `cross/agentctl_differential.py`, `cross/agentctl_nested_records.py` and most of `cross/herdr_differential.py`: they exercise programs whose logic is elsewhere.
- The other checks under `scripts/`: regular expressions, tool probing and simple conjunctions.
