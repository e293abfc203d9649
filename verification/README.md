# Verification of the MTProto orchestrator's core

A Dafny model of the parts of the orchestrator in which several steps, several components or
several runs have to agree: traffic accounting and quotas, the bridge mode machine, the
configuration that converges (reconcile and the web root), and two small protocols of the
login path. Every file, service, socket and database call of the Go program becomes abstract
state plus a schedule of failures; all results hold for every such schedule unless the row says
otherwise. Verify with `dafny verify dfyconfig.toml`.

How the source's form is kept: `UserRepo`, the quota service, the sampler's store function,
the retainer, the bridge service, the panel handlers, the web-root applier, the reconcile run,
the recovery-code consumer and the rate limiter are classes whose methods update fields or
methods with loops, each tied by its `ensures` to a function or predicate of the state; what the
source promises is proved about those as lemmas over all inputs, or all runs. The text patcher,
the renderer, the mode detector and the calendar arithmetic are functions.

| file | contents |
|---|---|
| `GoArithmetic`, `Calendar`, `QuotaPeriod` | truncating remainders, 64-bit wrap-around, the Gregorian calendar (RFC 3339 section 5.7 and Appendix C), periods |
| `Traffic`, `TrafficTotals`, `Retention`, `TrafficHistory`, `ScrapeLog`, `Charts`, `ChartHistory` | counters to deltas, the daily index, folding samples into hours, histories of both together, the record told from the scrapes alone, chart buckets and what they show of a history |
| `Users`, `PanelModel`, `PanelServer`, `QuotaUsage`, `UserOutcomes` | rows of the users table, the live proxy, quota ticks and user handlers, and what each of them leaves column by column |
| `Nodes`, `BridgeService`, `BridgePanel`, `BridgeDocument` | node list, rotation, sing-box document, Enable and Disable, the handlers, and where the document's entries connect |
| `Text`, `Numbers`, `Teleproxy`, `TeleproxyReader`, `ReloadMode` | decimal numbers, rendering and detection, a reader that goes by quotes and keys, the mode across reloads |
| `Lines`, `NginxMainConf`, `NginxDirectives`, `Reconcile`, `ReconciledHost`, `WebRoot` | the nginx.conf patch and the grammar of its lines, reconcile and what it leaves on disk, the template applier |
| `RateLimiter`, `RecoveryCodes` | the login limiter, one-shot codes under the writer lock |

## What the proofs found

Where the code and its comments or the obvious claim disagree, the model follows the code, and
the exact condition is proved.

- Retention conserves bytes only for hour-aligned cutoffs; `Retainer.Run` subtracts whole days
  from the current second, so an ordinary cycle splits an hour and the next one replaces the
  first part of its row (`CycleConservesIff`, `TwoRunsLoseBytes`). After a failed delete the
  retired samples count twice until the next cycle (`HalfCycleCountsTwice`).
- A run of reconcile that writes `teleproxy.toml` and then fails before the restart is never made
  up for: later runs find the file unchanged and leave the proxy on its old configuration
  (`LostRestart`, `StaleForever`, `ProxyIsLiveIff`).
- `DetectMode` misreads a Single configuration exactly when a field ends in `socks5 = `, which the
  precondition documented for `Render` (no quotes, no newlines) allows (`DetectModeOfRender`,
  `DocumentedPreconditionIsTooWeak`); then, and only then, reconcile is not a fixpoint
  (`FixpointIff`).
- Changed units of the proxy and of sing-box are written by reconcile and restart nothing
  (`ChangedUnitsRestartNothing`).
- A user handler whose reload fails at the signal restores the table but not the files:
  `teleproxy.toml` keeps the change that was taken back and nothing is pending
  (`RolledBackFileAgreesIff`, `ToggleLeavesFileBehind`). The proxy's unit restarts it on failure;
  it then loads that file (`RestartAfterRollbackIff`).
- The sing-box unit restarts it on failure as well. What a handler stores while sing-box is down is
  not rendered, and the restart brings back the configuration from before. It shows for every
  toggle, for the deletion of an enabled node, for an edit of an enabled node that renders
  differently, and for another strategy unless both are written as a selector
  (`CrashToggleRestart`, `ToggleWhileDownShows`, `DeleteWhileDownIff`, `EditWhileDownIff`,
  `StrategyWhileDownIff`).
- No handler restarts a running sing-box after it has written `sing-box.json`, and sing-box reads
  the file only when it starts: an added or toggled node takes effect at its next start, and
  until then every such handler leaves the running configuration behind the file
  (`BridgePanel.AddToRunning`, `OtherNumberOtherDocument`, `HandleBridgeEditNode`).
- A reload is said to preserve Bridge mode while sing-box is active, but it takes the mode from the
  `teleproxy.toml` it overwrites: one write cut off before the upstream makes every later reload
  render Single, whatever sing-box does (`BridgeIsKeptIff`).
- The 30-day chart of settled tables is exact from the first hour boundary of its window on; up to
  an hour is missing at its left edge (`LongChartIsExact`).
- `Create` documents that a label must be free among the users that are not deleted, but the
  UNIQUE constraint counts deleted rows: the rule fails exactly for labels of deleted rows, and a
  label is refused for good once a row had it, also when its creation was rolled back
  (`DocumentedLabelRuleFailsIff`, `UsedLabelIsNeverFree`, `RolledBackCreationUsesLabelUp`).
- A failed `COMMIT` still reports the code as matched and both callers drop the error, so codes
  are one-shot if and only if no accepted request's COMMIT failed (`CodesAreOneShot`,
  `FailedCommitsAcceptTwice`).
- A rolled-back `Disable` starts sing-box again but leaves it disabled at boot; a failing stop or
  disable is not rolled back at all (`BridgeService.Host.Disable`).
- `SetQuota` lifts a suspension only when the quota is lifted or the period starts over: a user
  suspended for being over quota stays suspended when the quota is merely raised (`QuotaIsStored`).
- The limit of sixteen active users holds for creations alone: with sixteen of them, enabling a
  disabled user makes seventeen (`CreationKeepsLimit`, `ToggleExceedsLimitIff`).
- The limiter admits at most eight failures in any five minutes, not nine, and eight is reached
  (`AtMostEightPerWindow`, `EightIsReached`).
- A quota near the largest 64-bit value overflows the warning threshold; the warning then comes
  too early, never too late, and for some quotas before the first byte (`ThresholdExactIff`,
  `WarnsAtOnceIff`).
- `Recalculate` never lifts a suspension, so its `quota_unsuspend` branch is dead
  (`RecalculateEscalates`); monthly periods are not anchored to their first day
  (`MonthlyPeriodsAreNotAnchored`).

## Model

| member | source | states |
|---|---|---|
| `Calendar.CivilRoundTrip` | internal/quota/quota.go:115-127 | Year and month search and day number invert each other on every date from 1970 on: the calendar that `time.Date` and `t.Date` are used as |
| `Calendar.DayNumberInjective` | internal/quota/quota.go:115-127 | Different dates are different days |
| `Calendar.LeapRuleClosedForm` | internal/quota/quota.go:115-127 | Counting years one by one agrees with the closed form of the leap rule by inclusion and exclusion |
| `Calendar.DayNumberClosedForm` | internal/quota/quota.go:115-127 | Counting days by years and months agrees with the closed form for years that begin in March, on every date from 1970 on |
| `Calendar.DayZeroIsLastDay` | internal/quota/quota.go:122-126 | Day 0 of the month after a month, month 13 included, is that month's last day |
| `QuotaPeriod.NextMonthClampedDate` | internal/quota/quota.go:115-127 | The next date lies in exactly the next calendar month, on min(day, length of that month), 28 to 31 days on |
| `QuotaPeriod.MonthlyPeriodEnd` | internal/quota/quota.go:95-127 | The same for instants: 28 to 31 days, same time of day, next month, clamped day |
| `QuotaPeriod.PeriodEndAdvances` | internal/quota/quota.go:95-109 | Every period of a positive start ends at least a day and at most 31 days later and keeps the alignment: the measure of the catch-up loop |
| `QuotaPeriod.RolledContainsNow` | internal/quota/quota.go:197-210 | After any downtime start <= now < PeriodEnd(start), and the start keeps its alignment |
| `QuotaPeriod.RolledPathIndependent` | internal/quota/quota.go:168-226 | Rolling at t1 and then at t2 is rolling once at t2 |
| `QuotaPeriod.RolledIsTheContainingPeriod` | internal/quota/quota.go:197-210 | The rolled start is the k-th period start when the k-th period contains now: no period is skipped or entered early |
| `QuotaPeriod.FixedPeriodsRoll` | internal/quota/quota.go:95-105 | A daily or weekly start rolls by whole days or weeks to the last of them before the clock |
| `QuotaPeriod.MonthlyDrift` | internal/quota/quota.go:115-127 | Over k months the month index advances by k and the day is the first day clamped by every month on the way, never below min(day, 28) |
| `QuotaPeriod.MonthlyPeriodsAreNotAnchored` | internal/quota/quota.go:111-127 | 31 January 2023 leads to 28 March, not 31 March |
| `PanelServer.Server.CatchUp` | internal/quota/quota.go:197-210 | The loop, with its termination measure, computes the rolled start and reports whether it moved |
| `Traffic.TrafficDb.Store` | internal/metrics/sampler.go:94-199 | A scrape is stored sample by sample exactly as `StoreBatch` says, or, on any failing statement or commit, not at all |
| `TrafficHistory.StoreSampleTotals` | internal/metrics/sampler.go:144-199 | One stored sample adds to its user's recorded bytes the counter's growth since the baseline, or the whole counter after a drop, and makes the counter the baseline; other users keep both, and a repeated timestamp changes nothing |
| `TrafficHistory.CounterConservation` | internal/metrics/sampler.go:144-199 | Over every history of scrapes and retention cycles, resets, repeated timestamps and failing cycles included, recorded deltas sum to the stored baseline plus the baseline at each observed drop |
| `TrafficHistory.NeverOvercounts` | internal/metrics/sampler.go:176-199 | Against a proxy that transfers and restarts at will, with retention in between, what is recorded plus what the next scrape would add never exceeds the true bytes, and equals them until the first restart |
| `TrafficHistory.DailyIndexExact` | internal/metrics/sampler.go:144-170 | After every history of scrapes and retention cycles each daily row holds the sums and the maximum of its day, and the usage since a day boundary is the sum of all deltas recorded from then on |
| `TrafficHistory.DailyRowsAreSums` | internal/metrics/sampler.go:144-170 | The daily row of a user sums each direction over that day's rows and holds their largest connection count; there is none exactly without rows |
| `ScrapeLog.RowsAreScraped` | internal/metrics/sampler.go:94-199 | After every orderly history the recorded rows are those of the scrapes alone: one for each user and instant, with the connections first scraped then and the growth of both counters since the user's row before it |
| `TrafficHistory.RetentionLeavesUsageAlone` | internal/metrics/aggregate.go:51-69 | No retention step, failing or not, changes a daily total or a baseline |
| `TrafficHistory.UsageExactIffAligned` | internal/quota/quota.go:91-91 | A positive period start counts every history correctly if and only if it is a day boundary |
| `TrafficHistory.UnalignedStartMiscounts` | internal/quota/quota.go:86-91 | From a start inside a day one scrape at that instant is already miscounted |
| `QuotaUsage.EveryRunIsAligned` | internal/panel/user_actions.go:534-575 | In every run of ticks and handlers every period start is unset or a day boundary; the handlers snap the clock they are given |
| `QuotaUsage.ChargedIsExact` | internal/quota/quota.go:251-268 | In every reachable state of the panel, over every history of scrapes and retention cycles, the usage a user is charged with is exactly the sum of all deltas ever recorded since the period start; without a start it is 0 |
| `Retention.CycleReports` | internal/metrics/aggregate.go:51-69 | What samples and hourly rows report together after a cycle: an hour with retired samples is rebuilt from samples alone |
| `Retention.CycleConservesIff` | internal/metrics/aggregate.go:90-112 | A cycle keeps an hour's bytes if and only if it folds nothing into an hourly row that already holds bytes |
| `TrafficHistory.RetentionConserves` | internal/metrics/aggregate.go:51-142 | With hour-aligned cutoffs that never move back and no samples older than those deleted, whatever cycles failed at whatever step, the table that counts for a retained (label, hour) holds exactly what the sampler ever recorded for it |
| `TrafficHistory.SettledTablesReport` | internal/metrics/aggregate.go:51-142 | Once the latest cycle got past its deletion no hour is in both tables and the two together report exactly that |
| `Retention.SettledReports` | internal/metrics/aggregate.go:51-69 | The same of one state of the tables |
| `Retention.FoldedKeeps` | internal/metrics/aggregate.go:90-127 | Aggregating and deleting at an hour boundary moves every hour's totals from one table to the other unchanged |
| `Retention.HalfCycleCountsTwice` | internal/metrics/aggregate.go:58-63 | Between a failed delete and the next cycle retired samples are reported twice |
| `Retention.CrashThenRerun` | internal/metrics/aggregate.go:51-69 | A crash between aggregating and deleting, any arrivals, then a later cycle: the result is that of the later cycle alone |
| `Retention.TwoRunsLoseBytes` | internal/metrics/aggregate.go:51-69 | Two runs with the default horizons, the first at any second inside an hour, lose the bytes of a sample |
| `Retention.TwoCyclesLoseBytes` | internal/metrics/aggregate.go:90-112 | The same of the two cycles, for any tables around the two samples |
| `Retention.Retainer.Run` | internal/metrics/aggregate.go:51-69 | The tables after each possible failing step, with the cutoffs as computed |
| `Retention.Retainer.AggregateOldSamples` | internal/metrics/aggregate.go:90-112 | An hour gets a row exactly if it had one or an old sample lies in it; in the latter case the row holds the group of old samples, whatever it held before, and no other row changes |
| `Retention.SummaryIsMaximum` | internal/metrics/aggregate.go:99-106 | The connections of a group are the maximum over its rows |
| `Retention.SummaryIsSum` | internal/metrics/aggregate.go:99-106 | Each direction of a group is the sum over its user's rows in the sixty minutes from its hour on |
| `Retention.DefaultRunKeeps` | internal/metrics/aggregate.go:51-69 | By default samples stay for 604800 seconds and hourly rows for 2592000: none older is left, none younger is gone |
| `Retention.Retainer.DeleteOldSamples` | internal/metrics/aggregate.go:115-127 | Every sample at or after the cutoff stays as often as it was there, in order, and no other |
| `Retention.Retainer.DeleteOldHourly` | internal/metrics/aggregate.go:130-142 | The rows of hours at or after the cutoff stay, with their totals, and no other |
| `Charts.QueryTrafficSeries` | internal/metrics/query.go:87-131 | Bucket i holds exactly the sums and maximum of the rows of its span inside the window; no buckets asked, no series |
| `Charts.DivisionFindsSpan` | internal/metrics/query.go:115-124 | The index computed by division is the bucket whose span contains the row |
| `Charts.ChartCountsOnce` | internal/metrics/query.go:87-131 | The buckets together count each row of the covered span exactly once |
| `Charts.ChartConservesIff` | internal/metrics/query.go:87-131 | A chart conserves its window's totals for all rows if and only if the bucket count divides the window or is at least its length |
| `ChartHistory.SamplesAreTheNewerRows` | internal/metrics/aggregate.go:115-127 | After every orderly history the samples left are exactly those recorded from the latest deletion on, in order |
| `ChartHistory.RecordedIsSum` | internal/metrics/query.go:180-204 | What a span recorded sums each direction over all users and takes the largest connection count |
| `ChartHistory.RecentChartIsExact` | internal/metrics/query.go:180-187 | A chart that starts at or after the latest deletion shows, in every span, exactly what was recorded |
| `ChartHistory.LongChartIsExact` | internal/metrics/query.go:189-204 | The 30-day chart of settled tables reads both tables and shows exactly what was recorded from the first hour boundary of its window on |
| `ChartHistory.LongChartTotals` | internal/metrics/query.go:87-131 | Its buckets add up to that when their number divides the window or is at least its length |
| `Users.RecalculateEscalates` | internal/quota/quota.go:270-308 | Recalculate never lifts a suspension or warning, suspends exactly who is over a quota, leaves whom it suspends warned, and is idempotent |
| `Users.ThresholdNeverAboveQuota` | internal/quota/quota.go:277-284 | For every 64-bit quota and percentage 1 to 100, overflow included, the soft limit is never above the hard one |
| `Users.ThresholdExactIff` | internal/quota/quota.go:277-284 | The threshold is the exact percentage if and only if the product does not overflow, and is too low otherwise |
| `Users.WarnsAtOnceIff` | internal/quota/quota.go:277-284 | A warning is due at zero usage if and only if the low 64 bits of the product are below 100 or read as negative |
| `Users.OverflowingQuotas` | internal/quota/quota.go:277-284 | Two examples: an overflowing quota with threshold 0 and one with threshold 30000 |
| `Users.OneWarningPerClear` | internal/quota/quota.go:277-294 | Over every sequence of quota steps there is at most one warning more than steps that clear `quota_warned` |
| `Users.OnlyTheseLiftSuspension` | internal/panel/users.go:213-322 | Only an ended period, an unlimited quota or new period, a reset, an explicit lift or a restore ends a suspension |
| `UserOutcomes.DesiredMembers` | internal/panel/user_actions.go:747-752 | The proxy is given exactly the entries of the enabled, undeleted, unsuspended users |
| `UserOutcomes.ServedIff` | internal/panel/user_actions.go:747-752 | Under unique labels a user is served exactly if it may connect, and with its own secret alone |
| `UserOutcomes.EndedPeriodStartsAfresh` | internal/quota/quota.go:197-225 | When a period is over, usage, warning and suspension are cleared, the new period contains the clock, nothing else changes, and a suspended enabled user is served again once the reload works |
| `UserOutcomes.RunningPeriodIsLeft` | internal/quota/quota.go:168-210 | Before the end nothing changes; a period that never started gets the day of the clock as its start and nothing else |
| `UserOutcomes.RowIsDecided` | internal/quota/quota.go:270-308 | Recalculate stores the usage and leaves a row suspended or warned exactly if it was or its usage has reached the quota or the percentage of it |
| `UserOutcomes.RecalculationDecides` | internal/quota/quota.go:234-317 | The audit gains a warning and a suspension exactly when the row does, and a user it suspends is no longer served once the reload works |
| `UserOutcomes.DeletedIsGone` | internal/panel/user_actions.go:100-140 | After a deletion that is done the row is marked, no lookup finds it, its label is not served and every other row is as before |
| `UserOutcomes.ToggledIsFlipped` | internal/panel/user_actions.go:55-98 | After a toggle exactly the flag is the opposite, and the user is served exactly if it is enabled and not suspended now |
| `UserOutcomes.RotatedIsReplaced` | internal/panel/user_actions.go:142-203 | After a rotation the row has the new secret and a served user is served with it alone; a user without a secret is refused |
| `UserOutcomes.SuspensionIsSet` | internal/panel/user_actions.go:591-633 | A user who is suspended is not served; one whose suspension is lifted stays free exactly within its quota |
| `UserOutcomes.ResetStartsOver` | internal/panel/user_actions.go:551-589 | After a reset the period starts on the clock's day, flags and usage are cleared and the usage since then decides |
| `UserOutcomes.QuotaIsStored` | internal/panel/users.go:213-270 | Valid settings, and no others, are stored as given; start, usage and flags are cleared exactly when the period's name changes or it never started, the flags also without a quota |
| `UserOutcomes.CreatedIsServed` | internal/panel/users.go:335-357 | A creation that is done adds one enabled row under a fresh id with the table's defaults and serves it next to all others |
| `UserOutcomes.TickDecidesRows` | internal/quota/quota.go:345-359 | A tick without failures, cut short or not, moves every user it reaches into the period that contains the clock and decides its row by the usage in it; the others keep theirs |
| `UserOutcomes.TickEnforcesQuotas` | internal/quota/quota.go:345-359 | After a whole tick every user is charged exactly its usage, nobody over quota is served, and a user is served exactly if it is enabled and not suspended |
| `UserOutcomes.CreationKeepsLimit` | internal/panel/users.go:335-342 | A creation that is done leaves at most sixteen active users |
| `UserOutcomes.ToggleExceedsLimitIff` | internal/panel/users.go:362-365 | Of at most sixteen active users a toggle makes more exactly if there are sixteen and the user is disabled |
| `PanelServer.Server.SetQuota` | internal/panel/users.go:213-270 | Valid arguments change exactly the columns of their case; invalid ones or a failing write change nothing |
| `PanelServer.Server.RolloverIfDue` | internal/quota/quota.go:168-226 | The whole state after a rollover, under every failure of the transaction and of the reload |
| `PanelServer.Server.Recalculate` | internal/quota/quota.go:234-317 | The whole state after a recalculation, with its audit entries, reload and retry |
| `PanelServer.Server.RunReload` | internal/quota/quota.go:47-56 | A failed reload is remembered, a successful one clears the memory |
| `PanelServer.Server.ApplyTeleproxyConfig` | internal/panel/user_actions.go:742-794 | The filter loop keeps exactly the enabled, undeleted, unsuspended users in order; the files and the proxy after each failing step |
| `PanelServer.Server.TickAll` | internal/quota/quota.go:345-359 | A tick, possibly cancelled, is the per-user work in table order |
| `PanelServer.Server.HandleUserToggle` | internal/panel/user_actions.go:55-98 | Mutate, reload, restore on failure |
| `PanelServer.Server.HandleUserDelete` | internal/panel/user_actions.go:100-140 | The same for the soft delete |
| `PanelServer.Server.HandleUserRotate` | internal/panel/user_actions.go:142-203 | The same for the secret |
| `PanelServer.Server.HandleUserQuotaSet` | internal/panel/user_actions.go:487-549 | The same for a quota, then a recalculation |
| `PanelServer.Server.HandleUserQuotaReset` | internal/panel/user_actions.go:551-589 | The same for a reset |
| `PanelServer.Server.HandleUserSuspendToggle` | internal/panel/user_actions.go:591-633 | The same for a suspension |
| `PanelServer.Server.HandleUserCreate` | internal/panel/users.go:426-472 | A created user is soft-deleted again when the reload fails |
| `PanelServer.Server.HandleUserBulkSuspend` | internal/panel/user_actions.go:258-331 | Every listed user is suspended and the proxy follows, or table and proxy are as before, also for repeated ids and a write that fails midway |
| `PanelServer.Server.Run` | internal/quota/quota.go:46-63 | The methods themselves, called in any order under all failures, keep the proxy in sync or a reload pending, and ids and labels unique; the proxy may restart by itself any number of times before the first handler whose reload fails at teleproxy.toml or the signal |
| `PanelModel.RolloverStaysInSync` | internal/quota/quota.go:211-225 | A rollover that lifts a suspension reaches the proxy or leaves a reload pending |
| `PanelModel.RecalculateStaysInSync` | internal/quota/quota.go:299-315 | So does a recalculation, and one that reports no error leaves the proxy equal to the table if it was in sync |
| `PanelModel.RestoreUndoesEdit` | internal/panel/users.go:276-306 | Restoring is an exact inverse of each handler's write, but for the cached usage column |
| `PanelModel.HandlerStaysInSync` | internal/panel/user_actions.go:55-201 | A handler succeeds exactly when each of its steps does; rolled back, the proxy serves and the table names whom it did before |
| `PanelModel.CreateStaysInSync` | internal/panel/users.go:426-472 | A created user is served next to all others; a rolled-back creation serves whom it did before |
| `PanelModel.BulkStaysInSync` | internal/panel/user_actions.go:258-331 | A bulk suspension reaches the proxy, or table and proxy are as before |
| `PanelModel.NeverSilentlyDrifts` | internal/quota/quota.go:46-63 | In every run of ticks, single-user and bulk handlers under all failures the live user set is exactly the enabled, undeleted, unsuspended users, or a reload is pending; the proxy may restart by itself at any point before the first handler whose reload fails at teleproxy.toml or the signal, since up to there the file serves the table as well or a reload is pending |
| `PanelModel.HappensKeepsFile` | internal/panel/user_actions.go:742-794 | Every step but a handler whose reload fails at teleproxy.toml or the signal keeps the file serving the table, or a reload pending |
| `PanelModel.EveryRunIsRepairable` | internal/quota/quota.go:345-359 | After any run, one tick without failures over at least one user restores equality |
| `PanelModel.RolledBackFileAgreesIff` | internal/panel/user_actions.go:742-794 | Exactly when the file on disk agrees with the table after a rolled-back handler |
| `PanelModel.RestartAfterRollbackIff` | internal/systemd/unit.go:62-73 | Exactly when a proxy that restarts by itself after a rolled-back handler serves the table |
| `PanelModel.ToggleLeavesFileBehind` | internal/panel/user_actions.go:55-98 | Every served user is dropped by the proxy's next restart after a toggle whose reload failed at the signal |
| `PanelModel.FileIsLeftBehind` | internal/panel/user_actions.go:55-98 | Two steps from an empty panel reach such a state |
| `PanelModel.UsedLabelIsNeverFree` | internal/db/migrations.go:177-186 | From every panel a label any row has is refused after every later run, whatever became of the row |
| `PanelModel.DocumentedLabelRuleFailsIff` | internal/panel/users.go:333-357 | With nothing else in the way, a label free among undeleted rows is refused if and only if a deleted row has it |
| `PanelModel.RolledBackCreationUsesLabelUp` | internal/panel/users.go:426-472 | A creation taken back leaves a label that is free as documented and never granted again |
| `PanelModel.KeysStayUnique` | internal/panel/users.go:335-357 | Ids and labels stay unique over every run, so each statement's WHERE names one row |
| `Nodes.Active` | internal/bridge/model.go:158-166 | The loop returns exactly the enabled nodes in order |
| `Nodes.NextId` | internal/bridge/model.go:169-177 | An id above every id in use |
| `Nodes.RenderOutbounds` | internal/bridge/service.go:373-391 | The loop renders the enabled nodes from the cursor on, by truncated remainder, and moves the cursor |
| `Nodes.RenderIsRotation` | internal/bridge/service.go:373-391 | For any cursor, stale or negative, a render is a rotation of the enabled list and leaves the cursor in range |
| `Nodes.OffsetAfterRenders` | internal/bridge/service.go:373-391 | Where the cursor stands after k renders |
| `Nodes.RoundRobinIsFair` | internal/bridge/service.go:373-391 | Over n renders of n >= 2 enabled nodes each node is first exactly once |
| `Nodes.DocumentListsEnabled` | internal/singbox/config.go:91-198 | A list renders exactly when it has enough enabled nodes for its strategy, and then the document lists exactly those up to rotation |
| `Nodes.StillListsIff` | internal/bridge/service.go:373-391 | A document still lists a list in which one node changed if and only if the node is as enabled as before and, if enabled, renders alike |
| `BridgeDocument.EnabledIsFilter` | internal/bridge/model.go:158-166 | The enabled nodes are those of the list, each in its place, and no others |
| `BridgeDocument.DocumentReachesNodes` | internal/singbox/config.go:201-287 | A document has one entry for each enabled node, in order from the cursor on, which has the node's address and presents what its protocol needs, and a group over their tags |
| `BridgeDocument.GroupFollowsStrategy` | internal/singbox/config.go:160-198 | Selector and round robin pin the first entry, fallback cuts connections, every other name leaves the choice to probing |
| `BridgeDocument.DefaultRotates` | internal/bridge/service.go:373-391 | Over n renders of n enabled nodes with different tags each is the selector's default exactly once |
| `BridgeDocument.RendersAlikeIff` | internal/singbox/config.go:201-287 | Two nodes of one type render alike exactly if they agree on tag, address and the fields of their protocol, defaults included |
| `BridgeDocument.EditChangesForm` | internal/panel/bridge.go:1139-1158 | An edit changes the form's fields of the one node and nothing else |
| `BridgeDocument.ToggleAndPingChangeOne` | internal/panel/bridge.go:1176-1357 | A toggle changes the one flag, a ping the latency of the one node |
| `BridgeDocument.DeletionKeepsOthers` | internal/panel/bridge.go:1237-1298 | A deletion leaves the other nodes, in order |
| `BridgeService.SwitchIsReadBack` | internal/teleproxy/mode.go:12-21 | What the two switches write is read back as the mode switched to |
| `BridgeService.Host.Enable` | internal/bridge/service.go:82-189 | No error if and only if every step works, and then the node is appended with a fresh id, the SOCKS5 config written and both services up; otherwise nothing changed, or node file, Single config and stopped, disabled sing-box each as far as its own restoring call works |
| `BridgeService.Host.EnableSaved` | internal/bridge/service.go:103-189 | The steps after the list is saved: an exact success condition and result |
| `BridgeService.Host.Rollback` | internal/bridge/service.go:255-286 | Every part is attempted whatever happens to the others |
| `BridgeService.Host.Disable` | internal/bridge/service.go:191-231 | An exact success condition, and for each failing step what is kept, restored or left |
| `BridgeService.Host.DisableRollback` | internal/bridge/service.go:233-252 | An existing teleproxy.toml and sing-box's prior activity come back |
| `BridgeService.Host.RerenderConfig` | internal/bridge/service.go:322-361 | Document and cursor are stored together, or an existing document comes back |
| `BridgePanel.SaveNodeListWithRerenderRollback` | internal/panel/bridge.go:484-502 | It succeeds exactly when storing and, while sing-box runs, rendering work; then the updated list is stored and rendered, otherwise list and document are as before |
| `BridgePanel.HandleBridgeAddNode` | internal/panel/bridge.go:878-926 | One node with a fresh id is appended, in Single mode by switching to Bridge; a failure leaves the list as it was; which of refused, done and rolled back is exact |
| `BridgePanel.HandleBridgeEditNode` | internal/panel/bridge.go:1097-1174 | Exactly the named node's form fields change, with an exact condition for refused, done and rolled back |
| `BridgePanel.HandleBridgeToggleNode` | internal/panel/bridge.go:1176-1235 | The named node is toggled; when none is left enabled a running bridge is left for Single mode, otherwise services and teleproxy.toml stay as they are; the outcome is exact |
| `BridgePanel.HandleBridgeDeleteNode` | internal/panel/bridge.go:1237-1298 | Every entry with the id goes, with the same consequences |
| `BridgePanel.HandleBridgePingNode` | internal/panel/bridge.go:1302-1357 | A latency is stored without touching what the list renders to |
| `BridgePanel.HandleBridgeSetStrategy` | internal/panel/bridge.go:1361-1405 | A strategy is stored and rendered exactly when it is known, has enough enabled nodes and every call works |
| `BridgePanel.StoreOrLeaveBridge` | internal/panel/bridge.go:1199-1235 | What toggle and delete share: store and render, or leave Bridge mode when no node is enabled |
| `BridgePanel.WithoutKeepsDistinct` | internal/panel/bridge.go:1237-1298 | The in-place filter removes exactly one node and keeps ids distinct |
| `BridgePanel.LatencyRendersAlike` | internal/panel/bridge.go:1341-1352 | A ping does not change the rendered outbounds |
| `BridgeService.SavedIsSound` | internal/bridge/service.go:345-360 | A rendered list and its document agree after the cursor moves |
| `BridgeService.Host.SingboxStarts` | internal/systemd/unit.go:146-157 | A start without a handler is sound if and only if sing-box.json lists the stored list and it has enough nodes |
| `BridgePanel.EditWhileDownIff` | internal/panel/bridge.go:1408-1420 | An edit stored while sing-box is down leaves list and document in step if and only if the node is disabled or renders alike |
| `BridgePanel.ToggleWhileDownShows` | internal/panel/bridge.go:1408-1420 | A toggle stored while it is down never does |
| `BridgePanel.DeleteWhileDownIff` | internal/panel/bridge.go:1408-1420 | A deletion stored while it is down does if and only if the node was disabled |
| `BridgePanel.StrategyWhileDownIff` | internal/panel/bridge.go:1408-1420 | A strategy stored while it is down does if and only if it is the one in effect or both are written as a selector |
| `BridgePanel.AddToRunning` | internal/bridge/service.go:322-361 | A node added while sing-box runs is appended and rendered, and a sing-box that worked by its file no longer does: nothing restarts it |
| `BridgePanel.OtherNumberOtherDocument` | internal/bridge/service.go:322-361 | A document that lists one list is never that of a list with another number of enabled nodes, so every added, toggled or deleted enabled node leaves the running configuration behind |
| `BridgePanel.CrashToggleRestart` | internal/systemd/unit.go:146-157 | Stop, toggle, restart: from every sound host with sing-box running and for every stored node the host ends up unsound |
| `BridgePanel.Run` | internal/panel/bridge.go:1408-1420 | Over every sequence of requests under every schedule of forward failures, with sing-box stopping and starting by itself between handlers: whenever it runs at a handler boundary, ids are distinct, enough nodes are enabled and sing-box.json lists exactly those up to rotation, up to the first start that finds the files out of step, the only way out |
| `Teleproxy.DetectModeOfRender` | internal/teleproxy/mode.go:12-21 | For quote-free fields and any number of users, Bridge is detected if and only if an upstream is set or a field ends in the directive's own text |
| `Teleproxy.DetectModeInvertsRender` | internal/teleproxy/config.go:62-111 | For fields free of quotes and spaces detection inverts rendering |
| `Teleproxy.DocumentedPreconditionIsTooWeak` | internal/teleproxy/config.go:72-75 | A configuration within the documented precondition that is misread |
| `TeleproxyReader.UsersReadBack` | internal/teleproxy/config.go:106-111 | A reader that collects key and label of each secret block from the text returns exactly the users, in order, each secret as the key |
| `TeleproxyReader.DomainReadsBack` | internal/teleproxy/config.go:94-98 | Domain and backend are read back: the wildcard mask when there is one, the mask host otherwise |
| `TeleproxyReader.UpstreamReadsBack` | internal/teleproxy/config.go:58-70 | The upstream is read back with its scheme; without an address there is none |
| `TeleproxyReader.SettingsReadBack` | internal/teleproxy/config.go:87-93 | Both ports and the clamp are read back from the lines in front of the first quoted value |
| `TeleproxyReader.Ja4ReadsBack` | internal/teleproxy/config.go:102-105 | The statistics line stands outside all quotes exactly when it was asked for |
| `ReloadMode.TornBridgeIff` | internal/panel/user_actions.go:796-801 | A Bridge configuration cut off anywhere is read back as Bridge if and only if the cut leaves the quote that opens the upstream |
| `ReloadMode.FirstReloadFollowsActivity` | internal/panel/user_actions.go:44-53 | Without a file the first reload writes the mode that the activity of sing-box stands for |
| `ReloadMode.BridgeIsKeptIff` | internal/panel/user_actions.go:37-53 | Over every run of reloads with whole, failed and cut-off writes Bridge mode is kept if and only if no write was cut off before that quote; once lost it never comes back, however active sing-box is |
| `Lines.JoinLines` | internal/nginx/mainconf.go:30-49 | Splitting a text into lines loses nothing |
| `Lines.LinesOfJoin` | internal/nginx/mainconf.go:30-49 | and joining lines is undone by splitting |
| `NginxMainConf.FindLineIsFirstMatch` | internal/nginx/mainconf.go:77-89 | The search on the text finds the first matching line, and replacing the found span replaces that line |
| `Numbers.AtoiOfItoa` | internal/nginx/mainconf.go:83-87 | Every number of the 64-bit range is read back as it is written, and none beyond |
| `Numbers.DigitsAreNumber` | internal/nginx/mainconf.go:83-83 | Every string of digits is a number behind zeros |
| `NginxDirectives.CapturedIff` | internal/nginx/mainconf.go:31-32 | The two directives' expressions match exactly the lines indent, name, blanks, number, blanks, semicolon, anything |
| `NginxDirectives.AnchorIff` | internal/nginx/mainconf.go:33-34 | and the two anchors exactly the lines that open `events` or set `worker_processes` |
| `NginxDirectives.NumberIsRaised` | internal/nginx/mainconf.go:77-89 | A text whose first line of a directive sets it to any number below the floor gets exactly that line rewritten to the floor, indent kept; at or above it, beyond 64 bits included, nothing changes |
| `NginxDirectives.MissingIsAdded` | internal/nginx/mainconf.go:54-70 | A text without the directive gets it at its floor right after the first line that opens its place, or stays as it is without one |
| `NginxDirectives.EveryFloorIsMet` | internal/nginx/mainconf.go:51-75 | In every patched text the first line of either directive sets it to at least its floor |
| `NginxMainConf.PatchOneIsPatchLines` | internal/nginx/mainconf.go:51-89 | The patch by search and slicing is a patch of the line list that rewrites or inserts one line |
| `NginxMainConf.PatchLinesRaises` | internal/nginx/mainconf.go:77-89 | At most the first line of a directive changes, its value becomes the larger of itself and the floor, and a missing one is inserted exactly when there is a line to insert it after |
| `NginxMainConf.PatchLinesKeepsOthers` | internal/nginx/mainconf.go:51-75 | No line of any other expression changes |
| `NginxMainConf.PatchMainConfRaises` | internal/nginx/mainconf.go:51-75 | Both directives together: never lowered, at or above their floors wherever readable or insertable, all other lines kept |
| `NginxMainConf.PatchMainConfIdempotent` | internal/nginx/mainconf.go:51-75 | Patching twice is patching once, on every text |
| `Reconcile.Host.Reconcile` | internal/reconcile/reconcile.go:29-272 | A run under every failure: all files, links and restarts of a completed run, exactly which services are restarted in which order, and for an interrupted one that each file is whole, old or new |
| `ReconciledHost.ProxyConfigOnDisk` | internal/reconcile/reconcile.go:51-86 | Read back from the file, a completed run's proxy configuration names exactly the given users with their own secrets, goes through the local upstream exactly in Bridge mode and fronts the panel's site exactly with a certificate |
| `ReconciledHost.PortsOnDisk` | internal/reconcile/reconcile.go:70-80 | and has the configured port, the statistics port 9091 and the configured clamp |
| `ReconciledHost.UnitsOnDisk` | internal/reconcile/reconcile.go:88-138 | The units of proxy and panel are there, and that of sing-box exactly in Bridge mode |
| `ReconciledHost.NginxOnDisk` | internal/reconcile/reconcile.go:140-232 | nginx.conf is the patched one, each site and the snippet is there exactly when the settings call for it, sites are linked and the default one is gone |
| `ReconciledHost.StubOnDisk` | internal/stub/embed.go:28-43 | A legacy page is replaced whatever its line ends, any other is kept, none is made |
| `Reconcile.Host.WriteFileIfChanged` | internal/reconcile/reconcile.go:294-300 | A file is written, and reported as changed, exactly when what is read differs; an unreadable file counts as empty |
| `Reconcile.Host.EnsureNginxSiteEnabled` | internal/reconcile/reconcile.go:282-292 | The link exists afterwards and is reported as new exactly when it was missing |
| `Reconcile.Host.MigrateStubIfLegacy` | internal/stub/embed.go:28-43 | Exactly a legacy page, up to line ends, is replaced |
| `Reconcile.Host.WriteServiceFiles` | internal/reconcile/reconcile.go:81-138 | The first part of a run, with an exact success condition |
| `Reconcile.Host.WriteNginxFiles` | internal/reconcile/reconcile.go:140-232 | The second part, with an exact success condition |
| `Reconcile.Host.RestartServices` | internal/reconcile/reconcile.go:249-269 | Due services are restarted in order up to the first failure, and what the proxy has loaded afterwards |
| `Reconcile.RestartsStopAtFailure` | internal/reconcile/reconcile.go:249-269 | A due service is restarted unless its own restart or that of a due one before it fails, and nothing else is |
| `Reconcile.ModeSurvivesIff` | internal/reconcile/reconcile.go:51-58 | The mode written is the mode read back by the next run if and only if it is recorded, is Bridge, or no field ends like the socks5 directive |
| `Reconcile.FixpointIff` | internal/reconcile/reconcile.go:29-272 | A second run with the same inputs has nothing to write and nothing to restart if and only if the mode survives |
| `Reconcile.SecondRunChangesNothing` | internal/reconcile/reconcile.go:122-269 | After a run that wrote every file, a second one, even a failing one, changes no file or link, restarts nothing and keeps the mode |
| `Reconcile.SpaceFreeModeSticks` | internal/reconcile/reconcile.go:51-63 | Fields without quotes and spaces always meet that condition |
| `Reconcile.RestartsFollowChanges` | internal/reconcile/reconcile.go:244-269 | The proxy is due exactly if teleproxy.toml changed, the panel if its unit did, nginx if a file, link or site of nginx did |
| `Reconcile.ChangedUnitsRestartNothing` | internal/reconcile/reconcile.go:88-138 | The gap: new units of the proxy and of sing-box are written and make no service due |
| `Reconcile.ProxyIsLiveIff` | internal/reconcile/reconcile.go:249-253 | After a successful run the proxy runs the file on disk if and only if the run changed it or it already did |
| `Reconcile.LostRestart` | internal/reconcile/reconcile.go:244-253 | A run that stops between the write and the restart leaves the proxy stale |
| `Reconcile.LostRestartHappens` | internal/reconcile/reconcile.go:244-247 | It takes no more than a failing daemon reload, on any host whose proxy runs something else |
| `Reconcile.StaleForever` | internal/reconcile/reconcile.go:244-253 | and so does every number of later runs with the same inputs |
| `WebRoot.Applier.Apply` | internal/stub/apply.go:44-66 | Success if and only if every call works, and then the old files overlaid by the source tree; after any failure every old file whose own restoring call works has its contents back, and if all of them work the regular files are as before, but for one new path whose own write was torn |
| `WebRoot.Applier.SnapshotDir` | internal/stub/apply.go:69-119 | The recursive snapshot holds exactly the regular files, or fails; a missing root is an empty one |
| `WebRoot.Applier.WriteDir` | internal/stub/apply.go:122-180 | The recursive copy overlays its subtree, and a partial one changes only paths it reports and the torn one |
| `WebRoot.Applier.Rollback` | internal/stub/apply.go:182-197 | What was written goes and what was saved comes back, path by path, each as far as its own call works |
| `WebRoot.FlatIsLookup` | internal/stub/apply.go:122-180 | The copy holds exactly the tree's regular files, each at the path that leads to it |
| `WebRoot.AppliedRootByPath` | internal/stub/apply.go:44-66 | Path by path, an applied template's own file or what was there before |
| `WebRoot.OverlayStaysBelow` | internal/stub/apply.go:122-180 | Copying a directory changes nothing outside its own path |
| `RateLimiter.Limiter.RecordFailure` | internal/panel/rate_limit.go:49-66 | The record of the address after a failure; all other addresses keep theirs |
| `RateLimiter.Limiter.IsBlocked` | internal/panel/rate_limit.go:38-46 | Blocked exactly before the block ends |
| `RateLimiter.Limiter.RecordSuccess` | internal/panel/rate_limit.go:69-73 | A success clears the address and no other |
| `RateLimiter.AtMostEightPerWindow` | internal/panel/rate_limit.go:38-66 | Any closed five-minute interval admits at most eight failing attempts of an address without a success |
| `RateLimiter.FailingAttempts` | internal/panel/rate_limit.go:38-66 | Checking and recording one attempt after another, a whole schedule of failing attempts ends in the record the bound is about, leaves other addresses alone and gets at most eight admitted in any window |
| `RateLimiter.EightIsReached` | internal/panel/rate_limit.go:49-66 | The bound is tight |
| `RateLimiter.FifthFailureBlocks` | internal/panel/rate_limit.go:49-66 | The fifth failure of a window blocks for exactly an hour, and the first one after it opens a window at count 1 |
| `RecoveryCodes.Admin.ConsumeRecoveryCode` | internal/totp/totp.go:108-146 | One request alone: the first matching entry is removed, and what is returned and stored for each failing step, a COMMIT that worked on a connection whose close fails included: the entry is gone and an error comes back |
| `RecoveryCodes.RemoveAtTakesOne` | internal/totp/totp.go:77-104 | Encoding and decoding the trimmed list takes out exactly one entry, also the last one |
| `RecoveryCodes.InterleavingsAreSerial` | internal/db/db.go:27-81 | Every interleaving of begin, read, match, write and commit steps is equivalent to consuming the committed codes one after another |
| `RecoveryCodes.SerialConserves` | internal/totp/totp.go:108-146 | One after another, remaining and accepted entries are together the initial ones |
| `RecoveryCodes.AcceptancesAreLogged` | internal/totp/totp.go:131-146 | The entries requests were accepted for are those of committed and of failed acceptances, and the latter are as many as the moves whose COMMIT failed |
| `RecoveryCodes.CodesAreOneShot` | internal/totp/totp.go:108-146 | Accepted requests plus remaining entries are as many as the initial entries plus the moves whose COMMIT failed; without such a move accepted and remaining entries are exactly the initial ones |
| `RecoveryCodes.WorkingRunsConserve` | internal/totp/totp.go:108-146 | In particular whenever every move works, in whatever order |
| `RecoveryCodes.FreeLockAccepts` | internal/totp/totp.go:116-145 | Five working moves on a free lock accept a request for the first stored entry its code matches, take exactly that entry out and touch no other request |
| `RecoveryCodes.FreeLockRejects` | internal/totp/totp.go:123-133 | A code that matches nothing is rejected and nothing is stored |
| `RecoveryCodes.RaceIsDecided` | internal/totp/totp.go:100-107 | However n requests with one code interleave, once all are through exactly as many were accepted as there were entries for the code, n at most |
| `RecoveryCodes.FailedCommitsAcceptTwice` | internal/totp/totp.go:131-146 | With failing COMMITs two requests with one code are accepted for the same entry, and it is still stored |

## Left out

- RateLimiter.AtMostEightPerWindow: check and record are one step, the clock never goes back, and an address that succeeds starts over; a nine-failure bound would be weaker than what holds.
- TrafficHistory.RetentionConserves: assumes hour-aligned cutoffs that never move back and no samples older than those already deleted; without them the exact condition is `CycleConservesIff`.
- PanelModel.NeverSilentlyDrifts: steps do not overlap and the handlers' own restoring writes succeed; reloads from several goroutines overwrite the pending flag without an order. The proxy may restart by itself up to the first handler whose reload fails at teleproxy.toml or the signal; a restart after one can break it, as `ToggleLeavesFileBehind` shows, and `RestartAfterRollbackIff` says exactly when the one right after it does.
- BridgePanel.Run: restoring calls, the snapshot of sing-box.json among them, succeed; sing-box stops and starts by itself between handlers, not in the middle of one.
- WebRoot.Applier.Apply: directories that were created stay, and links and devices are neither saved nor copied.
- Reconcile.FixpointIff: reads whose errors are ignored succeed and the default site can be removed; fields contain no quotes.
- Teleproxy.DetectModeOfRender: fields contain no quotes, which `Render` asks of its callers.
- TeleproxyReader.UsersReadBack: fields contain no quotes, which `Render` asks of its callers; the reader is the model's own, not that of the proxy.
- ScrapeLog.RowsAreScraped: retention is orderly, as for `RetentionConserves`; a sample older than those deleted may be recorded again.
- ReconciledHost.NginxOnDisk: reads whose errors are ignored succeed and the default site can be removed.
- ReloadMode.BridgeIsKeptIff: fields contain no quotes and none ends like the socks5 directive; for those that do, `DetectModeOfRender` says what a whole file is read as.
- ChartHistory.LongChartIsExact: retention is orderly, as for `RetentionConserves`, and the latest cycle got past its deletion; the window begins after the hourly horizon.
- BridgeService.Host.Disable: queries of service states are answered truthfully.
- RecoveryCodes.CodesAreOneShot: hash matching is an arbitrary predicate, no re-enrolment happens meanwhile, and surrounding blanks of a code are already trimmed; a transaction left open holds the writer lock for good, what a later user of its connection does with it is not part of this model.
- TrafficHistory.DailyIndexExact: sums are unbounded integers, so overflow of a 64-bit byte sum is not modelled.
- `DBOpsStoreFn` and `QueryOpsSeries`: the operation counters advance their baseline on skipped duplicates, so the sampler's conservation does not hold for them; the bucketing is that of the traffic chart.
- Rotating all secrets, bulk rotation and bulk deletion: mutate, reload and restore as in the single-user handlers; the restore of a bulk deletion is not an exact inverse.
- The user list that a mode switch writes into teleproxy.toml ignores suspension; the model takes that list as a parameter.
- The per-user and several-user traffic series, the top-user queries and formatting helpers: the same sums over other windows.
- The nginx and systemd templates, the sing-box document's constant parts and the users' JSON: arbitrary texts, or one abstract document.
- Merging of configuration sources: the merged settings are the input; only the recorded mode is kept apart.
- The SQL engine and BEGIN IMMEDIATE's waiting: statements are their effect on rows, the writer lock has one holder and a waiting request does not move.
- HTTP routing, sessions, CSRF, templates, ACME issuance, certificates, cryptography, archives, health probes, installation and updates: input and output around the modelled core.
