# Pantau: a verified model of its small protocols and state machines

Pantau monitors servers over SSH and serves the results. Most of it is SSH, HTTP and SQLite
plumbing; this project models the parts whose correctness depends on an interleaving, on a whole
run, or on a fast form agreeing with a simple one, and proves what those parts are for. Each module
stands alone but for two small shared ones, `Strings` and `Wrappers`, and `RuleTargets`, which
builds on `Rollups`.

| module | what it models |
|---|---|
| `StatusCache` | writers, the one-slot invalidation channel and the debouncing rebuild worker of the public status page |
| `DriftLog` | many inspections at once under the in-flight guard: item statuses, incidents, alerts |
| `RateLimiter` | the sharded token-bucket limiter with its reaper |
| `RunLog` | the inspection-run table, pruned per host and per outcome after each insert |
| `Metrics` | the bucketed metric query and its pivot |
| `Rollups` | daily uptime rows, their deletion and the ninety-day view |
| `RuleTargets` | status-page targets that stand for a desired rule: what is recorded for healthy and drifting rules |
| `AutoTriage` | incident, reminder and recovery messages of the network triage |
| `ShellQuoting` | the quoting function and the command lines built with it, against a shell lexer |
| `Broadcaster` | the log broadcaster's ring buffer and unlocked fan-out, and the log stream built on it |
| `InspectAll` | the inspect-all endpoint and its five-slot sweep |
| `Sections` | the splitter of the batched metrics output |
| `Versions` | comparison of version tags |
| `Login2FA` | one-time passwords, recovery codes and challenges of the second login step |

Concurrency is modelled as steps: every lock section, channel operation, database statement and map
operation that Go makes atomic is one event, `Enabled` says when it can happen, `Step` what it does,
and theorems quantify over every sequence of enabled events (`CanRun`, `Exec`). Objects that Go
updates in place are classes whose methods are tied to these steps or to a function of the old
state. `time.Now` is an argument that never decreases, `float64` is `real`, and a SQL `UPDATE` reads
the old row on its right-hand sides. Constants are those of the code.

Much of the code discards the errors of its queries. Reads that may be lost in this way are steps or
arguments of the model where a property rests on them: the settings and summary reads of
`StatusCache`, the read of the previous status in `DriftLog`, the two newest runs in `RunLog`, the
three settings of a login in `Login2FA`. Other reads succeed or end the operation as their errors do
in the code, and database writes succeed.

## What the code does not do

Where the code and the promise part ways the model keeps the code, and a theorem says how.

* A status-page rebuild that fails has already consumed the invalidation token, and a read whose
  error the code discards makes it store a wrong page - a disabled one, if it was the settings read -
  without any write (`StatusCache.FailedRebuildLosesTheToken`, `StatusCache.BlindReadHidesThePage`).
  The next tick of the ticker repairs either (`StatusCache.TickRepairs`, `StatusCache.AfterTick`).
  When all is quiet the snapshot is that of the current database version exactly if no rebuild that
  failed or misread began after the version it reflects (`StatusCache.QuiescentFreshIff`). Then what
  is served is right; what is served can be right all the same when it is not
  (`StatusCache.FailureMayNotShow`), namely exactly if nothing it was made from has another value now
  than when it was read (`StatusCache.RightIffUnchanged`).
* The read of an item's previous status discards its error, and the item then counts as new. The
  incidents of an item alternate and end as its status says exactly if no inspection has reported on
  it after a read that was lost while it was in drift (`DriftLog.IncidentsAlternate`,
  `DriftLog.LostReadSpoilsTheLog`).
* A healthy inspection acknowledges every alert of its host. An item that was in drift when the
  inspection read its rules ends up in drift without an alert exactly if its rule was not among
  them, and from then on, until it has been found ok and drifts anew, no alert is raised for it but
  by reports that follow a lost read - even once the rule is enabled again
  (`DriftLog.SilencedIffUnlisted`, `DriftLog.SilencedUntilResolved`).
* The run log keeps a hundred rows per outcome, but the HTTP handler passes on any limit: every limit
  above a hundred shows the pruning on some history, with either filter (`RunLog.LongerListingsLose`).
* The comment on the host status promises that an outage needs two consecutive failed runs. A first
  run that fails is an outage at once, and so is any whose predecessor cannot be read
  (`RunLog.AntiFlapping`).
* A token bucket deleted after ten idle minutes comes back full. Rate bound and sharding - this one as
  long as no new address meets a full shard - are as promised exactly for limiters that would have
  refilled it by then
  (`RateLimiter.SlowLimiterShowsReaping`, `RateLimiter.EverySlowLimiterBreaksTheBound`).
* The ninety-day uptime counts ninety-one dates while ninety are shown. Before rounding it is the
  figure of the days shown exactly if the hidden day has no row or has that very percentage
  (`Rollups.HiddenDayIsNeutralIff`).
* A day of the history counts as an outage below 95 percent, or with an outage among at most two
  checks. The second case never decides: such a day is below 95 percent anyway
  (`Rollups.OutageDay`).
* The item of a rule is stored as "ok" or "drift" and compared with the text the rule expects, such
  as "running". The page tells a healthy rule from a drifting one as it should exactly if that text
  reads "ok" (`RuleTargets.TellsHealthIff`). The rules of a generated baseline never do: every day on
  which their host is up is shown as an outage (`RuleTargets.BaselineNeverOperational`).
* The log stream reads the history first and subscribes afterwards: a client misses exactly the
  events committed in between and those its full channel dropped (`Broadcaster.StreamMisses`,
  `Broadcaster.StreamIsCompleteIff`). Whenever two events are on their way to one channel with room
  for both, the later one can arrive first (`Broadcaster.OverlapReorders`).
* A sweep of inspect-all does not always inspect every host of its list: a host is left out exactly
  if someone else is inspecting it when its worker asks (`InspectAll.InspectedIff`). That can happen
  although nothing starts while the sweep is on, because the count of running inspections does not
  keep new ones out until the flag is up (`InspectAll.CountLeavesAGap`).
* A suffix after a dash never makes a version older. `-rc.1` makes it newer, because its dot starts
  another component, and `-beta` makes no difference to a release: a suffix counts exactly if a part
  behind one of its dots is a positive number (`Versions.SuffixLaw`).
* A login whose read of the last used step is lost goes on with step 0. It can then accept a step
  that is used up exactly if one of the three steps around the clock is positive, not after the
  stored one, and can be signed (`Login2FA.ReplayIff`); a password just used works again
  (`Login2FA.UsedPasswordAgain`). A lost read of the secret makes the empty key sign
  (`Login2FA.AcceptedInWindow`).

## Model

| member | source | states |
|---|---|---|
| StatusCache.StepInv | internal/web/status_cache.go:22-110 | every step of writer or worker, failing reads included, keeps the invariant that each invalidated write is stored, signalled, about to be read, or behind a rebuild that failed or misread; no step stores a snapshot begun earlier |
| StatusCache.NoLostInvalidation | internal/web/status_cache.go:22-110 | in every state of every interleaving an invalidated write is covered, and every row of a stored snapshot that was not misread is what its key held at a version recorded for it, none older than the rebuild |
| StatusCache.NeverGoesBackwards | internal/web/status_cache.go:33-76 | the database version at which the stored snapshot's rebuild began never decreases over a run |
| StatusCache.FailedRebuildLosesTheToken | internal/web/status_cache.go:33-76 | for any row and any two values of it, a run in which the row changes and the change is invalidated, the rebuild fails, and all goes quiet with the old value on the page |
| StatusCache.QuiescentFreshIff | internal/web/status_cache.go:33-110 | in every reachable quiet state the snapshot carries the current version if and only if no failed or misread rebuild began after the version it reflects, and then its content is that of a lone rebuild; the if-and-only-if is about the version |
| StatusCache.RightIffUnchanged | internal/web/status_cache.go:33-76 | in every reachable state the content of a snapshot that was not misread is that of a lone rebuild if and only if neither the setting nor any row it shows has another value now than at the version it was read |
| StatusCache.FailureMayNotShow | internal/web/status_cache.go:33-110 | a run that ends quiet, after a failed rebuild and with an old version, and whose page is right because its row was read after the write |
| StatusCache.BlindReadHidesThePage | internal/web/status_cache.go:38-45 | a run without a write or a returned error, in which a discarded error of the settings read replaces an enabled page by a disabled one |
| StatusCache.BlindRowIsShown | internal/web/status_cache.go:47-50 | a run without a write or a returned error, in which a row is shown with whatever text its misread query leaves |
| StatusCache.RightSpelled | internal/web/status_cache.go:33-76 | a right page, spelled out: the rows as the database has them, empty where it has none, if the setting is "true"; otherwise no page |
| StatusCache.ClosingDecreases | internal/web/status_cache.go:78-110 | every step but writes, ticks, errors and cancellation decreases the measure over pending writes, token and worker position |
| StatusCache.Progress | internal/web/status_cache.go:78-110 | until the worker is idle with an empty channel and no writer still has to invalidate, some such step is enabled: no deadlock |
| StatusCache.Settles | internal/web/status_cache.go:78-110 | such steps run out within the measure; then the snapshot carries the current version if and only if no failed or misread rebuild began after it, and in that case its content is right; this is so when none was on record and whenever a rebuild was begun or properly completed on the way |
| StatusCache.TickRepairs | internal/web/status_cache.go:80-107 | from every reachable state with an idle worker, whatever failed before, a tick can be followed by closing steps until none is enabled, and then the snapshot is current and right |
| StatusCache.AfterTick | internal/web/status_cache.go:80-107 | every run of a tick and closing steps that ends with none enabled ends with a current and right snapshot |
| StatusCache.StoppedForGood | internal/web/status_cache.go:82-100 | once its context is cancelled the worker never stores anything again |
| StatusCache.FreshStaysFresh | internal/web/status_cache.go:33-110 | a snapshot that reflects the database stays the same until the next write or unnoticed misread |
| StatusCache.Server.InvalidateStatusPageCache | internal/web/status_cache.go:22-31 | the non-blocking send is the Invalidate step |
| StatusCache.Server.RebuildStatusPageSnapshot | internal/web/status_cache.go:33-76 | undisturbed, the rebuild is a run of the machine; it stores the rendering of the current database, nothing when the summary fails, and a disabled snapshot when the settings read fails |
| StatusCache.Server.DrainAndRebuild | internal/web/status_cache.go:91-107 | the worker's turn after the timer empties the channel and rebuilds once, as a run of the machine, under each fault |
| DriftLog.OneInspectionPerHost | internal/inspector/inspector.go:103-108 | at most one inspection of a host is between LoadOrStore and Delete, in every interleaving of any number of calls |
| DriftLog.IncidentsAlternate | internal/inspector/inspector.go:1146-1231 | outside the window between two writes, the incidents of an item alternate starting with a detection and end as its stored status says if and only if no report on it has followed a read lost while it was in drift; alerts equal detections in any case; runs without a failed read lose nothing |
| DriftLog.LostReadSpoilsTheLog | internal/inspector/inspector.go:1172-1180 | a run in which one lost read makes a lasting drift reported twice, or the end of a drift never reported |
| DriftLog.UnguardedCallsRepeat | internal/inspector/inspector.go:103-108 | without the guard two overlapping inspections both report the same drift, so the guard is what alternation rests on |
| DriftLog.StepInv | internal/store/db.go:1041-1072 | every statement of every inspection, the failed status read and the exit after an expired deadline included, keeps exclusion, the call-local facts and the soundness of every item's log |
| DriftLog.DriftKeepsItsAlert | internal/inspector/inspector.go:228-237 | while its own rule is not taken away and its own alert not acknowledged by hand, a drifting item of an idle host has an unacknowledged alert, whatever happens to other items and hosts and whichever reads are lost |
| DriftLog.SilencedIffUnlisted | internal/inspector/inspector.go:228-237 | when an inspection that found no drift ends, an item in drift when it read its rules is left in drift without an alert if and only if those rules did not include its own |
| DriftLog.SilencedUntilResolved | internal/inspector/inspector.go:1172-1214 | in any continuation in which its stored status stays drift, its rule enabled again or not, the alerts raised for such an item are as many as the reports on it after a lost read; without one it stays silenced, and there is none unless a read fails |
| DriftLog.DisabledRuleSilencesDrift | internal/store/db.go:1124-1136 | a run from the empty database that silences an item in drift |
| DriftLog.FailedCallsChangeNothing | internal/inspector/inspector.go:155-225 | a call whose scrape fails or whose deadline passes in the loop can leave, frees its host, and changes no item, incident or alert |
| DriftLog.UserAckIsLocal | internal/store/db.go:1124-1127 | acknowledging an alert by hand acknowledges that alert and changes nothing else |
| DriftLog.TurnRun | internal/inspector/inspector.go:1146-1231 | one undisturbed turn of the rule loop, its status read lost or not, is a run of the machine with the stated effect on items, incidents and alerts |
| DriftLog.Inspector.RecordOutcome | internal/inspector/inspector.go:1172-1227 | one turn of the rule loop, undisturbed, its status read lost or not, is a run of the machine with the stated effect on all tables |
| DriftLog.Inspector.EvaluateDesiredRules | internal/inspector/inspector.go:1146-1231 | the whole loop, undisturbed, whichever of its status reads are lost, is a run of the machine from the first rule to the last |
| RateLimiter.HashIP | internal/web/rate_limiter.go:37-44 | the accumulator loop computes the hash as a fold over the bytes of the address |
| RateLimiter.PublishedHashes | internal/web/rate_limiter.go:37-44 | the hash takes the published 32-bit FNV-1a values on the empty text, "a" and "foobar" |
| RateLimiter.NeighboursSpread | internal/web/rate_limiter.go:37-51 | addresses that differ in the last byte only share a shard exactly when those bytes agree in their low four bits |
| RateLimiter.NextSound | internal/web/rate_limiter.go:47-105 | every request and sweep keeps tokens within 0 and burst, each address in the shard of its hash, and every shard within its cap |
| RateLimiter.RunSound | internal/web/rate_limiter.go:47-105 | the same over whole runs |
| RateLimiter.ShardingIsInvisible | internal/web/rate_limiter.go:47-105 | when a full bucket refills within ten minutes, decisions equal those of one unbounded, never reaped bucket per address if and only if no new address meets a full shard |
| RateLimiter.ServerLimiter | internal/web/server.go:147 | the limiter the server makes refills in time, so the same holds of it |
| RateLimiter.SlowLimiterShowsReaping | internal/web/rate_limiter.go:83-105 | refilling in time is needed: every slower limiter has a run that meets no full shard and on which reaping changes a decision |
| RateLimiter.WindowBound | internal/web/rate_limiter.go:47-105 | after any run, a window of length d lets an address through at most burst + rate * d times: for every limiter if no sweep deletes its bucket within the window, and in any case if a full bucket refills within ten minutes |
| RateLimiter.EverySlowLimiterBreaksTheBound | internal/web/rate_limiter.go:83-105 | that condition is exact: every limiter that refills more slowly has a run that exceeds the bound |
| RateLimiter.SpacedRequestsPass | internal/web/rate_limiter.go:47-80 | requests of an address at least 1 / rate apart are never refused while there is room for that address, whoever else is refused |
| RateLimiter.PresentAddressPasses | internal/web/rate_limiter.go:47-80 | with a bucket that no sweep deletes such requests are never refused, however full the shards are |
| RateLimiter.ShardedRateLimiter.constructor | internal/web/rate_limiter.go:29-35 | sixteen empty shards |
| RateLimiter.ShardedRateLimiter.Allow | internal/web/rate_limiter.go:47-80 | the method's decision and new shards are those of the specification |
| RateLimiter.ShardedRateLimiter.Sweep | internal/web/rate_limiter.go:83-105 | the deletion loops leave exactly the buckets used in the last ten minutes |
| RateLimiter.SweepDeletesTheIdle | internal/web/rate_limiter.go:94-100 | a sweep deletes exactly the buckets unused for more than ten minutes and changes no other |
| RunLog.DeleteIsByRank | internal/store/db.go:968-970 | the delete whose subselect lists the ids to keep removes exactly the rows with a hundred newer ones in their bucket |
| RunLog.InsertAndPrune | internal/store/db.go:957-972 | an insert and both deletes leave what the longer history prescribes |
| RunLog.DeletesIgnoreOtherHosts | internal/store/db.go:968-970 | a row of another host inserted before a delete neither takes part in it nor changes what it removes |
| RunLog.DeletesCommute | internal/store/db.go:968-970 | deletes for different hosts or outcomes may run in either order |
| RunLog.CountPruned | internal/store/db.go:957-972 | a bucket holds the smaller of a hundred and all its runs |
| RunLog.ListHoldsTheNewest | internal/store/db.go:974-1002 | a listing holds only rows asked for, by strictly decreasing id; a row asked for is left out only if the limit is reached, and is then older than all listed |
| RunLog.PruningIsInvisible | internal/store/db.go:957-1002 | with a limit of at most a hundred a listing, unfiltered or of issues, is that of the never-pruned log |
| RunLog.LongerListingsLose | internal/web/server.go:1425-1434 | every larger limit gives a different listing on some history, unfiltered and of issues |
| RunLog.AntiFlapping | internal/inspector/inspector.go:1948-1958 | the outage choice is the one the full history gives; after a failed run it is outage exactly when the run before failed too, there was none, or the runs could not be read |
| RunLog.HostUpStatus | internal/inspector/inspector.go:1958-1960 | a host that is not down is never in outage, and degraded exactly when it is degraded or unknown |
| RunLog.RunTable.RecordInspectionRun | internal/store/db.go:957-972 | the table is the pruned form of the longer history after every insert |
| RunLog.RunTable.ListInspectionRuns | internal/store/db.go:974-1002 | the newest rows of the host - for issues, those of runs that were not ok - newest first, up to the limit, which is 50 unless positive; with a limit of at most a hundred those of the full history |
| Metrics.Scan | internal/store/db.go:1929-1952 | the first loop numbers the distinct timestamps in ascending order and collects the metrics |
| Metrics.Pivot | internal/store/db.go:1929-1962 | strictly increasing timestamps, and every series has exactly one slot per timestamp holding the last value for it |
| Metrics.SlotIsMean | internal/store/db.go:1913-1972 | every slot is the mean of its metric's samples in the bucket, 0 when there are none |
| Metrics.MeanWithin | internal/store/db.go:1913-1972 | a filled slot lies between any bounds its samples respect |
| Metrics.Conservation | internal/store/db.go:1913-1972 | means weighted by counts sum to the samples of the metric: nothing is lost or counted twice |
| Metrics.FewTimestamps | internal/store/db.go:1913-1921 | every timestamp is a multiple of the step, and there are at most (to - from) / step + 2 of them |
| Metrics.RawSlots | internal/store/db.go:1906-1972 | without a step every sample's second has a column, holding a sample of that second |
| Metrics.GetMetricSamplesFiltered | internal/store/db.go:1876-1972 | for any rows SQLite may answer, the result is the pivot; exactly the metrics and buckets of wanted samples of the table have a series and a timestamp; each series, weighted by counts, sums to the wanted samples of its metric over the whole table |
| Metrics.SelectsTheWanted | internal/store/db.go:1876-1912 | a sample is selected as often as it is stored if it has the host, lies in the range - by default the day up to now - and passes both metric lists, and otherwise never |
| Metrics.BucketHoldsTime | internal/store/db.go:1913-1917 | a bucket begins at a multiple of the step, at most a step before its samples |
| Metrics.LastRowWins | internal/store/db.go:1959-1962 | of several rows for one slot the last stays in it |
| Rollups.RowIsTheFold | internal/store/status_page.go:243-278 | the incremental row counts each kind of the day's checks, an unknown one as a success, the kinds add up, and its uptime is their share to the nearest hundredth, within 0 and 100 |
| Rollups.Round2Rounds | internal/store/status_page.go:273 | rounding gives a whole number of hundredths, off by at most half of one, halves upward |
| Rollups.OperationalDay | internal/store/status_page.go:623-629 | a day shows operational exactly when no degraded or outage check was recorded |
| Rollups.OutageDay | internal/store/status_page.go:623-629 | a day shows an outage if and only if the share of its checks, an unknown one a success and a degraded one half, is below 94.995 percent |
| Rollups.BetterCheckNeverHurts | internal/store/status_page.go:623-629 | replacing a check by a better one never worsens the day |
| Rollups.PruningKeepsTheWindow | internal/store/status_page.go:309-317 | over any run, the table with deletions and the one without agree on the last ninety days |
| Rollups.PruningIsInvisible | internal/store/status_page.go:281-317 | no listing on that or any later day shows a deletion |
| Rollups.PruneTakesTheOld | internal/store/status_page.go:309-317 | a deletion takes exactly the rows more than ninety days old and changes no other |
| Rollups.WindowHoldsTallies | internal/store/status_page.go:243-317 | after any run every row in the window is the tally of all checks ever recorded for its day |
| Rollups.TargetView | internal/store/status_page.go:597-650 | the loops fill each of the ninety points once, for consecutive days ending today, and total the listed rows |
| Rollups.HistoryIsComplete | internal/store/status_page.go:616-650 | every day shown is shown as the whole table has it, even if midnight passes between clock and query |
| Rollups.PointsSpelled | internal/store/status_page.go:620-650 | a day with a row shows its level and uptime, a past day without one is operational at 100, today without one shows the current status |
| Rollups.UptimeIsWeightedMean | internal/store/status_page.go:598-613 | the ninety-day uptime is the check-weighted mean of the listed days to the nearest hundredth, within 0 and 100 |
| Rollups.UptimeAfterAnyRun | internal/store/status_page.go:598-613 | the same after any run of checks and deletions |
| Rollups.HiddenDayLaw | internal/store/status_page.go:598-613 | before rounding, the ninety-day figure lies on the same side of the mean of the days shown as the percentage of the one hidden date, and equals that mean when that date has no row; the hidden date is the ninety-first, or the day just begun if midnight passes between clock and query |
| Rollups.HiddenDayIsNeutralIff | internal/store/status_page.go:598-613 | the figure is that of the days shown if and only if the hidden date has no row or that very percentage |
| Rollups.HiddenDayCounts | internal/store/status_page.go:281-286 | a table whose hidden date alone changes the uptime from 100 to 0 and no point |
| Rollups.RollupTable.RecordDailyRollup | internal/store/status_page.go:243-278 | the table after one UPSERT |
| Rollups.RollupTable.PruneDailyRollups | internal/store/status_page.go:309-317 | the table after one deletion |
| RuleTargets.ReadsOk | internal/store/status_page.go:581 | the expected texts that compare equal to "ok", under Unicode case folding |
| RuleTargets.TellsHealthIff | internal/inspector/inspector.go:1962-1979 | a rule is recorded as operational when healthy and not otherwise, if and only if its host is not down and its expected text reads "ok" |
| RuleTargets.LooksAlikeIff | internal/store/status_page.go:570-589 | healthy and drifting rules get the same status if and only if the host is down or the expected text reads neither "ok" nor "drift"; with the host up that status is never operational |
| RuleTargets.WithoutComparison | internal/inspector/inspector.go:1962-1979 | a host that is down is an outage; a rule or item that cannot be found, and an item stored as empty, running or active, is operational |
| RuleTargets.DayHidesHealth | internal/inspector/inspector.go:1936-1985 | over a day with the host up, such a rule gets the same row whatever the checks found - uptime 0 for services, ports, containers and processes, 50 for others - and the day is shown as an outage |
| RuleTargets.BaselineNeverOperational | internal/inspector/inspector.go:1466-1558 | this is so for every rule of a generated baseline |
| AutoTriage.AlertLanguage | internal/netdiag/service.go:371-445 | the messages of a preset form incident reminder* recovery, repeated; consecutive alerts of one incident are at least an hour apart, a recovery and the next incident at least the shortest interval; an incident start is set exactly while the last verdict is neither empty nor healthy, which is exactly while an incident is open |
| AutoTriage.VisitSends | internal/netdiag/service.go:380-445 | after any run, for any next visit and preset: the last verdict is that of the last triage with a result, told from the visits alone; a first bad verdict sends one incident and sets the start, a further one sends one reminder if and only if an hour has passed since the last message, a healthy one after it sends one recovery, and nothing else sends anything |
| AutoTriage.HealthyPresetsRest | internal/netdiag/service.go:380-383 | after a healthy verdict the next triage of the preset, whether it gives a result or fails, waits for the interval |
| AutoTriage.RunJoins | internal/netdiag/service.go:352-445 | several cycles are one run over all their visits |
| AutoTriage.Service.RunAutoTriageCycle | internal/netdiag/service.go:352-445 | the loop over the presets computes that run, to which `VisitSends` and `AlertLanguage` apply |
| ShellQuoting.QuoteRoundTrip | internal/storagetriage/storagetriage.go:205-207 | the shell reads the quoted form of any NUL-free string as one word, that string |
| ShellQuoting.QuoteIsInjective | internal/inspector/inspector.go:23-25 | different NUL-free strings have different quoted forms |
| ShellQuoting.SpecialRefused | internal/storagetriage/storagetriage.go:205-207 | the lexer that the results speak of gives up on every unquoted start of an expansion, pattern, comment or double-quoted text |
| ShellQuoting.ArgumentListRoundTrip | internal/netdiag/service.go:51-53 | any list of NUL-free arguments, quoted one by one and joined by blanks, is read back unchanged |
| ShellQuoting.LineLexes | internal/storagetriage/storagetriage.go:1083-1093 | a line of bare words, quoted strings and operators lexes to exactly those tokens |
| ShellQuoting.TruncateLexes | internal/storagetriage/storagetriage.go:1040 | the truncate command is four words, the last of them the target |
| ShellQuoting.ReloadLexes | internal/storagetriage/storagetriage.go:1041-1049 | the reload command is three words, the last of them the unit |
| ShellQuoting.PlainLineLexes | internal/storagetriage/storagetriage.go:1088-1092 | the command reaches sh -c as one argument |
| ShellQuoting.SudoLineLexes | internal/storagetriage/storagetriage.go:1083-1086 | the password reaches printf and the command reaches sh -c, each as one untouched argument |
| ShellQuoting.WrapperBodyLexes | internal/storagetriage/storagetriage.go:1088-1092 | whichever branch of the wrapper without a password is taken, the command reaches sh -c as one argument |
| ShellQuoting.BothLayers | internal/storagetriage/storagetriage.go:1040-1092 | through both shells the target stays one word, whatever it and the password contain |
| Broadcaster.StepInv | internal/logger/logger.go:69-121 | every commit, send, receive, subscription and unsubscription keeps the ring buffer and every channel's balance |
| Broadcaster.HistoryIsTheLast | internal/logger/logger.go:69-83 | after n broadcasts in any interleaving the history is the last min(n, cap) messages in order, numbered up to n |
| Broadcaster.AtMostOnce | internal/logger/logger.go:91-98 | an event reaches a channel at most once and only if committed while it was subscribed |
| Broadcaster.NothingUnaccounted | internal/logger/logger.go:85-98 | once no send is outstanding, received, queued and dropped together are the events committed while subscribed |
| Broadcaster.SubscribersAreOffered | internal/logger/logger.go:85-105 | until it unsubscribes, a subscriber is on the list of every event committed |
| Broadcaster.NothingAfterUnsubscribe | internal/logger/logger.go:106-111 | once it has unsubscribed, a channel neither gets nor is on the way to get any later event |
| Broadcaster.ShortSubscriptionsLoseNothing | internal/logger/logger.go:91-104 | a subscription that spans at most 64 broadcasts loses none |
| Broadcaster.SerialRunsDeliverInOrder | internal/logger/logger.go:69-98 | when broadcasts do not overlap every subscriber gets ascending numbers |
| Broadcaster.OverlapReorders | internal/logger/logger.go:91-98 | from every reachable state with two events on their way to a channel with room for both, two sends leave what is delivered out of order |
| Broadcaster.LaterArrivesFirst | internal/logger/logger.go:91-98 | such a state is reached by two broadcasts to one subscriber |
| Broadcaster.StreamMisses | internal/web/handlers_logs.go:31-58 | an event from the history on is missing from a log stream exactly when it was committed between reading the history and subscribing, or its full channel dropped it |
| Broadcaster.NothingShownTwice | internal/web/handlers_logs.go:31-58 | at any moment of a stream, no event is in the history and the channel together more than once |
| Broadcaster.StreamIsCompleteIff | internal/web/handlers_logs.go:31-58 | the stream shows every event from its history on exactly when nothing was committed in between and nothing was dropped |
| Broadcaster.LogBroadcaster.constructor | internal/logger/logger.go:40-49 | an empty broadcaster; a capacity that is not positive becomes a hundred |
| Broadcaster.LogBroadcaster.AddToRing | internal/logger/logger.go:78-83 | a full ring is shifted in place and its oldest event lost, otherwise the event is appended |
| Broadcaster.LogBroadcaster.CommitEvent | internal/logger/logger.go:70-89 | the locked part is the commit step and returns the subscribers of that moment |
| Broadcaster.LogBroadcaster.SendAll | internal/logger/logger.go:91-98 | the sends of a broadcast are a run of the machine that offers the event to each subscriber once and to no one else |
| Broadcaster.LogBroadcaster.Broadcast | internal/logger/logger.go:69-98 | an undisturbed call is a commit and one send per subscriber, and leaves every other channel as it was |
| Broadcaster.LogBroadcaster.Subscribe | internal/logger/logger.go:101-105 | a new empty channel is subscribed |
| Broadcaster.LogBroadcaster.Unsubscribe | internal/logger/logger.go:106-111 | the method is the step after which the channel gets no later event |
| Broadcaster.LogBroadcaster.History | internal/logger/logger.go:115-121 | the last events of the log |
| InspectAll.OneSweepAtATime | internal/web/server.go:990-1041 | in every interleaving at most one sweep is open and the flag says so |
| InspectAll.FiveAtMost | internal/web/server.go:1042-1054 | a sweep never has more than five inspections running |
| InspectAll.LaunchIff | internal/web/server.go:1044-1047 | the next host of a sweep can be launched if and only if one is left and fewer than five workers hold a slot |
| InspectAll.EachHostOnce | internal/web/server.go:1044-1055 | when the flag clears each listed host has been asked for exactly once, and was inspected or refused by the in-flight guard |
| InspectAll.RefusedIff | internal/inspector/inspector.go:103-108 | a worker is refused if and only if someone outside its sweep is inspecting the host at that moment |
| InspectAll.InspectedIff | internal/web/server.go:1044-1055 | a finished sweep has inspected a host of its list exactly once, unless it was so taken when its worker asked, and then not at all |
| InspectAll.InspectedAllIff | internal/web/server.go:1044-1055 | a finished sweep has inspected its whole list if and only if no worker found its host taken |
| InspectAll.CountLeavesAGap | internal/web/server.go:990-1031 | a run in which an inspection starts between the count and the flag, none starts afterwards, and the sweep leaves the host out |
| InspectAll.UndisturbedSweepInspectsAll | internal/web/server.go:990-1055 | if nothing else starts an inspection from the count on, a finished sweep has inspected each listed host once |
| InspectAll.CooldownKept | internal/web/server.go:1001-1012 | a sweep begins at least 15 seconds after every earlier one ended |
| InspectAll.NeverStuck | internal/web/server.go:1034-1056 | an open sweep can always take a step of its own |
| InspectAll.StepsRunOut | internal/web/server.go:1034-1056 | a sweep ends within 5 * hosts + 1 of its own steps |
| InspectAll.StatusPredictsPost | internal/web/server.go:968-1012 | what a GET reports is what a POST at that moment would meet |
| InspectAll.RemainingIsExact | internal/web/server.go:1001-1012 | the seconds a refused POST is told suffice, and one fewer does not |
| InspectAll.AnswersIff | internal/web/server.go:990-1031 | the answer of a POST, case by case: in flight comes before the cooldown, the cooldown before the host list, and only a list with hosts starts a sweep |
| InspectAll.PostAfterWait | internal/web/server.go:990-1033 | with nothing in flight, a POST after any wait starts a sweep if and only if fifteen seconds have passed since the last one |
| InspectAll.Server.Post | internal/web/server.go:990-1062 | an undisturbed POST is a run of the machine and gets the answer its checks call for |
| InspectAll.Server.Finish | internal/web/server.go:1036-1041 | the deferred function is the step of the machine that closes the sweep |
| Sections.SplitMetricsSections | internal/inspector/inspector.go:366-383 | the loop computes the sections of the lines |
| Sections.ScanCounts | internal/inspector/inspector.go:366-383 | every marker line ends one section, whatever else the output holds |
| Sections.MarkerIff | internal/inspector/inspector.go:370 | a marker line is three dashes with any white space around them |
| Sections.SplitJoined | internal/inspector/inspector.go:366-383 | joined sections without marker lines come back without their leading newlines |
| Sections.SplitUndoesJoin | internal/inspector/inspector.go:366-383 | splitting undoes joining exactly for lists in which no section has a marker line or starts with a newline |
| Sections.SplittingIsStable | internal/inspector/inspector.go:366-383 | for every output, joining and splitting its sections again changes nothing |
| Versions.CompareVersions | internal/updater/updater.go:240-272 | the loop answers -1, 1 or 0 exactly as the zero-padded lexicographic order of the components says, with development tags least |
| Versions.ReleaseOrder | internal/updater/updater.go:240-272 | printed lists of numbers are compared number by number, the shorter continued by zeros |
| Versions.DevelopmentTags | internal/updater/updater.go:243-252 | dev and the empty tag, with or without a v, are equivalent and older than any other tag |
| Versions.PrintedValue | internal/updater/updater.go:258-263 | a component that is a printed number counts as that number, up to the largest of 64 bits |
| Versions.AtoiReadsDigits | internal/updater/updater.go:258-263 | digits count for what they are worth if nothing follows them, for nothing otherwise, and are clamped when they do not fit into 64 bits |
| Versions.Trichotomy | internal/updater/updater.go:235-272 | of two tags exactly one is older, or they are equivalent |
| Versions.TotalPreorder | internal/updater/updater.go:235-272 | "not newer than" is reflexive, total and transitive, and both ways means equivalent |
| Versions.LeadingV | internal/updater/updater.go:241-242 | one leading v makes no difference |
| Versions.TrailingZero | internal/updater/updater.go:255-271 | a trailing .0 makes no difference exactly for releases |
| Versions.SuffixIgnored | internal/updater/updater.go:258-263 | what follows a dash in a component does not count |
| Versions.SuffixLaw | internal/updater/updater.go:255-271 | a suffix after a dash never makes the numbers of a tag smaller; it makes them larger if and only if a part behind one of its dots is positive, and otherwise leaves them the same |
| Versions.SuffixedTag | internal/updater/updater.go:240-271 | the same for whole tags: never older, newer if and only if the suffix adds a number or the tag was a development one, equivalent otherwise |
| Versions.PreReleaseIsNewer | internal/updater/updater.go:255-271 | -rc.1 makes every release newer and -beta makes no difference to any |
| Login2FA.DynamicTruncation | internal/web/totp.go:51-55 | the code bits are the four bytes at the offset without their top bit, and the offset never points past the 20-byte MAC |
| Login2FA.OffsetIsLowBits | internal/web/totp.go:51 | the offset is the last byte modulo 16 |
| Login2FA.PublishedExample | internal/web/totp.go:51-58 | the example of section 5.4 of RFC 4226 comes out as 872921 |
| Login2FA.Truncate | internal/web/totp.go:51-57 | the value is below a million |
| Login2FA.OTPSpellsValue | internal/web/totp.go:57-58 | the password is six digits that spell the value |
| Login2FA.ValidateTOTP | internal/web/totp.go:63-85 | accepted exactly when the code is that of a step within one of the current one and after the last used step; the step is returned |
| Login2FA.MatchedIsEarliest | internal/web/totp.go:71-83 | it is the earliest step of the three that the code fits |
| Login2FA.StepIsHalfMinute | internal/web/totp.go:69 | a time step is the half minute the clock is in |
| Login2FA.ValidateRecoveryCode | internal/web/totp.go:113-133 | accepted exactly when the hash is stored; then exactly one occurrence is removed, otherwise nothing |
| Login2FA.StepsRise | internal/web/server.go:432-448 | over any run of calls the stored step is the last accepted one, and accepted steps strictly increase if and only if no call replays a step |
| Login2FA.StepReadsPreventReplay | internal/web/server.go:433-440 | in runs that lose no read of the stored step nothing is replayed |
| Login2FA.ReplayIff | internal/web/server.go:432-448 | some code lets a login replay a step if and only if it meets a live challenge, its read of the stored step is lost, and one of the three steps around the clock is positive, not after the stored one, and can be signed |
| Login2FA.UsedPasswordAgain | internal/web/server.go:434-442 | a password that was accepted for a positive step is accepted again by a login at that time which loses the stored step |
| Login2FA.AcceptedInWindow | internal/web/server.go:432-448 | each accepted step is within one of the clock and after the step that was read, and its password - under the stored secret, or under the empty key if the secret could not be read - is the trimmed code that was sent |
| Login2FA.RecoveryConserved | internal/web/server.go:450-465 | stored hashes at the start are those left plus those used, as multisets, whichever reads are lost |
| Login2FA.OneSessionPerChallenge | internal/web/server.go:413-465 | a challenge grants at most one session |
| Login2FA.FiveAttemptsPerChallenge | internal/web/server.go:425-470 | a challenge lets at most five codes be checked |
| Login2FA.ChecksAreCounted | internal/web/server.go:413-475 | a challenge is issued with five checks; a code is checked exactly while it is in time and has any left; a wrong one costs one check and is told how many are left, a right one ends it, and no other challenge is touched |
| Login2FA.GrantedIff | internal/web/server.go:432-465 | a checked login gets in by the code of an unused step within one of the current one or, failing that, by a stored recovery code, and by nothing else |
| Login2FA.Server.HandleLogin2FA | internal/web/server.go:413-475 | the handler's answer and new state are those of one call of the run, whichever of its reads are lost |

## Left out

- StatusCache: the loading of targets and hosts is abstracted to a list of keys read one by one, of which any may be misread or fail; HTML rendering, gzip and ETags are not modelled.
- DriftLog: `ImportSnapshot` and the deletion of a host, which wipe rows under a running inspection, are not steps; what the SSH commands report is an arbitrary ok or drift per rule.
- RateLimiter: the reaper's ticker and context, and `float64` rounding.
- RunLog: a reader between an insert and its deletes; the three statements are one step of the table, and `DeletesIgnoreOtherHosts` and `DeletesCommute` say why the statements of other hosts in between do not matter.
- Metrics: the SQL text, the metric-name expansion in the HTTP handler and rounding of averages.
- Rollups: dates are day numbers; the aggregation of target levels into the overall page status; the query of a target's rows succeeds (its error is discarded, and the target is then shown as one without rows).
- RuleTargets: the loop over the targets of a host; what the commands of a rule report; stored texts other than "ok" and "drift", which only an import can bring in.
- AutoTriage: the triage itself and its verdict switch are an arbitrary outcome; notification delivery.
- ShellQuoting.WrapperBodyLexes: starts behind the wrapper's `then`; the test before it is fixed text with a command substitution in double quotes, which the lexer does not read.
- ShellQuoting: the path checks and the fixed cleanup commands are not modelled. An operator is reported one character at a time.
- Broadcaster: redaction of messages and attributes; channels are never closed in the code and not here.
- InspectAll: HTTP and JSON; the host list is any list of distinct ids or an error.
- Sections: the parsing of each section's content.
- Versions: `int` is 64 bits wide.
- Login2FA: HMAC-SHA-1, SHA-256, Base32 and bcrypt are unknown functions; concurrent calls of the handler, which read and write the stored step without a lock; enabling and disabling the second factor, which reset the stored step.
- Parsers, OS detection, lifecycle scores, file transfer, terminals, tunnels, WebSockets, self-update download, notifications and GitHub synchronisation: input/output, library regular expressions or branch-by-branch code.
