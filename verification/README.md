# Verified model of the mining proxy's decisions

A Stratum proxy makes most of its decisions in small state machines over time:
how counters become hourly points, when the farm is on another pool, who may
try to log in, which address is healthy, which coin to mine, which sessions to
close, which alerts to send. This project models those machines in Dafny and
proves what they promise over whole runs, with crashes and interleavings where
the program has them.

Every stateful part has the same three layers. A function on values says what
one operation does to the state and which durable writes it makes. A class with
the program's fields and loops is proved against that function. Lemmas then
prove properties of the function over every run of operations.

| modules | subject |
|---|---|
| `HistoryPoint`, `HistoryRollup`, `HistoryRuns`, `HistoryRecorder`, `HistoryQuery` | merging of points, the two-tier roll-up with recovery, runs with a crash between any two appends, chart buckets |
| `HistoryGains`, `HistoryCharts` | what the history holds, said by the samples alone; where each minute goes |
| `TimedSwitch`, `TimedRuns`, `TimedBudget`, `TimedChoice`, `TimedExamples` | the away/return machine over `timed.json` and `state.json`: way home, time budget, the operator's choice, and farms where a promise fails |
| `TimedPeriods`, `TimedRules`, `TimedBooking` | the schedule of periods, the rules of a whole step in numbers, and the exact booked time |
| `RealTimeTarget`, `BlockHunt` | eCash's real-time target, and block hunting against the chain |
| `LoginGuard`, `GuardHistory` | sliding windows, locks and pruning of the login guard; its answers as its whole history gives them |
| `AddressChoice`, `PoolHealth`, `HealthRuns`, `HealthVerdicts`, `PoolProbes` | latency median and address choice, health counters, versioned concurrent checks, when an address is UP or DOWN |
| `ProfitSwitch`, `ProfitAdvice` | one profit check, what its advice means, and where following it leads |
| `SessionDrain` | numbered drains, each with its own goroutine |
| `AlertLimiter`, `AlertRuns`, `AlertNews` | the Telegram alert limiter, and when it sends what |
| `PoolFile`, `PoolId`, `PoolManager`, `PoolStore`, `PoolEffects`, `PoolCrowd` | `state.json`: its check, the pool operations and what they change, new ids, and the file that has no id left |
| `HashrateRing`, `NameOrder` | the ring of minute buckets, the natural order of names |
| `Basics`, `ExamplePools` | letters and sizes of sets; the pools of the examples |

`dafny verify dfyconfig.toml` checks all of it.

## Conventions and assumptions

Times are integers: nanoseconds, or seconds in the history points, with 0 for
Go's zero time. Floating point numbers are reals, `uint64` counters are
integers. A character stands for a byte, or for a rune where the program counts
runes. The market lists each coin under its own tag. A file write happens
whole or not at all. The clock does not go back unless a statement says
otherwise. Maps are iterated in any order.

- History: records are at least half a second apart (closer ones record
  nothing, `internal/history/history.go:189-195`), the fine retention is fixed
  and at least a day, and only files older than the retention are deleted.
- Timed switching: a step is atomic against the operator and reads the clock
  once. Spent durations are exact.
- Health: a check, a dial or a session may carry an old version of its pool;
  dials are recorded whether or not the address is still configured. Settings
  reach the listener some time after they changed.

## Findings

- The wait of block hunting after a pool chosen by hand is kept in memory only.
  After a restart the next step hunts if and only if the timer is not due, the
  pool check passes, and block hunting is on, sees blocks, finds a block easy
  and goes to another pool than the chosen one
  (`TimedChoice.StandsOverRestartUnless`; `TimedExamples.RestartForgets` is a
  farm with a valid file). The timer's part of the promise is saved and
  survives (`TimedChoice.TimerChoiceStands`, `TimedChoice.TimerStaysOver`).
- A new pool's id is valid if and only if a number that fits behind its base in
  32 characters is free: always with fewer than 9,999,999 pools, not with fewer
  than ten million. The crowd that takes all of them is a valid file that
  creating pools one by one reaches, and the store's own check turns the next
  pool down (`PoolId.FreeIdValid`, `PoolStore.RejectedExactlyWhen`,
  `PoolCrowd.CrowdIsReached`, `PoolCrowd.NextIsRejected`).
- When the proxy stops between the switch to the target and the second save,
  the farm still comes home, but a target that was in the fallback order is
  missing from the restored one, and at no other point is a pool lost
  (`TimedRuns.OrderLostExactlyWhen`; `TimedExamples.TargetIsLost` is a farm
  with a valid file).
- The rule that the return margin is not above the margin
  (`internal/settings/registry.go:407-410`) is what makes profit switching
  converge: without it the farm could bounce for ever
  (`ProfitSwitch.WouldBounce`).

## Model

| member | source | states |
|---|---|---|
| HistoryPoint.AddInto | internal/history/point.go:48-92 | merging computes the algebra's `Add`: counts add up, miner numbers are time-weighted means, workers merge by name, in any order of the map keys |
| HistoryPoint.AddKeepsMinerSeconds | internal/history/point.go:48-50 | a merge stands for the same miner-seconds, in total and per pool, with a missing pool as zero |
| HistoryPoint.AddAssociates | internal/history/point.go:48-92 | merging is associative |
| HistoryPoint.FoldOfGroups | internal/history/point.go:48-92 | merging the merged groups of any split into consecutive groups gives what merging the flat list gives |
| HistoryPoint.ComputeDelta | internal/history/point.go:107-138 | the totals point between two samples |
| HistoryPoint.ComputeWorkersDelta | internal/history/point.go:140-169 | the worker point between two samples; a worker connected at the second one counts as online for all of the interval |
| HistoryPoint.DeltasConserve | internal/history/point.go:107-138 | the merged differences of growing counters are what they gained from the first sample to the last, in total and per pool |
| HistoryPoint.WorkersDeltasConserve | internal/history/point.go:140-169 | the same for every worker |
| HistoryGains.WorkersAddUp | internal/history/point.go:140-169 | for any samples, counters that go back included, the merged worker points hold the rises of each worker's counters and, as its seconds online, the lengths of the intervals at whose end it had a connection |
| HistoryGains.PoolsAddUp | internal/history/point.go:107-138 | the merged totals points hold the rises of the counters and the miner-seconds of the farm and of each pool: the miners at the end of each interval times its length |
| HistoryRecorder.Series.FlushLocked | internal/history/history.go:222-241 | a finished interval is appended and rolled into its hour, which is appended when it is over |
| HistoryRecorder.Series.AddLocked | internal/history/history.go:205-220 | a minute goes to its fine interval; the interval is flushed when complete or when a gap moved past it |
| HistoryRecorder.Series.Recover | internal/history/history.go:125-159 | recovery appends the hours that are over and keeps the current one in memory |
| HistoryRecorder.Recorder.Start | internal/history/history.go:110-123 | the first sample of a run, and recovery of both series |
| HistoryRecorder.Recorder.RecordLocked | internal/history/history.go:183-203 | a record adds the difference since the previous one to both series, or nothing when the clock went back or hardly any time passed |
| HistoryRecorder.Recorder.Stop | internal/history/history.go:169-181 | a stop records the unfinished minute, unless the clock went back or hardly any time passed, and always appends the unfinished intervals |
| HistoryRollup.FlushKeeps | internal/history/history.go:222-241 | a flush, and every crash between its appends, keeps each hour counted once |
| HistoryRollup.MinuteKeeps | internal/history/history.go:205-220 | adding a minute, and every crash while it is written, keeps the invariant of disk and memory |
| HistoryRollup.RecoverKeeps | internal/history/history.go:125-159 | recovery from any disk a crash left is safe at every append and leaves every hour that counts on disk or in memory |
| HistoryRollup.RecoveryWrites | internal/history/history.go:125-159 | recovery appends exactly the hours that are over and have fine points inside the retention and after the newest hour on disk, each merged from those |
| HistoryRollup.PruneKeeps | internal/history/history.go:249-264 | deleting old files keeps the invariant |
| HistoryRuns.NextKeeps | internal/history/history.go:110-241 | every event of a run, crash or not, keeps the invariant |
| HistoryRuns.ExactlyOnce | internal/history/history.go:125-159 | after any run with crashes between any two appends, each hour inside the fine retention has its coarse points on disk and the one in memory equal to the merge of its fine points |
| HistoryRuns.CrashLeavesHoursRight | internal/history/history.go:222-241 | after a crash at any point every hour up to the newest one on disk is right |
| HistoryRuns.MinutesAreKept | internal/history/history.go:205-241 | whatever is flushed on the way, the fine points and the interval being filled gain exactly the recorded minutes |
| HistoryRuns.NothingIsLost | internal/history/history.go:183-241 | without a crash the fine points and the interval being filled add up to what the counters gained since the start, in total and per pool |
| HistoryRuns.NoWorkerIsLost | internal/history/history.go:183-241 | the same for every worker |
| HistoryGains.WorkersAreRecorded | internal/history/history.go:183-241 | without a crash the fine points and the interval being filled hold exactly each worker's rises and seconds online, counted on the samples |
| HistoryGains.MinersAreRecorded | internal/history/history.go:183-241 | and the rises and miner-seconds of the farm and of each pool |
| HistoryCharts.IntervalsHoldTheirMinutes | internal/history/history.go:205-241 | each fine interval holds exactly the differences of the minutes that began in it |
| HistoryCharts.MinuteLands | internal/history/history.go:205-220 | a minute is added to the interval it began in and changes no other, on disk or in memory |
| HistoryCharts.WritesInTime | internal/history/history.go:205-241 | a minute that ends an interval writes it, and with it the hour when that is over |
| HistoryQuery.ChooseStep | internal/history/query.go:33-40 | the smallest round step that is not below what is needed, else 30 days |
| HistoryQuery.Fill | internal/history/query.go:58-63 | each bucket ends up as the merge of the points that start in it |
| HistoryQuery.EachInOneBucket | internal/history/query.go:58-63 | the buckets together hold every point of the range exactly as often as it was read |
| HistoryQuery.EnoughBuckets | internal/history/query.go:26-41 | the buckets cover the range, and there are at most maxPoints + 1 while the needed step is at most 30 days |
| HistoryQuery.SeriesBuckets | internal/history/query.go:19-65 | the points of a range from the right tier and from memory, in buckets of one listed step that begin at a multiple of it, not after the range, and reach its end |
| HistoryCharts.ChartHolds | internal/history/query.go:19-65 | a chart takes every point of its range from the tier it reads and from memory, each as often as it is there |
| HistoryCharts.ReadsFineExactlyWhen | internal/history/query.go:26-33 | the fine tier is read exactly for ranges of up to three days inside its retention |
| HistoryCharts.NeedIsLeast | internal/history/query.go:33-40 | the length asked for is the least one, not under the tier's, with which the points cover the range |
| TimedSwitch.Switcher.constructor | internal/timed/timed.go:126-141 | the switcher starts from its file, old files included |
| TimedSwitch.Switcher.Leave | internal/timed/timed.go:369-399 | saves the way back, switches, saves the new order; a failed switch is forgotten and not tried again at once |
| TimedSwitch.Switcher.Back | internal/timed/timed.go:401-429 | restores home and fallback order, or lets the operator's switch stand |
| TimedSwitch.Switcher.Ended | internal/timed/timed.go:431-446 | books a stint of the current period, or records a hunt |
| TimedSwitch.Switcher.Prune | internal/timed/hunt.go:53-59 | keeps the hunts of the last day, at most 1440 |
| TimedSwitch.KeptStintsAre | internal/timed/hunt.go:53-59 | what is kept is the end of the list, at most 1440 and begun by a hunt of the last day, and no more is dropped than the limits ask for |
| TimedSwitch.Switcher.StepHunt | internal/timed/hunt.go:126-149 | what a step does with a hunt in progress |
| TimedSwitch.Switcher.MaybeHunt | internal/timed/hunt.go:118-124 | when a hunt begins |
| TimedSwitch.Switcher.Step | internal/timed/timed.go:260-345 | one step of the schedule and of block hunting, with its durable writes in order |
| TimedSwitch.Switcher.StartNow | internal/timed/timed.go:165-205 | the schedule restarted by hand |
| TimedSwitch.HuntTarget | internal/timed/hunt.go:61-82 | an eCash solo pool, the timer's if it is one |
| TimedRules.HuntTargetIs | internal/timed/hunt.go:61-82 | the first eCash solo pool marked for the timer, else the first eCash solo pool, and none exactly when there is none |
| TimedPeriods.StepIsInItsPeriod | internal/timed/timed.go:145-157 | after any run a whole step is inside the period it notes down, which begins a whole number of periods after the last restart by hand, or after the zero time without one |
| TimedPeriods.RestartedSchedule | internal/timed/timed.go:165-205 | over stops at any write and with periods of one length, after a restart by hand at t the period is t until t and one period, in memory and on disk, and whole periods after t from then on |
| TimedPeriods.NextPeriod | internal/timed/timed.go:145-150 | the first step a period or more after a restart by hand moves the period by whole periods counted from the restart |
| TimedRules.StintBeginsExactlyWhen | internal/timed/timed.go:286-344 | at home a stint begins if and only if the timer is on and not done, a minute of its time and of the period is left, a block is at most 1.2 times harder than its header says, another pool than the target is active, and the check passes |
| TimedRules.HuntBeginsExactlyWhen | internal/timed/hunt.go:107-124 | at home a hunt begins if and only if the timer does not want the farm, hunting is on with another pool, blocks are seen and easy, it waits neither for a block nor after a failure, and the check passes |
| TimedRules.AtHome | internal/timed/timed.go:333-345 | the whole state after a step at home, in each of its cases |
| TimedRules.NewPeriodOnPool | internal/timed/timed.go:301-313 | in a new period on the target the stint begins anew, or right after a block the farm goes home with the period open |
| TimedRules.StintEnds | internal/timed/timed.go:314-322 | a stint with no time left, no timer or another target is booked up to now and done for the period, and goes on as a hunt if hunting would have it there, else the farm goes home |
| TimedRules.StintGoesOn | internal/timed/timed.go:323-330 | with time left the farm goes home right after a block when a minute or more is left, its time booked and the period open, and else stays |
| TimedRules.HuntGoesOnUnless | internal/timed/hunt.go:126-149 | a hunt on its pool becomes the timer's, ends or goes on, each exactly in its case |
| TimedRules.ChoiceEndsStint | internal/timed/timed.go:297-300 | a pool chosen by hand during a stint leaves the choice, books the time, ends the period's stints and makes hunting wait |
| TimedRules.HuntIsRecorded | internal/timed/hunt.go:38-59 | every hunt that ends is remembered from its beginning to its end |
| TimedRules.FailuresWait | internal/timed/timed.go:369-399 | after a failed check the timer is done for the period, and hunting waits for five minutes |
| TimedRules.NoHuntBefore | internal/timed/hunt.go:107-110 | whatever happens but a stop, no hunt begins before the wait after a failed one is over |
| TimedRules.WaitEndsExactlyWhen | internal/timed/timed.go:286-291 | the wait after a choice by hand ends exactly at a block or while hunting is off or has no pool |
| TimedRules.StartNowGoesThere | internal/timed/timed.go:159-165 | a restart by hand makes all of the time due, and the next step goes to the target when a block is easy and the check passes |
| TimedRules.OldFiles | internal/timed/timed.go:126-141 | a file without a period of its own gets that of its trip, and nothing else changes |
| TimedRuns.EventKeeps | internal/timed/timed.go:369-429 | every event, cut after any write, leaves the farm at home or on a trip that leads home, with the same order to come home to; only a cut right after the switch drops the target from it |
| TimedRuns.OrderLostExactlyWhen | internal/timed/timed.go:369-399 | with a silent operator the order to come home with loses a pool exactly when a cut right after the switch hits a target that is in it |
| TimedRuns.AwayForAReason | internal/timed/timed.go:293-345 | after a step whose writes succeed the farm is away only if timer or hunting has a reason to have it there now |
| TimedRuns.ComesHome | internal/timed/timed.go:260-429 | after any run with a silent operator, a step brings the farm home in the expected order unless there is such a reason |
| TimedRuns.NeverStranded | internal/timed/timed.go:369-429 | after any run with a silent operator, cut anywhere, one step with timer and hunting off ends with no trip, the original pool and the expected fallback order |
| TimedBudget.WithinBudget | internal/timed/timed.go:276-345 | with a fixed duration and steps at most one gap apart, the real time on the target in a period stays below the duration and one gap, through pauses, carry-overs, restarts and hand-overs |
| TimedBudget.StintAfterStep | internal/timed/timed.go:276-345 | after every whole step a stint of the timer belongs to the current period, is on the active pool and has time left |
| TimedBudget.EventKeeps | internal/timed/timed.go:431-446 | every event books at least the real time on the target |
| TimedBooking.BookedIsExact | internal/timed/timed.go:431-446 | in a run of whole steps with `state.json` writable and no other pool chosen by hand, what is booked and the stint in progress are exactly the real time on the target in the period |
| TimedChoice.TimerChoiceStands | internal/timed/timed.go:286-304 | a pool chosen by hand during a stint stands for the rest of the period, over restarts at any write, as long as each step has block hunting off, or no pool for it, or waits for a block |
| TimedChoice.TimerChoiceStandsWaiting | internal/timed/timed.go:286-304 | with block hunting on it stands until the period changes, the schedule is restarted by hand, the proxy stops, or a step finds hunting off or a block arrived |
| TimedChoice.HuntChoiceStands | internal/timed/timed.go:404-412 | a pool chosen by hand during a hunt stands against block hunting until the next block |
| TimedChoice.TimerStaysOver | internal/timed/timed.go:431-446 | once the stints of a period are over, the timer begins no other one and takes over no hunt for the rest of it, over restarts at any write |
| TimedChoice.MovedExactlyWhen | internal/timed/hunt.go:107-124 | at home, a step moves the farm if and only if the pool check passes, a pool is active, and the timer is due on another pool or else hunting wants to go to another one |
| TimedChoice.StandsOverRestartUnless | internal/timed/hunt.go:85-124 | after a choice by hand and a restart the next step moves the farm if and only if the timer is due on another pool, or else hunting is on, sees blocks, finds one easy and has another pool, and the check passes |
| TimedExamples.RestartForgets | internal/timed/hunt.go:38-44 | for a farm with a valid file the wait after a choice by hand does not survive a restart, and the next step hunts |
| TimedExamples.TargetIsLost | internal/timed/timed.go:369-399 | for a farm with a valid file a stop right after the switch costs the order the target; without the stop it comes back whole |
| RealTimeTarget.ComputeFactor | internal/rtt/rtt.go:37-54 | the factor is the least one, at least 1, that meets the header target and the real-time target of every window the known blocks reach |
| RealTimeTarget.TargetIs | internal/rtt/rtt.go:41-54 | the target of a window is the constant times the fifth power of the seconds since its block, at least one, over its span |
| RealTimeTarget.FactorFalls | internal/rtt/rtt.go:37-54 | between two arrivals the factor never grows |
| RealTimeTarget.BlockHardens | internal/rtt/watch.go:261-267 | a block that arrives keeps the list ordered and bounded and never makes the next block easier |
| RealTimeTarget.Watcher.Job | internal/rtt/watch.go:251-278 | a job with another previous hash is a block, which wakes block hunting; the list keeps the last 17 arrivals, and the target is the last readable one |
| RealTimeTarget.Watcher.Hardness | internal/rtt/watch.go:288-303 | the factor while the block times describe the chain, else 1 |
| BlockHunt.TickOnHunt | internal/timed/hunt.go:126-149 | while blocks are seen and hunting stays on, a hunt ends only when a block just arrived, and then the farm is at home |
| BlockHunt.TwoSwitchesPerBlock | internal/timed/hunt.go:10-12 | with hunting on and live and the timer off, any run switches at most twice per block and once more |
| LoginGuard.Guard.Attempt | internal/admin/guard.go:93-143 | an attempt is blocked, passed or recorded as the windows and locks say, and the file follows |
| LoginGuard.Guard.Prune | internal/admin/guard.go:156-180 | forgets the quiet IPs, and above the maximum the least recently failing ones |
| LoginGuard.KeepRecent | internal/admin/guard.go:145-154 | keeps exactly the times in the window, in order |
| LoginGuard.EvictionIsUnreachable | internal/admin/guard.go:164-179 | with at most 100 checked failures in any hour, pruning leaves at most 2500 records and never evicts |
| LoginGuard.TableStaysSmall | internal/admin/guard.go:96-180 | in every run, over restarts, any half-open hour holds at most 100 checked failures, every kept IP failed within a day and the table stays within 2500 |
| LoginGuard.LockBlocks | internal/admin/guard.go:102-104 | a reported lock turns away every attempt of that IP until it is over, over restarts |
| LoginGuard.FivePerIp | internal/admin/guard.go:125-138 | one IP gets at most five checked failures in any half-open 15 minutes unless it logs in in between |
| GuardHistory.AnswersAsHistory | internal/admin/guard.go:96-143 | in every run, restarts and pruning included, each answer is the one that the attempts before it give: who is turned away and until when, which lock begins, and when the whole login locks |
| GuardHistory.LocksDouble | internal/admin/guard.go:18-22 | each further lock of an IP is double the one before, up to 24 hours, when neither a login nor a quiet day lies between |
| GuardHistory.FirstLockIsShort | internal/admin/guard.go:18-22 | the first lock of an IP, and the first one after a login or a quiet day, lasts 15 minutes |
| AddressChoice.OutlierDoesNotCount | internal/pool/health.go:52-63 | one slow sample among two or more does not lift the median above the others |
| AddressChoice.MedianMeans | internal/pool/health.go:51-68 | the latency is the least value that at most half of the samples are above |
| AddressChoice.MeasuredBySamples | internal/pool/health.go:52-63 | an address counts as measured exactly when it has a connect time, and a new one keeps its latency the median of the last five |
| AddressChoice.ChooseAddress | internal/pool/health.go:328-368 | the loop finds the current, the first usable and the fastest address and decides among them |
| AddressChoice.ChoiceIsNearOptimal | internal/pool/health.go:328-368 | an address that is not DOWN whenever there is one, and never one both more than 25% and at least 5 ms slower than another |
| AddressChoice.ChoiceIsStable | internal/pool/health.go:328-368 | the choice is idempotent for unchanged measurements |
| AddressChoice.ChoiceIsKeptExactlyWhen | internal/pool/health.go:328-368 | when the current address is kept, in percent and milliseconds, and which other one is taken |
| AddressChoice.FastestIsFirst | internal/pool/health.go:328-368 | of equally fast addresses the first in the configuration |
| AddressChoice.OrderedAddresses | internal/pool/health.go:382-428 | the dial order of a new session |
| AddressChoice.DialOrder | internal/pool/health.go:382-428 | the dial order is a sorted permutation of the addresses that are not DOWN |
| PoolHealth.HealthBook.RefreshPool | internal/pool/health.go:251-326 | status, healthy time and preferred address of a pool, from its addresses |
| PoolHealth.HealthBook.ProbeResultIf | internal/pool/health.go:164-204 | a check that counts moves the counters; two failed ones in a row make DOWN, two good ones UP |
| PoolHealth.HealthBook.DialResult | internal/pool/health.go:206-231 | the third failed dial in a row makes DOWN |
| PoolHealth.HealthBook.JobTimeout | internal/pool/probe.go:168-191 | a stalled session makes DOWN and invalidates the checks under way |
| PoolHealth.HealthBook.ForgetHealth | internal/pool/health.go:430-442 | everything about a pool is dropped and its checks invalidated |
| PoolHealth.HealthBook.PoolEdited | internal/pool/health.go:444-467 | an edit keeps the health of unchanged addresses only |
| PoolHealth.HealthBook.SettingsChanged | internal/pool/probe.go:17-37 | another test worker starts all health over |
| PoolHealth.HealthBook.CheckFailback | internal/pool/manager.go:237-263 | when sessions are drained back to the active pool |
| PoolProbes.Prober.StartProbe | internal/pool/probe.go:90-121 | a background check captures worker and version, and begins only for a configured address that has no check under way and none begun in the last ten seconds; otherwise it stays asked for |
| PoolProbes.Prober.CheckSaved | internal/pool/probe.go:131-166 | every address of the caller's pool is asked for with one capture of worker and version |
| PoolProbes.Prober.BeginSaved | internal/pool/probe.go:142-158 | such a check begins once no other check of its address is under way, if the caller still waits |
| PoolProbes.Prober.RecordCheck | internal/pool/probe.go:123-129 | a result counts only if the caller lives and address, login, worker and version are as they were; the next check of the address may begin |
| PoolProbes.Prober.SessionFailure | internal/pool/probe.go:168-191 | a session that failed on a configured address asks for a check of it, and only one without jobs changes its health |
| PoolProbes.Prober.CheckFailover | internal/pool/probe.go:193-220 | a failover drains exactly the sessions on configured addresses that are DOWN, and none during a drain |
| HealthRuns.ListenIs | internal/pool/probe.go:28-30 | the listener has the same effect in any order of the pools |
| HealthRuns.AlwaysMeasured | internal/pool/health.go:52-63 | in every run the latency of an address is the median of its last connect times, and it is measured exactly when it has one |
| HealthRuns.StaleNeverHeals | internal/pool/probe.go:123-191 | in every interleaving an address becomes UP only by two good checks in a row that were both asked for after every job timeout it had |
| HealthRuns.FailbackIsJustified | internal/pool/manager.go:239-263 | a failback rests on one configured address of the active pool with two good checks in a row, and no failed check, dial verdict or job timeout for the delay since |
| HealthVerdicts.TimeoutMeansDown | internal/pool/probe.go:166-191 | after a session without jobs on a configured address it is DOWN |
| HealthVerdicts.TwoFailsMeanDown | internal/pool/health.go:176-206 | two counted failed checks in a row make an address DOWN |
| HealthVerdicts.ThreeDialsMeanDown | internal/pool/health.go:208-231 | the third failed dial in a row makes it DOWN |
| HealthVerdicts.DownOnlyBy | internal/pool/health.go:160-231 | in every run an address becomes DOWN only by one of the three |
| HealthVerdicts.DownStays | internal/pool/health.go:160-231 | and stays DOWN until it is forgotten or two counted good checks in a row came after |
| HealthVerdicts.TwoGoodMeanUp | internal/pool/health.go:160-206 | two counted good checks in a row make it UP |
| HealthVerdicts.CountsExactlyWhen | internal/pool/probe.go:84-129 | a check counts if and only if its caller lives, address and login are configured, the worker is the one it was asked for with, and since then no session of the pool stalled, the pool did not change and the checks did not start over |
| HealthVerdicts.LatencyIs | internal/pool/health.go:51-68 | in every run the latency is the median of the last five connect times of counted checks since the address was forgotten |
| HealthVerdicts.PoolStatusIs | internal/pool/health.go:253-292 | a pool is UP when one of its addresses is, DOWN when all of them are, and healthy since the earliest of its UP addresses |
| HealthVerdicts.HealthyExactlyWhen | internal/pool/manager.go:237-263 | sessions are drained back exactly once an address of the active pool has been UP for the delay |
| HealthVerdicts.SwitchForgets | internal/pool/health.go:429-444 | a switch and a removal make the pool's health start over, and no check under way counts |
| HealthVerdicts.EditForgets | internal/pool/health.go:446-468 | an edit forgets everything when the login changes, else exactly the addresses that go |
| ProfitSwitch.Decide | internal/profit/switcher.go:329-396 | a check gives a decision the two margins, the main pool and the health allow, whatever the order of equal coins |
| ProfitSwitch.BestCoin | internal/profit/switcher.go:362-367 | one of the most profitable usable coins, or the current one when none beats it |
| ProfitSwitch.HomePool | internal/profit/switcher.go:398-415 | the main pool, while the farm compares for another one and its coin has usable data |
| ProfitSwitch.PickPool | internal/profit/switcher.go:417-425 | a candidate pool of the coin, an UP one if there is any |
| ProfitAdvice.NoAdviceExactlyWhen | internal/profit/switcher.go:329-346 | no advice exactly without a pool, with a pool outside profit switching, or without current data for its coin |
| ProfitAdvice.RecommendMeans | internal/profit/switcher.go:347-425 | a recommended pool takes part and is not DOWN, earns the most there is and the margin more than now, is not on the main pool's coin, and is the first of its coin that is UP or, if none is, the first |
| ProfitAdvice.StayingMeans | internal/profit/switcher.go:347-399 | a farm told to stay has no main pool elsewhere, and nothing on offer earns more, or nothing earns the margin more |
| ProfitAdvice.AwayMeansReturnOrStay | internal/profit/switcher.go:374-416 | away from the main pool with nothing worth leaving for it returns exactly when that pool is not DOWN and the coin mined now does not earn the return margin more |
| ProfitSwitch.Converges | internal/profit/switcher.go:331-415 | following the advice ends after at most two moves, for a fixed market and fixed health |
| ProfitSwitch.WouldBounce | internal/settings/registry.go:407-410 | with a return margin above the margin the farm could bounce between two pools |
| SessionDrain.Registry.Close | internal/session/registry.go:129-156 | a drain is over the live sessions that match the filter, once each, in a drawn order, and takes the next generation |
| SessionDrain.Registry.Begin | internal/session/registry.go:142-156 | the newest generation cancels the one before; without targets there is no drain |
| SessionDrain.Registry.Turn | internal/session/registry.go:161-186 | the pause, which only a cancelled drain cuts short, then check and close under the lock |
| SessionDrain.Registry.Finish | internal/session/registry.go:188-193 | only the newest drain ends the draining |
| SessionDrain.Registry.Shutdown | internal/session/registry.go:204-214 | closing everything cancels the drain in progress and is over every live session |
| SessionDrain.OlderNeverCloses | internal/session/registry.go:174-182 | once a drain has its generation no older one closes a session, in any interleaving |
| SessionDrain.DrainingIs | internal/session/registry.go:121-126 | draining exactly while the goroutine of the newest generation has not finished |
| SessionDrain.ClosesEveryTarget | internal/session/registry.go:165-187 | in any interleaving a drain closes its targets in order, once each and one gap apart, and an unsuperseded one has closed them all when it leaves its loop |
| SessionDrain.LeftAlone | internal/session/registry.go:165-193 | a drain left alone gets through its targets on plan and ends the draining |
| SessionDrain.WithinWindow | internal/session/registry.go:161-167 | in any interleaving the pauses of a drain add up to at most its window, and an unsuperseded one takes all of it but the rounding |
| SessionDrain.OlderAreCancelled | internal/session/registry.go:142-160 | in every run each drain but the newest is cancelled |
| SessionDrain.NewerStops | internal/session/registry.go:142-193 | once a newer drain has begun an older one closes nothing more and leaves at its next turn |
| SessionDrain.ClosingAllStops | internal/session/registry.go:202-214 | once all sessions are closed no drain begun before closes anything more |
| AlertLimiter.Notifier.Add | internal/telegram/notifier.go:40-48 | the latest change per ASIC waits, the first one starts the batch, and the totals are those of the latest alert |
| AlertLimiter.Notifier.Take | internal/telegram/notifier.go:50-90 | what is due now, offline first and then by name: news only, no flapping ASIC, after batch and gap |
| AlertLimiter.Notifier.RecordSent | internal/telegram/notifier.go:92-105 | what the chat was told, and when |
| AlertLimiter.RecentTimes | internal/telegram/notifier.go:112-119 | drops the times that are out of the window |
| AlertRuns.FivePerHour | internal/telegram/telegram.go:44-49 | any six recorded messages about one ASIC span at least an hour, although quiet ones are forgotten |
| AlertRuns.NewsOnly | internal/telegram/notifier.go:14-15 | a message about an ASIC gives another state than the one before, unless that one said online and is an hour old |
| AlertRuns.GapBetweenTries | internal/telegram/notifier.go:80-110 | any two attempts to send are at least the gap apart, failed ones included |
| AlertNews.NewsIsDue | internal/telegram/notifier.go:50-70 | an untold latest change is due when it is not what the chat was told last and the ASIC is not flapping (two messages within the hour, the last one under a quarter of an hour ago), and nothing else is but an online told an hour ago or longer |
| AlertNews.TriesAfterBatch | internal/telegram/notifier.go:80-90 | a message is tried only when something is due and something has waited for the batch |
| AlertNews.TriesWhenDue | internal/telegram/notifier.go:80-90 | and it is tried at the first turn at which that holds and the last try is the gap ago |
| AlertNews.RemembersOnly | internal/telegram/notifier.go:72-79 | after a turn an ASIC is remembered only for a waiting change, an offline message or one of the last hour |
| AlertNews.LatestIs | internal/telegram/notifier.go:40-48 | of the changes of one alert the last one of each ASIC waits |
| PoolFile.KeepExisting | internal/pool/manager.go:747-756 | the ids of existing pools other than one, each once |
| PoolFile.ExistingMembers | internal/pool/manager.go:747-756 | exactly the unknown ids, the skipped one and repeats are dropped |
| PoolFile.RemoveId | internal/pool/manager.go:758-766 | the order without one id |
| PoolFile.ThereAndBack | internal/pool/manager.go:316-338 | a switch and a return restore the file, or the file without the target in the order when the remembered order is gone |
| PoolId.MakeId | internal/pool/manager.go:557-583 | ends, with the base or its first free number, an id no pool has |
| PoolId.FreeIdValid | internal/pool/manager.go:557-583 | the new id is valid exactly when a number that fits behind the base in 32 characters is free, and always with fewer than 9,999,999 pools |
| PoolEffects.SlugIs | internal/pool/manager.go:557-570 | letters and digits in lower case, with one underscore for whatever lies between two of them |
| PoolEffects.BaseIs | internal/pool/manager.go:571-577 | that without underscores at the ends, at most 24 characters, or pool when nothing is left |
| PoolManager.CheckAddresses | internal/state/state.go:120-144 | accepts one to eight valid addresses, none listed twice |
| PoolManager.Check | internal/state/state.go:217-264 | accepts exactly the files with valid distinct pools and sound references |
| PoolManager.CreatedKeeps | internal/pool/manager.go:585-630 | a created pool leaves a well formed file |
| PoolManager.UpdatedKeeps | internal/pool/manager.go:632-674 | an updated pool leaves a well formed file |
| PoolManager.DeletedKeeps | internal/pool/manager.go:676-708 | a deletion leaves a well formed file |
| PoolManager.FaultIs | internal/pool/manager.go:716-735 | a fallback order is taken exactly when its pools exist, none is active and none is listed twice |
| PoolManager.HomeKeeps | internal/pool/manager.go:486-517 | a new main pool leaves a well formed file |
| PoolManager.SwitchedKeeps | internal/pool/manager.go:290-350 | a switch leaves a well formed file |
| PoolStore.Manager.Mutate | internal/state/state.go:325-347 | the new file only when the edit, its check and the write succeed, else the old one |
| PoolStore.Manager.Create | internal/pool/manager.go:585-630 | creates a pool, or nothing and the error |
| PoolStore.Manager.Update | internal/pool/manager.go:632-674 | changes a pool, or nothing and the error |
| PoolStore.Manager.Delete | internal/pool/manager.go:676-708 | deletes a pool that is not active, or nothing and the error |
| PoolStore.Manager.SetFallback | internal/pool/manager.go:710-745 | replaces the fallback order, or nothing and the error |
| PoolStore.Manager.SetProfitHome | internal/pool/manager.go:486-517 | marks or clears the main pool, or nothing and the error |
| PoolStore.Manager.SwitchPool | internal/pool/manager.go:290-350 | switches, keeping the previous pool as first fallback or restoring a given order |
| PoolStore.Apply | internal/pool/manager.go:434-484 | applies a request field by field |
| PoolEffects.UpdateTakesEffect | internal/pool/manager.go:434-484 | after a successful update the pool has every field the request names, with its two corrections, and its old value of every other; every other pool loses at most the timed mark |
| PoolEffects.UpdateSucceedsExactlyWhen | internal/pool/manager.go:632-674 | an update succeeds if and only if the pool exists, the pool asked for is valid and no other pool has the name |
| PoolEffects.CreateTakesEffect | internal/pool/manager.go:585-630 | a successful create adds one pool at the end with the fields named and the defaults for the rest, under a free id; the first pool becomes active |
| PoolEffects.DeleteTakesEffect | internal/pool/manager.go:676-708 | a deletion takes exactly that pool out of the list and out of the order |
| PoolEffects.FallbackTakesEffect | internal/pool/manager.go:710-745 | a new order replaces the old one, and nothing else changes |
| PoolEffects.HomeTakesEffect | internal/pool/manager.go:486-517 | the named pool becomes the only main pool, or none is |
| PoolEffects.SwitchTakesEffect | internal/pool/manager.go:290-350 | the pool is active, and the order is the previous pool before the rest, or the given one without unknown pools, the active one and repeats |
| PoolStore.OperationKeeps | internal/pool/manager.go:292-766 | every operation changes nothing or gives a well formed file, whatever the number of pools |
| PoolStore.RejectedExactlyWhen | internal/state/state.go:325-347 | the store's own check turns down only a new pool for which no valid id is left, which takes 9,999,999 pools at least |
| PoolStore.RunKeeps | internal/state/state.go:325-347 | any run of operations leaves a file that passes the check, with at most one timed target and one main pool, which takes part and is not solo |
| PoolCrowd.CrowdIsReached | internal/pool/manager.go:585-630 | creating pools one by one from an empty store gives the crowd, a valid file of up to 9,999,999 pools with different names of one base |
| PoolCrowd.NextIsRejected | internal/pool/manager.go:577-582 | the next pool of that base is turned down and nothing changes |
| HashrateRing.Rate.Add | internal/stats/stats.go:30-40 | a bucket holds the newest of its minutes |
| HashrateRing.Rate.Hashrate | internal/stats/stats.go:42-62 | the rate of the simple list of the last ten minutes |
| HashrateRing.RingIsList | internal/stats/stats.go:42-52 | the ten buckets add up to the last ten minutes of any history |
| HashrateRing.SpanIs | internal/stats/stats.go:53-62 | the time of the rate: since the window began or the start, whichever is later, and never under a minute |
| NameOrder.NameLess | internal/monitor/monitor.go:334-356 | the loop ends and gives the order of token lists in which digit runs compare by value |
| NameOrder.CompareRuns | internal/monitor/monitor.go:339-346 | without leading zeros, length and then byte order give the order of the values |
| NameOrder.StrictWeakOrder | internal/monitor/monitor.go:334-356 | irreflexive, transitive, and incomparable exactly for names with the same tokens |
| NameOrder.NumbersDecide | internal/monitor/monitor.go:334-346 | after a common beginning the smaller number comes first |
| NameOrder.BytesDecide | internal/monitor/monitor.go:347-354 | after a common beginning the smaller byte comes first |
| NameOrder.PrefixFirst | internal/monitor/monitor.go:355-356 | a name comes before a longer one that it begins |

## Left out

- Sockets, TLS, DNS, HTTP, the Stratum handshake, the Telegram API: a pool check is an arbitrary result with a latency.
- The web UI, texts, events, logging, certificates, configuration from the environment: presentation and plumbing.
- JSON and file names: the history files are append-only lists, the state files are replaced whole; a failed write of `timed.json` or of the guard's file, which the program only logs, is not modelled.
- TimedSwitch.Switcher.Step: does not model the status fields `waiting`, `lastErr` and `hunt.err`, nor the kick that makes the next step come at once; they decide nothing.
- TimedBudget.WithinBudget: assumes that `state.json` can be written; while a return cannot be written the stint goes on.
- BlockHunt.TwoSwitchesPerBlock: assumes no restart, which would forget the block times the watcher has seen.
- RealTimeTarget.ComputeFactor: takes the constant with the gamma function as any positive real.
- HealthRuns.StaleNeverHeals: any number of checks may be under way, which is more than the gates of `PoolProbes.Prober` allow.
- PoolHealth.HealthBook.CheckFailback: takes the number of sessions elsewhere as an input.
- PoolProbes.Prober.StartProbe: takes the clock as one reading; which pending checks are tried, and the requests that a settings change makes, are left out.
- PoolProbes.Prober.CheckSaved: leaves out the timeout of ten seconds, which ends the wait of `BeginSaved`, and the results shown to the caller.
- PoolHealth.HealthBook.RefreshPool: leaves out the last error and the time of the last check, which are only shown.
- ProfitSwitch.Decide: leaves out the report's coin list, the schedule and the market cache.
- LoginGuard.Guard.Attempt: keeps each record as a value of the map, not as a shared object; verification of the password is an input.
- AlertLimiter.Notifier.Take: leaves out the text made from the changes; a change is a name and a state.
- SessionDrain.Registry.Turn: counts the pauses as scheduled; a timer may fire late and the lock may be waited for, so a turn may come at any time.
- SessionDrain.Registry.Shutdown: leaves out the order by id in which the sessions are closed.
- SessionDrain.Registry.Close: takes the random draws as a function.
- PoolStore.Apply: takes trimmed input with the coin in upper case.
- PoolManager.CheckAddresses: takes the parsing of IPv6 addresses as an input, and lower-cases ASCII only.
- PoolId.MakeId: lower-cases ASCII only.
- PoolStore.Manager.SwitchPool: the pool check and the comparison of versions around it are one input.
- HistoryRecorder.Recorder.Start: leaves out the deletion of expired files that ends it; deleting is an event of its own in `HistoryRuns`, at any time.
- HistoryQuery.SeriesBuckets: reads files and memory at one instant; the series and tables built from the buckets, workerTotal among them, are left out.
- The version, the settings and the Telegram token in `state.json`: no operation of the model reads them.
- The session relay, settings parsing, connection limits, the event ring and the online/offline monitor.
