# ClamAV web UI: a model of its stateful and textual core, with proofs

A Dafny project that models the parts of the Go backend where a mistake would show only under an
unusual interleaving, an unusual text or an unusual failure, and proves what these parts keep.
`dafny verify dfyconfig.toml` checks all of it; nothing here runs the Go program.

| file | models |
|---|---|
| `Text.dfy`, `Wrappers.dfy` | the operations of Go's `strings` that the code uses; optional values and results |
| `ConfText.dfy`, `ConfIdempotence.dfy`, `ConfFile.dfy` | the editor of `clamd.conf` and `freshclam.conf`: line surgery on text, writing twice, whitelist and files |
| `Worker.dfy` | the job queue: workers, cancel registry, job rows, shutdown and restart |
| `Scans.dfy`, `Schedules.dfy`, `ScheduleOverlaps.dfy`, `ScheduleRestarts.dfy`, `ScanServer.dfy` | scan rows and schedules coupled to the job queue; which steps keep a schedule at one scan; what a restart leaves; the handlers |
| `FineSteps.dfy`, `FineResults.dfy`, `FineSchedules.dfy`, `FineRuns.dfy` | the same at the grain of single database calls |
| `Bus.dfy` | the event bus and its lock protocol |
| `RateLimit.dfy`, `RateLimitOrder.dfy` | the login limiter, and the order of calls it relies on |
| `Paths.dfy` | path confinement |
| `ScanOutput.dfy` | parsing the scanner's output |
| `Quarantine.dfy`, `QuarantineHandlers.dfy`, `QuarantineStore.dfy` | the quarantine store, its handlers and its table |
| `Mount.dfy`, `Relabel.dfy` | disk-image expansion, cleanup, and relabelling of findings |

## How the model is built

Where the source changes things step by step there is a class with the same fields, and methods
with the same steps, each proved to leave exactly the state that a specification function
describes; the theorems are about those functions. Where goroutines interleave (bus, job queue,
scans, schedules) the specification is a transition system with one action for each step another
goroutine can see, and the theorems hold for every run of it.

Failures are part of the model. A file operation, a database write or a mount either fails by a
free choice inside a method, or takes a parameter that says whether it fails (quarantine and scan
handlers), so that the results hold for every combination of failures.

## What the results rest on

- **Configuration values.** Cleaning trims only the ends of a value, so a newline can survive
  inside one. `ConfText.WriteRefinesOverride` proves that the rewritten file reads as the plain
  override if and only if no value contains a newline. Writing an update again leaves every file
  alone if and only if each continuation line belongs to the value's own key or to a removed one
  (`ConfIdempotence.IdempotentExactlyWhenStable`); `ConfIdempotence.BrokenValueGrowsFile` shows the
  damage otherwise.
- **Scan steps.** In `Scans` the cancel handler, the check-and-start of a scan, and the creation of
  a row and its job are one step each, because the writes to scan rows are unconditional. `FineSteps`
  splits them into single database calls, and lets reads fail. There a step keeps every ended scan,
  now and over all safe steps after it, if and only if it is `Safe` (`FineResults.SafeExactly`), a
  condition on the row it writes; the other results hold over safe runs
  (`FineResults.ActiveScanIsTakenCareOf`, `FineSchedules.OneActiveScanAtFineGrain`). `FineRuns` has a
  run from the start for each way in which a call comes at the wrong time.
- **Scan rows and restarts.** Startup reconciles job rows only. That every active scan has a job
  holds within one process life; `ScheduleRestarts.SchedulesThatGoOn` proves what a restart does to
  the rest, as long as rows can be read.
- **Schedules.** A step keeps every schedule at one unfinished scan, over all orderly steps after it,
  if and only if it is orderly (`ScheduleOverlaps.OrderlyExactly`): a run begins while no other one of
  its schedule is in flight, or is skipped; a restart, or a record that fails, finds every scan it
  leaves unrecorded ended; a run that cannot read its last run's row finds it ended. Nothing in the
  program makes all steps orderly; `ScheduleOverlaps` has a run from the start for each that is not.
  The two reads at the beginning of a run count as one step.
- **Database writes.** Updates of job and quarantine rows may fail, as may the insert of any row and
  the record of a schedule's last run. Other updates of scan and schedule rows succeed.
- **Login limiter.** Attempts reach the log in the order of their times. That is exactly what it
  needs: after a series that ends at `now`, one more attempt is answered as by the full log, whatever
  the series was, if and only if it is not dated before `now` (`RateLimitOrder.AnsweredAlikeExactly`,
  for limits of two or more). `Allow` reads the clock before it takes the lock, so overlapping calls
  can break the order although the clock runs forward (`RateLimitOrder.OvertakenCallCounterexample`).
- **Relabelling.** A prepared directory occurs in a text only at its start, and no occurrence could
  begin within an image path (`Relabel.Clear`). Given that, `Relabel.ScanLabelsInvert` proves exactly
  when the label is right: when no earlier image under the same base has a number whose digits begin
  its own. With at most ten targets that is always so; `Relabel.TenthImageMislabelled` is the failing
  case. The two base directories are the same, or neither lies under the other.
- **Mounts.** A failed `mount` leaves nothing behind, and for the results marked `lazyWorks` a lazy
  unmount detaches what is mounted. Nothing else uses the mount points in the meantime. At startup the
  listing names the mount points as the kernel escapes them.
- **Quarantine.** Store names are fresh, JSON gives back the sidecar it was given (its texts are
  valid UTF-8), the data directory is absolute, and the handlers run one at a time. The store keeps
  agreeing with the table exactly when every step is `QuarantineHandlers.Reliable`, a condition on
  its failures and the files before it; five lemmas show what each of its clauses prevents.

## Where the code differs from what is said about it

- `WriteConf` is documented to preserve the file's mode. It does so exactly when a stale temporary
  file has the same mode or, without one, when the mode `Stat` reports (0644 if it fails) minus the
  process umask is the file's mode (`ConfFile.ModePreserved`). A file of mode 0664 comes back as 0644
  under the usual umask (`ConfFile.GroupWriteIsLost`).
- `LoginLimiter` calls itself a fixed-window limiter; it counts in a sliding window, and that is what
  the model and `RateLimit.LimitHolds` state.
- `runScheduledScan` skips a schedule while its previous scan is unfinished. A graceful stop ends the
  running scans (`cmd/clamav-webui/main.go` defers `Close`; `ScheduleRestarts.GracefulStopEndsScans`),
  but after a crash a running scan never finishes, nobody can cancel it, and its schedule never runs
  again (`ScheduleRestarts.StrandedForever`). A panic of its task does the same without any restart
  (`ScheduleRestarts.PanicStrands`). A scan left queued by any restart holds its schedule up
  until someone cancels it (`ScheduleRestarts.QueuedUntilCanceled`).
- A comment in `UnmountLeftovers` rules out mount points with blanks. A data directory may have one in
  its name, and then nothing under it is unmounted (`Mount.BlankLeftoverStays`).
- A finding line in the name of a healthy file, before a newline, is reported as a finding
  (`ScanOutput.NameReadsAsFinding`).
- The comment on `Hold` speaks of a best-effort undo of the permission change. When no random name
  can be drawn there is no undo at all (`Quarantine.NamelessHoldTakesMode`).
- For a browse root that is not absolute, the two containment tests disagree on every path under the
  root read as absolute (`Paths.ContainmentTestsAgree`); a relative data directory is not protected
  by the quarantine guard (`Paths.TargetsAvoidDataDirectory`).

## Model

| member | source | states |
|---|---|---|
| ConfText.WriteRefinesOverride | internal/clamav/config_files.go:199-235 | for any file text, any update and any append order, re-reading the result shows the collapsed new values for updated keys and the old ones for all others, if and only if no new value contains a newline |
| ConfText.TwoWritesReadAsOne | internal/clamav/config_files.go:155-249 | two writes in a row read as one write of the merged update, the later one winning |
| ConfIdempotence.IdempotentExactlyWhenStable | internal/clamav/config_files.go:199-235 | writing an update twice leaves the same bytes for every file and every append order if and only if each line after the first of every value belongs to the value's own key or to a key the update removes |
| ConfIdempotence.WriteIsIdempotent | internal/clamav/config_files.go:199-235 | in particular for every update without newlines |
| ConfIdempotence.RewriteTwice | internal/clamav/config_files.go:201-220 | for such updates the in-place pass over its own output is a fixed point, for any starting set of written keys |
| ConfIdempotence.UnstableChangesAFile | internal/clamav/config_files.go:199-235 | for every other accepted update there is a file that the second write changes |
| ConfIdempotence.BrokenValueGrowsFile | internal/clamav/config_files.go:174-181 | an update with a continuation line whose key is not updated makes any file longer with the second write |
| ConfIdempotence.NewlineGrowsFile | internal/clamav/config_files.go:173-181 | a concrete accepted update for which every file gets longer with the second write |
| ConfText.WrittenLine | internal/clamav/config_files.go:217-219 | a line written for a key reads back as that key with the value's words joined by single blanks |
| ConfFile.CleanOne | internal/clamav/config_files.go:172-183 | accepts exactly when every non-blank trimmed value fits the key's kind, and then returns the cleaned values |
| ConfFile.CleanUpdates | internal/clamav/config_files.go:165-184 | accepts exactly the updates whose keys are whitelisted and values fit, whatever order the map is walked in |
| ConfFile.CleanedIsWellFormed | internal/clamav/config_files.go:166-184 | accepted updates consist of keys that own a line and trimmed non-empty values |
| ConfFile.NewlinesSurviveCleaning | internal/clamav/config_files.go:117-146 | for path and text keys the cleaned values hold a newline exactly when a trimmed input value does |
| ConfFile.WhitelistedNamesAreKeys | internal/clamav/config_files.go:32-50 | every whitelisted name is one word that cannot be taken for a comment |
| ConfFile.ReadValues | internal/clamav/config_files.go:91-104 | the values map lists every key's values in file order, and nothing else |
| ConfFile.RewriteLoop | internal/clamav/config_files.go:199-220 | the loop emits exactly the rewritten lines and marks exactly the updated keys it met |
| ConfFile.AppendLoop | internal/clamav/config_files.go:222-230 | appends a block for every updated key that was not met, in some order of the map, each once |
| ConfFile.RewriteText | internal/clamav/config_files.go:199-235 | the text it returns is a possible result of the write |
| ConfFile.RestoreUndoesWrite | internal/clamav/config_files.go:237-257 | rolling back after a write restores the original text and touches no other file |
| ConfFile.ModePreserved | internal/clamav/config_files.go:194-247 | the mode survives a write exactly when a stale temporary file has the same mode or, without one, when what Stat reports (0644 if it fails) minus the umask is the mode |
| ConfFile.UmaskDecides | internal/clamav/config_files.go:194-247 | with a working Stat and no stale file that means: the mode shares no bit with the umask |
| ConfFile.GroupWriteIsLost | internal/clamav/config_files.go:194-247 | a file of mode 0664 has mode 0644 after a write under umask 022 |
| ConfFile.ConfManager.ReadConf | internal/clamav/config_files.go:84-115 | one entry per whitelisted key in order with the file's values; empty when the file cannot be read; an error only for an unknown file |
| ConfFile.ConfManager.WriteConf | internal/clamav/config_files.go:155-249 | on success the file reads as the override, the backup holds the old text, nothing else changed and the mode is kept exactly as ModePreserved says; a rejected update changes nothing; on any failure the file itself is untouched |
| ConfFile.ConfManager.Install | internal/clamav/config_files.go:237-248 | under any failing file operation either all of backup and replacement happened or only the side files differ |
| ConfFile.ConfManager.RestoreConfBackup | internal/clamav/config_files.go:252-257 | moves the backup over the file or changes nothing |
| RateLimit.CallsDecideAsFull | internal/auth/ratelimit.go:30-65 | overlapping calls that enter the lock in the order of their clock reads get the answers of the log that forgets nothing, and any limit+1 admitted attempts of a key between two resets span at least the window |
| RateLimit.PrunedDecidesAsFull | internal/auth/ratelimit.go:30-65 | for attempts in clock order the compacting, sweeping limiter answers every series of attempts and resets as the log that forgets nothing |
| RateLimit.AllowRefinesFull | internal/auth/ratelimit.go:30-58 | one attempt gets the same answer from the pruned and the full log, and the logs keep agreeing |
| RateLimit.SweepKeepsAgreement | internal/auth/ratelimit.go:37-44 | deleting keys whose last attempt is before the cut forgets nothing that can still count |
| RateLimit.CompactKeepsAgreement | internal/auth/ratelimit.go:46-56 | compacting a key's log keeps its entries after every instant the clock can still ask about |
| RateLimit.LimitHolds | internal/auth/ratelimit.go:30-65 | between two resets any limit+1 consecutive admitted attempts for a key, in clock order, span at least the window |
| RateLimitOrder.AnsweredAlikeExactly | internal/auth/ratelimit.go:30-65 | for a limit of at least two: after every series in clock order that ends at `now`, an attempt dated `t` gets the answer of the log that forgets nothing, if and only if `now <= t` |
| RateLimitOrder.KeepsLimitExactly | internal/auth/ratelimit.go:30-65 | for a limit of at least two: such an attempt never makes limit+1 consecutive admitted ones span less than the window, whatever the series, if and only if `now <= t` |
| RateLimitOrder.BackwardClockCounterexample | internal/auth/ratelimit.go:46-57 | for every such policy, and however little the clock steps back, a series after which the limiter admits what the full log refuses |
| RateLimitOrder.OvertakenCallCounterexample | internal/auth/ratelimit.go:30-57 | for every such policy, with a clock that never steps back, a call overtaken between its clock read and the lock is admitted although the full log refuses it |
| RateLimit.Compact | internal/auth/ratelimit.go:46-51 | compaction in place leaves exactly the entries after the cut, in order, in the same array |
| RateLimit.Append | internal/auth/ratelimit.go:56-56 | appending adds one entry, in place while there is room |
| RateLimit.LoginLimiter.Sweep | internal/auth/ratelimit.go:37-44 | the map after the sweep is the specification's, and no array changed |
| RateLimit.LoginLimiter.Allow | internal/auth/ratelimit.go:30-58 | new logs and answer are those of the specification, although arrays are reused in place |
| RateLimit.LoginLimiter.Reset | internal/auth/ratelimit.go:61-65 | forgets exactly this key |
| Bus.NeverSendsOnClosed | internal/sse/bus.go:28-56 | in no interleaving is an event sent on a closed channel or a channel closed twice; a closed channel is never in the map |
| Bus.OfferedExactlyOnce | internal/sse/bus.go:47-56 | every event whose publish began while a channel was subscribed is offered to it exactly once by the end of that publish, and no other event is |
| Bus.DeliveredInOrder | internal/sse/bus.go:28-56 | with publishes one at a time, received plus buffered events are the accepted ones in publish order, the buffer never exceeds 64, and an event is missing only if the buffer held 64 |
| Bus.AcceptedIsSubsequence | internal/sse/bus.go:47-56 | what is accepted is a subsequence of what was offered: ascending positions, exactly those that met room |
| Bus.LockInvStep | internal/sse/bus.go:28-56 | every step keeps the lock protocol: publishers only read, and their remaining targets stay inside the map |
| Bus.TrySend | internal/sse/bus.go:51-54 | a non-blocking send appends while there is room and otherwise drops the event |
| Bus.EventBus.Subscribe | internal/sse/bus.go:28-44 | adds a fresh, open, empty channel to the map |
| Bus.EventBus.Cancel | internal/sse/bus.go:35-42 | removes and closes the channel once; a second call changes nothing |
| Bus.EventBus.Publish | internal/sse/bus.go:47-56 | every subscribed channel gets the event if it has room, and no other channel changes |
| Worker.RunningJobsCanBeCanceled | internal/worker/worker.go:127-192 | in every interleaving a job whose row says running is in the cancel map, so Cancel finds it; the one exception is a row whose terminal write failed |
| Worker.Bounds | internal/worker/worker.go:64-169 | at most 64 jobs wait, and the cancel map holds exactly the jobs between register and deregister, no more than there are workers |
| Worker.TasksStartOnce | internal/worker/worker.go:161-192 | over every run each task starts at most once, and a row says done only if its task started and returned nil |
| Worker.RowsMoveForward | internal/db/jobs.go:31-50 | over every run no row disappears, no status moves backwards and a terminal status stays |
| Worker.StatusMoves | internal/worker/worker.go:108-192 | when writes succeed each step moves a row only from queued to running, from running to done or error, or from queued to error |
| Worker.ReconciledRowsStayTerminal | internal/db/jobs.go:52-62 | after the stale-job update of a shutdown or start every row existing then is terminal and stays so |
| Worker.CancelFindsExactly | internal/worker/worker.go:127-192 | in every reachable state Cancel finds a job whose row says running exactly when no terminal write of it failed or its worker has not deregistered it yet |
| Worker.GoneForever | internal/worker/worker.go:127-192 | a job that has left its worker is not found by Cancel over any later run, and only a stale-job update changes its row |
| Worker.LostUpdateCounterexample | internal/worker/worker.go:188-190 | a run from the start after which a row says running, Cancel never finds its job over any later run, and the row stays until a stale-job update |
| Worker.ExecuteIsARun | internal/worker/worker.go:161-192 | executing a job from register to deregister is one run of the transition system and keeps its invariant |
| Worker.InvStep | internal/worker/worker.go:79-192 | every step of every goroutine keeps the invariant on places, the cancel map and the rows |
| Worker.Manager.constructor | internal/worker/worker.go:79-103 | starting is a restart step: stale rows fail if the write succeeds, at least one worker idles |
| Worker.Manager.Enqueue | internal/worker/worker.go:108-125 | creates a queued row, if it can be inserted, and either queues the job or ends the row, full and stopped being told apart |
| Worker.Manager.Cancel | internal/worker/worker.go:129-137 | true exactly when the job is in the cancel map, and then its context is canceled |
| Worker.Manager.Execute | internal/worker/worker.go:161-192 | the state after a whole execute, for every combination of failing row writes |
| Worker.Manager.Advance | internal/worker/worker.go:149-192 | one step of a worker's loop or of execute is one step of the transition system, every row write failing or not |
| Worker.Manager.Wait | internal/worker/worker.go:141-147 | whatever the workers still do, in any interleaving with enqueue and cancel calls that arrive meanwhile, is a run of their steps, and ends with all of them gone |
| Worker.Manager.Shutdown | internal/worker/worker.go:141-147 | from any state: stop, any interleaving of worker steps and arriving calls until all workers have left, and then the stale-job update; no active row remains if that write succeeds |
| Scans.TerminalStatusStays | internal/db/scans.go:55-73 | over every run a scan's terminal status never changes, and a canceled scan that had not reached the scanner never does |
| Scans.CanceledScanNeverRuns | internal/api/scans.go:61-64 | a scan canceled while queued, in any reachable state, is never handed to the scanner |
| Scans.ActiveScanHasOneJob | internal/api/scans.go:26-138 | within one process life, before shutdown and without panics, every active scan row has exactly one job, and it is waiting or running |
| Scans.InvStep | internal/api/scans.go:26-198 | every step keeps scan rows, job references and task phases consistent with the job queue |
| Scans.CalmStep | internal/api/scans.go:46-198 | every undisturbed step leaves each active scan with a job that will still end it |
| Schedules.OneActiveScanPerSchedule | internal/api/schedules.go:146-179 | over any run whose steps are orderly - with ticks, run-now requests, cancels, edits, restarts, failed enqueues, reads and records - a schedule has at most one active scan, and between ticks it is the recorded last run |
| ScheduleOverlaps.OrderlyExactly | internal/api/schedules.go:146-179 | with room for two jobs in the queue, a step keeps every schedule at one active scan over all orderly continuations if and only if it is orderly |
| ScheduleOverlaps.OrderlyRunsExactly | internal/api/schedules.go:146-179 | over a run with such room throughout, every step does so if and only if every step is orderly |
| ScheduleOverlaps.OverlappingTicksCounterexample | internal/api/schedules.go:146-179 | a run from the start broken by a second run of a schedule that begins before the first one has made its scan |
| ScheduleOverlaps.LateRecordCounterexample | internal/api/schedules.go:152-178 | a run from the start broken by one that begins when the first one's scan has ended but is not recorded: the late record hides the newer scan |
| ScheduleOverlaps.RestartBetweenCounterexample | internal/api/schedules.go:170-178 | a run from the start broken by a restart between the enqueue and the record |
| ScheduleOverlaps.LostRecordCounterexample | internal/api/schedules.go:177-177 | a run from the start broken by a record that fails |
| ScheduleOverlaps.UnreadableLastRunCounterexample | internal/api/schedules.go:152-160 | a run from the start broken by a run that cannot read the row of its queued last run |
| FineSchedules.OneActiveScanAtFineGrain | internal/api/schedules.go:146-179 | at the grain of single database calls a schedule still has at most one active scan over every run whose steps are safe and orderly |
| ScheduleRestarts.RestartBlocks | internal/worker/worker.go:83-87 | after any run that ends in a restart, an unfinished last run of a schedule has no job left that could end it |
| ScheduleRestarts.StrandedForever | internal/api/schedules.go:152-160 | if it says running it does so forever, over any later run, and its schedule never makes another scan |
| ScheduleRestarts.QueuedUntilCanceled | internal/api/schedules.go:152-160 | if it says queued it stays so, and its schedule makes no scan, over any later run that does not cancel it |
| ScheduleRestarts.SchedulesThatGoOn | internal/api/schedules.go:146-179 | right after a restart some later run makes another scan for a schedule if and only if its last run's row does not say running |
| ScheduleRestarts.PanicParksScan | internal/worker/worker.go:180-192 | a task that panics leaves its scan's unfinished row to nobody |
| ScheduleRestarts.PanicStrands | internal/worker/worker.go:180-192 | if that row says running it does so forever, and a schedule whose recorded last run it is never makes another scan |
| ScheduleRestarts.GracefulStopEndsScans | internal/worker/worker.go:139-147 | without a crash or a panic no scan row says running once every worker has left |
| FineResults.SafeExactly | internal/api/scans.go:38-198 | at the grain of single database calls, a step changes no ended scan and hands no canceled one to the scanner, now or in any safe run after it, if and only if it is safe: a late "canceled" meets a row that is queued, canceled, or running in nobody's hands; a start and a failure meet one that is not canceled |
| FineResults.SafeRunsExactly | internal/api/scans.go:38-198 | the same for runs from the start |
| FineResults.SafeCancelHolds | internal/api/scans.go:180-198 | a handler that read queued and whose write is safe keeps a scan that has not reached the scanner from it for good |
| FineResults.ActiveScanIsTakenCareOf | internal/api/scans.go:38-138 | over safe runs within one process life, before shutdown and without panics, every active scan has exactly one job or exactly one request on its way to the queue, never both |
| FineRuns.StartOverCancelCounterexample | internal/api/scans.go:61-69 | a run from the start: the scan reads queued, a handler reads queued and writes canceled, the scan writes running and ends as done |
| FineRuns.LateCancelCounterexample | internal/api/scans.go:180-198 | a run from the start: the handler reads queued, the scan checks and starts, the handler writes canceled, and the scan still reaches the scanner and ends as done |
| FineRuns.FailOverCancelCounterexample | internal/api/scans.go:38-51 | a run from the start: a scan canceled before its job is enqueued ends as an error when the enqueue fails |
| FineRuns.UnreadableScanCounterexample | internal/api/scans.go:61-67 | a run from the start in which a canceled scan runs because its row could not be read |
| ScanServer.ScheduleRunKeepsInvariants | internal/api/schedules.go:146-179 | a whole run of a schedule that begins in order and records the scan it made keeps the invariants behind the schedule result |
| ScanServer.Server.CreateAndEnqueue | internal/api/scans.go:38-51 | nothing if the row cannot be inserted; otherwise a queued row with its job, or a row ended as error when the job cannot be inserted or the queue refuses |
| ScanServer.Server.HandleCreateScan | internal/api/scans.go:26-53 | refuses exactly the path lists that do not sanitize; changes nothing then or on a failed insert; otherwise it is the create step, accepted exactly when the queue took the job |
| ScanServer.Server.RunScan | internal/api/scans.go:56-138 | the body of a scan job is the steps check-and-start, scan and finish; a canceled row ends it with a nil error, and a row that cannot be read starts it blindly |
| ScanServer.Server.RunningJobForRef | internal/db/jobs.go:64-77 | finds the newest running job of the scan, or that there is none |
| ScanServer.Server.HandleCancelScan | internal/api/scans.go:180-198 | not found, not active and unreadable change nothing; otherwise it is the cancel step, without a job when the lookup of the running one fails |
| ScanServer.Server.RunScheduledScan | internal/api/schedules.go:146-179 | does nothing exactly when the schedule is gone or cannot be read, its last scan can be read and is active, or the row cannot be inserted; otherwise it is one whole run of the schedule, recorded or not |
| ScanServer.Server.CreateSchedule | internal/db/schedules.go:33-44 | adds a schedule that has not run yet, under a new id, or nothing if the row cannot be inserted |
| ScanServer.Server.HandleDeleteSchedule | internal/db/schedules.go:64-74 | deletes the schedule if it exists and says so |
| Paths.SegmentsOfRender | internal/api/scans.go:223-233 | writing a list of path names as text and cleaning it again is the identity |
| Paths.PrefixTestIsSegmentPrefix | internal/api/scans.go:234-236 | the string-prefix test on cleaned paths means that the root's names begin the path's names |
| Paths.WithinRootIsSegmentPrefix | internal/api/browse.go:96-103 | the relative-path test means the same, for an absolute root |
| Paths.ContainmentTestsAgree | internal/api/scans.go:220-248 | both tests agree on a path exactly when the root is absolute or the path is outside the root read as absolute |
| Paths.SanitizeScanPaths | internal/api/scans.go:220-248 | the first faulty input decides the error; otherwise the result is the first-occurrence list of the cleaned inputs, with 1 to 64 entries |
| Paths.AcceptedPathsAreConfined | internal/api/scans.go:218-248 | an accepted list holds 1 to 64 different clean absolute paths, all under the root read as absolute, and exactly the requested ones; by the relative-path test they are under it exactly when it is absolute |
| Paths.FirstOccurrencesKeepOrder | internal/api/scans.go:237-240 | deduplication keeps the order of first occurrences |
| Paths.TargetsAvoidDataDirectory | internal/api/quarantine.go:131-146 | a quarantine target passes exactly when it is absolute, under an absolute browse root and not under an absolute data directory |
| Paths.JoinPathAddsName | internal/clamav/mount.go:119-134 | joining a name to any base, absolute or relative, adds it to the cleaned base's names |
| ScanOutput.FoundRoundTrip | internal/clamav/scan.go:153-162 | the greedy pattern gives back path and signature exactly when neither holds a newline and the signature is non-empty without an inner separator; the path may hold separators |
| ScanOutput.DeliveredIsOutput | internal/clamav/exec.go:106-118 | the lines handed on are what the scanner wrote, cut at every newline |
| ScanOutput.OutputRoundTrip | internal/clamav/scan.go:153-166 | reading what the scanner prints for any list of files gives the infected ones in order and the number of files if and only if every finding is newline-free and unsplittable and no healthy name has a line, before its last, that looks like a report |
| ScanOutput.NameReadsAsFinding | internal/clamav/scan.go:153-162 | a healthy file whose name holds a finding line and a newline is reported as infected |
| ScanOutput.ProgressCountsUp | internal/clamav/scan.go:89-96 | progress counts 1, 2, 3, ... with infected at most scanned and never decreasing, and ends at the totals of the stream |
| ScanOutput.FindingsAreNeverLost | internal/clamav/scan.go:109-116 | a scan with findings never reports zero infected or scanned files; without summary counts infected is at most scanned |
| ScanOutput.ScanRun.ParseScanLine | internal/clamav/scan.go:153-180 | after each line the result and the finding callbacks are what the lines so far say |
| ScanOutput.ScanRun.Consume | internal/clamav/scan.go:89-96 | reports progress exactly for the lines that count a file |
| ScanOutput.Scan | internal/clamav/scan.go:64-117 | callbacks equal the findings in order; exit code 1 is success; totals come from the summary where it gives any and from the lines otherwise |
| Quarantine.MoveFile | internal/quarantine/store.go:195-225 | under every combination of failing steps: success means the bytes are at the destination and the source is gone, failure means the source is intact, and nothing else changes |
| Quarantine.Hold | internal/quarantine/store.go:56-118 | under every failure the bytes survive at the origin or in the blob, and nothing but origin, blob and sidecar changes |
| Quarantine.Restore | internal/quarantine/store.go:123-145 | success empties the store of the blob and puts its bytes at the origin; failure leaves the blob; an existing file is not overwritten |
| Quarantine.Purge | internal/quarantine/store.go:149-164 | success leaves no blob; purging a missing blob succeeds; failure removes nothing |
| Quarantine.HoldThenRestoreKeepsBytes | internal/quarantine/store.go:56-145 | whenever both report success the bytes are back and nothing else differs but mode or a left-over sidecar |
| Quarantine.HoldThenRestoreIsIdentity | internal/quarantine/store.go:56-145 | hold then restore, by rename or by copy, is the identity on all files exactly when the original mode is not 0 |
| Quarantine.HoldSucceedsExactly | internal/quarantine/store.go:56-118 | which failures, on which files, end a hold in which way, and when a blob is in the store afterwards |
| Quarantine.FailedHoldLeavesNoTrace | internal/quarantine/store.go:84-116 | a hold leaves every file and mode as it was exactly when it fails before the move, or the move fails without leaving a copy, and the mode was not taken or is given back - which it is not when no name can be drawn |
| Quarantine.NamelessHoldTakesMode | internal/quarantine/store.go:82-88 | a concrete hold that draws no name leaves its file with mode 0 |
| QuarantineHandlers.StepExact | internal/api/quarantine.go:33-129 | a handler step keeps store and table in agreement if and only if a condition on its failures and the files before it holds |
| QuarantineHandlers.StoreMatchesTable | internal/api/quarantine.go:33-129 | over any run with outside changes in between, store and table agree throughout exactly when every step meets that condition, and then the blobs in the store are exactly the names of the held rows |
| QuarantineHandlers.EmptyStoreIsExact | internal/quarantine/store.go:31-37 | an empty store and an empty table agree, which is where these runs start |
| QuarantineHandlers.RowsNeverReturnToHeld | internal/db/quarantine.go:23-44 | over any run, whatever fails, no row returns to held or loses its data |
| QuarantineHandlers.WhatWasTakenComesBack | internal/api/quarantine.go:81-110 | whatever happens and fails in between, restoring an item puts the bytes it was given back at the path it came from, unless a delete of this item overwrote the blob and failed to remove it |
| QuarantineHandlers.SidecarOrRow | internal/api/quarantine.go:148-156 | restoring by sidecar and restoring by row are the same |
| QuarantineHandlers.UndoneHoldExact | internal/api/quarantine.go:56-65 | after a failed insert store and table agree exactly when the original directory is there and putting the file back meets no failure but that of a rename |
| QuarantineHandlers.CompensationSucceeds | internal/api/quarantine.go:56-65 | when only the insert fails the file is put back and every file is as before, mode 0 aside |
| QuarantineHandlers.TargetNotInStore | internal/api/quarantine.go:134-146 | with an absolute data directory an accepted target never lies in the store |
| QuarantineHandlers.Apply | internal/api/quarantine.go:33-129 | every handler step, under any failures, keeps rows, names and sidecars consistent |
| QuarantineHandlers.LostSidecarOrphansBlob | internal/quarantine/store.go:114-116 | a failed sidecar write leaves a blob that no row knows |
| QuarantineHandlers.PartialCopyOrphansBlob | internal/quarantine/store.go:205-222 | a failed move whose copy cannot be removed leaves a blob that no row knows, and the file where it was |
| QuarantineHandlers.FailedCompensationOrphansBlob | internal/api/quarantine.go:58-62 | a file that cannot be put back after a failed insert stays in the store without a row |
| QuarantineHandlers.LostStatusLeavesEmptyRow | internal/api/quarantine.go:105-125 | a failed status write after a restore or a delete leaves a held row without a blob |
| QuarantineHandlers.FailedPurgeKeepsOnlyZeros | internal/quarantine/store.go:149-161 | a delete that cannot remove the overwritten blob leaves a held row with only zeros |
| QuarantineStore.Store.MoveFile | internal/quarantine/store.go:197-225 | the steps of the move leave the files the specification says |
| QuarantineStore.Store.Hold | internal/quarantine/store.go:56-118 | the steps of the hold leave the files and result the specification says |
| QuarantineStore.Store.Restore | internal/quarantine/store.go:123-145 | the steps of the restore leave the files and result the specification says |
| QuarantineStore.Store.Purge | internal/quarantine/store.go:149-164 | the steps of the purge leave the files and result the specification says |
| QuarantineStore.Server.HandleQuarantineFile | internal/api/quarantine.go:34-79 | the handler is the hold step; a bad target changes nothing, and it answers created exactly when a row was added |
| QuarantineStore.Server.HandleRestoreQuarantine | internal/api/quarantine.go:81-110 | the handler is the restore step; an item that is not held is a conflict, and success means blob gone and file back |
| QuarantineStore.Server.HandleDeleteQuarantine | internal/api/quarantine.go:112-129 | the handler is the delete step; success on a held item means the blob is gone |
| QuarantineStore.Server.AddQuarantine | internal/db/quarantine.go:23-32 | adds a held row under a new id, or nothing |
| QuarantineStore.Server.SetQuarantineStatus | internal/db/quarantine.go:35-44 | changes only this row's status; a failed write and a missing row are reported apart |
| Mount.SanitizingKeepsMeaning | internal/clamav/mount.go:37-75 | sanitizing a configuration changes no answer about which paths are images, and doing it twice is doing it once |
| Mount.Sanitize | internal/clamav/mount.go:54-64 | the loop builds the normalized, deduplicated extension list |
| Mount.CheckImage | internal/clamav/mount.go:67-75 | true exactly when the path ends, in any case, in a configured extension |
| Mount.OutputsAreTargetsOrPrepared | internal/clamav/mount.go:103-142 | each output is the target itself or the directory of a recorded prepared image for it |
| Mount.PreparedDirsDiffer | internal/clamav/mount.go:119-141 | no two prepared images of a scan share a directory, whatever the bases |
| Mount.ImageManager.MountImage | internal/clamav/mount.go:165-184 | either one file-system type mounted the image once, or nothing is mounted |
| Mount.ImageManager.Unmount | internal/clamav/mount.go:241-246 | takes at most the top layer off one mount point, and does so when lazy unmounting works |
| Mount.ImageManager.PrepareImages | internal/clamav/mount.go:103-159 | one output per target in order, prepared images recorded in order, and exactly those mounted on top of the starting table |
| Mount.ImageManager.RunCleanup | internal/clamav/mount.go:144-157 | the mount table is back to the starting one when lazy unmounting works, every mount point is as before or as started otherwise, and the bases are removed last |
| Mount.ImageManager.WithImages | internal/api/scans.go:72-83 | preparing and cleaning up around a scan leaves the mount table as it was |
| Mount.ImageManager.UnmountLeftovers | internal/clamav/mount.go:263-285 | each listed mount point loses one layer per line and base over it, others none, before the bases are removed |
| Mount.LeftoversAreGone | internal/clamav/mount.go:260-280 | with the kernel's listing nothing stays mounted under a base at a mount point the kernel need not escape, other such mount points are untouched, and one with a blank is never unmounted |
| Mount.BlankLeftoverStays | internal/clamav/mount.go:269-276 | a leftover under a base with a blank in its name stays mounted |
| Relabel.RelabelPath | internal/clamav/mount.go:252-258 | the loop computes the replacement image by image |
| Relabel.FirstPrefixWins | internal/clamav/mount.go:252-258 | the first prepared directory that is a string prefix of the text decides what it becomes |
| Relabel.RewrittenIsFree | internal/clamav/mount.go:252-258 | rewriting by one image brings in no occurrence of any directory, given conditions on the text and the image path only |
| Relabel.RelabelLeavesOthers | internal/clamav/mount.go:248-258 | a text that contains no prepared directory is unchanged |
| Relabel.RelabelInverts | internal/clamav/mount.go:252-258 | relabelling inverts the expansion of an image exactly when no earlier directory is a string prefix of its own |
| Relabel.ScanLabelsInvert | internal/clamav/mount.go:119-142 | for the directories of a scan that means: no earlier image under the same base has a number whose digits begin its own |
| Relabel.TenTargetsAlwaysInvert | internal/clamav/mount.go:119-142 | with at most ten targets every label comes back |
| Relabel.TenthImageMislabelled | internal/clamav/mount.go:255-255 | under any base, image 1 takes over the findings of image 10 |

## Left out

- HTTP routing, JSON decoding of requests, cookies, the web user interface, notifications, the simulator, installation and packaging.
- Password hashing, session secrets and random ids: library cryptography. Fresh store names are assumed.
- The cron parser and runner, the regular-expression engine and Go's `path` and `strings` packages: recursive definitions stand for the operations used.
- `strings.ToLower` is ASCII only; texts are sequences of characters, so invalid UTF-8 is not modelled.
- Help texts and unit names of configuration keys, and the lock that serializes configuration writes.
- Job kinds, job logs, error texts and timestamps; `job` events on the bus and their order.
- The counts, engine version and paths columns of scan rows, progress flushes every two seconds, and the findings table.
- Failing updates of scan rows and deletes of schedules, and a failing lookup of an item or a job other than those named above.
- A handler that panics or is cut off between two of its calls, other than by a restart.
- Worker.Manager.Execute: covers an execute during which no other goroutine steps; interleavings are covered by `Worker.Manager.Advance` and the transition system.
- Scans.TerminalStatusStays: takes cancel, check-and-start, and create-and-enqueue as single steps; `FineResults.SafeExactly` says when it holds for separate calls.
- Scans.CanceledScanNeverRuns: takes them as single steps; `FineResults.SafeCancelHolds` is the same result for separate calls.
- Scans.ActiveScanHasOneJob: takes them as single steps; `FineResults.ActiveScanIsTakenCareOf` is the same result for separate calls.
- Schedules.OneActiveScanPerSchedule: holds for orderly runs only; `ScheduleOverlaps.OrderlyExactly` says that no other step will do.
- FineSchedules.OneActiveScanAtFineGrain: states one direction; which steps are orderly is exact for the coarser steps only.
- RateLimit.LimitHolds: holds for attempts in clock order; `RateLimitOrder.KeepsLimitExactly` says that no other order will do.
- RateLimit.PrunedDecidesAsFull: holds for attempts in clock order; `RateLimitOrder.AnsweredAlikeExactly` says that no other order will do.
- RateLimitOrder.AnsweredAlikeExactly: says nothing of limits below two, where a log of one entry decides everything; the server's limit is five.
- ScanServer.Server.RunScan: joins the image expansion and the scanner call into one step, and takes how the scan ends as a parameter.
- Mount.LeftoversAreGone: says nothing of mount points with a backslash in their name, or with a blank the kernel does not escape.
- Symbolic links, and directories reached through them: a symbolic link only appears as something that is not a regular file.
- Mode bits other than permissions, a umask that takes bits from the owner in the quarantine store, ownership, and partial visibility of a file while it is copied.
- A file swapped for another during a hold appears only as the failure the code reports.
- Mount error messages and the choice of extraction tool; extraction succeeds or fails.
- Which command line the scanner is started with.
