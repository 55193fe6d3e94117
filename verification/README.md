# Process supervisor: a Dafny model

The supervisor starts a shell command as a child process and watches it. On every tick
it checks two things: whether the child is still alive, and whether its log file has
shown activity within the staleness timeout. A dead child or a stale log triggers a
restart: terminate (SIGTERM, wait 5 s, then SIGKILL) and start again. SIGINT or
SIGTERM sent to the supervisor terminates the child and ends the loop.

The repository holds three revisions of the same program, and each is modelled:

| file | module | what distinguishes it |
|---|---|---|
| v2.go | `V2` | mutex and cancellable context; bounded waits (5 s, then 2 s after SIGKILL); a failed liveness probe clears the handle |
| procesy.go | `Procesy` | no lock or context; a restart runs killProcess, then startProcess; unbounded Wait after SIGKILL |
| v1.go | `V1` | log check on modification time only; SIGTERM errors ignored; Run resets lastModTime after a restart |

Shared parts:
- `Common` holds the vocabulary: handles, kill backends, tick inputs, decisions, and the per-tick decision `Decide`.
- `LogActivity` holds `checkLogs`: `Check` for v2/procesy, whose bodies are identical, and `CheckMtime` for v1.
- `Config` holds main's defaults and NewMonitor's seconds-to-Duration conversion.

Each revision module has two layers:
1. A specification layer. Each operation (`Kill`, `Start`, `IsRunning`, `TickStep`) is a function over a `Snapshot` of the monitor's mutable fields. Run's loop is a function `RunFrom` over a sequence of events: a shutdown signal, a context cancellation in v2, or a ticker tick carrying everything that tick consults. Lemmas about whole runs are stated over these functions.
2. A `class Monitor` whose fields and methods mirror the Go struct. Each method is proved to leave the fields exactly as the matching specification function says. `Run` is a `while` loop proved against `Supervise`.

The model abstracts the operating system into parameters:
- **Time:** an integer number of nanoseconds; instant 0 stands for Go's zero `time.Time`.
- **`os.Stat`:** an `Option<LogInfo>`.
- **Process outcomes:** whether SIGTERM is delivered, when Wait returns after SIGTERM, and when the child is reaped after SIGKILL (possibly never) come from a `KillBackend` record.
- **Spawning:** `Start` takes an optional pid.
- **The liveness probe:** a boolean.
- **Never-returning waits:** a wait that can never return, as in v1 and procesy, becomes the path `KillBlocked`. Run then ends as `Blocked`.

Behaviour of the code worth knowing:
- **Which clock is stored.** The warm-up branch and the newer-mtime branch of checkLogs store the file's own mtime as `lastModTime`, not the clock. Growth and a successful start store the clock.
- **SIGTERM failure.** In v2 and procesy, a failed SIGTERM returns early and keeps the handle. So termination does not always clear the handle, and startProcess then overwrites a handle whose child may still run (`V2.TermFailureForgetsChild`).
- **Failed start.** A failed `Start` leaves a Cmd without a Process (`NotStarted`), not an empty handle.
- **Warm-up.** In v2 and procesy the warm-up branch is unreachable from Run, because startProcess sets `lastModTime` first (`WarmUpUnreachable`). So a check after a start that sees neither growth past `lastLogSize` nor a newer mtime is measured from the start, and it is `Stale` once more than the timeout has passed since the start. After the initial start `lastLogSize` is still 0, so the first alive tick that finds a non-empty log counts it as growth and is Healthy, however late it comes (`FirstNonEmptyLogCountsAsGrowth`). In v1 the warm-up runs on the first tick only when that tick finds the child alive and the stat succeeds (`V1.FirstCheckWarmsUp`). If that tick's probe fails, the restart sets `lastModTime` to the clock and the warm-up never runs.
- **Interval floor.** In v2, main's floor of one second for the interval cannot fire, because the argument parser only accepts positive values.
- **When a live child is left alone.** In v2 and procesy, and in v1 after a restart, a child that answers the probe is not restarted for a full timeout after its start (`FreshWindowNoRestart`). After v1's initial start this does not hold: startProcess leaves `lastModTime` at zero, the first alive tick adopts the file's mtime however old, and the second tick can already be Stale (`V1.OldLogRestartsOnSecondTick`). In v2 and procesy a child is never restarted while its log grows at least once per timeout, because each growth restarts the window at the clock (`ActiveLogNoRestart`). In v1 the same holds, from the initial start on, for a log whose mtime moves at least once per timeout, counting the warm-up's adopted mtime as the first move. A file rewrite seen only through its mtime, in v2 and procesy, restarts the window at the file's mtime and not at the clock, so the next check can already be stale (`LogActivity.RewriteMeasuredFromFileTime`).
- **Shutdown by context.** In v2 the only call to `cancel` is in the signal branch, which returns right after it, so the `ctx.Done()` branch of Run and the cancelled test of isProcessRunning are never reached. The model keeps both (`ContextDone`, `Snapshot.cancelled`).

## Model

| member | source | states |
|---|---|---|
| Common.Decide | v2.go:279-299 | Restart exactly when the process is not alive or the log is stale; the reason is "stopped" exactly when not alive; a stat error skips the tick; Healthy exactly on activity |
| LogActivity.Check | v2.go:54-100 | checkLogs of v2 and procesy (procesy.go:45-91): stat error is LogError and changes nothing; warm-up records (mtime, size) and is Active; growth sets the clock; a newer mtime adopts it; Stale exactly when nothing changed and elapsed > timeout, without mutation; the baseline changes only on warm-up, growth or a newer mtime, and then the result is Active; the clock never moves backwards except to now |
| LogActivity.CheckMtime | v1.go:95-121 | v1's checkLogs (with getLogModTime, v1.go:32-38): error iff stat fails; warm-up and newer mtime adopt the mtime; Stale exactly when no newer mtime and elapsed > timeout, without mutation; a set lastModTime never decreases |
| LogActivity.RewriteMeasuredFromFileTime | v2.go:77-91 | after a rewrite is seen through its mtime, the very next check of the unchanged file can already be Stale |
| Config.Wrap64 | v2.go:37-38 | two's-complement reduction into int64: in range, identity on int64 values, congruent modulo 2^64 |
| Config.DurationAsWritten | v2.go:37-38 | `time.Duration(n) * time.Second` as written: an int64, equal to n seconds when that fits |
| Config.LargeTimeoutWrapsNegative | v2.go:37-38 | a positive timeout main accepts (9223372037) becomes a negative Duration, and it is the smallest positive one that overflows |
| Config.WrappedTimeoutMakesQuietChecksStale | v2.go:85-91 | with that wrapped timeout, every check that sees no change reports Stale |
| Config.Duration | v2.go:37-38 | corrected conversion: n seconds when it fits in int64, saturated otherwise; at least one second for positive n |
| Config.DurationMonotonic | v2.go:37-38 | the corrected conversion never shortens a longer timeout |
| V2.Kill | v2.go:132-177 | nothing held: no-op; SIGTERM failure: early return keeping the handle; otherwise the handle is cleared; SIGKILL exactly when the child outlives 5 s; never longer than 7 s, never blocks |
| V2.Start | v2.go:103-129 | any held handle is killed first; success iff the spawn succeeds; success holds the new child and sets lastModTime to now; failure holds a Cmd without Process and leaves lastModTime |
| V2.IsRunning | v2.go:187-210 | alive iff a child is held, the context is not cancelled and the probe succeeds; a failed probe clears the handle and nothing else changes |
| V2.TickStep | v2.go:277-312 | restart for "stopped" iff not alive; logs consulted only when alive; a log error changes nothing; a restart is startProcess on the state the probe left and succeeds exactly when the spawn does, setting lastModTime to now; a healthy tick keeps the child and records the check's baseline; a set baseline stays set |
| V2.Shutdown | v2.go:263-275 | both shutdown branches cancel the context and run killProcess on the held handle; afterwards no child is tracked unless SIGTERM failed, and the shutdown takes at most 7 s |
| V2.BaselineStaysSet | v2.go:251-312 | after a start, every later state of the loop has a non-zero lastModTime |
| V2.WarmUpUnreachable | v2.go:60-66 | the warm-up branch of checkLogs is never taken in any state Run reaches |
| V2.FreshWindowNoRestart | v2.go:277-312 | a child that stays alive gets a full timeout after its start: no restart, the loop keeps the same child |
| V2.ActiveLogNoRestart | v2.go:277-312 | a live child whose log grows at least once per timeout is never restarted, however long the run |
| V2.ShutdownKillsFirst | v2.go:261-315 | the loop ends only through shutdown: a stopped run reached a shutdown event at some i, and its final kill is killProcess on the handle the loop held there; afterwards cancelled, no child held unless SIGTERM failed, at most 7 s spent |
| V2.FirstNonEmptyLogCountsAsGrowth | v2.go:68-75 | after the initial start lastLogSize is 0, so the first alive tick with a non-empty log is Healthy and restarts the window at the clock |
| V2.FailedRestartRetriedNextTick | v2.go:301-309 | after a failed restart the next tick sees "not running" and restarts again |
| V2.TermFailureForgetsChild | v2.go:107-145 | when SIGTERM cannot be sent, startProcess still replaces the handle, so the old child is no longer tracked |
| V2.ParseArgs | v2.go:337-377 | fewer than two arguments: usage; otherwise command and log file, and the timeout and interval take a positive parsed value or the defaults 60 and 5; both are at least 1 |
| V2.Monitor.constructor | v2.go:32-42 | durations via the corrected conversion; no child held, zero baseline, context live |
| V2.Monitor.CheckLogs | v2.go:54-100 | updates lastModTime and lastLogSize exactly as `Check` does |
| V2.Monitor.StartProcess | v2.go:103-129 | new fields and result exactly as `Start` |
| V2.Monitor.KillProcessUnsafe | v2.go:132-177 | new handle and path exactly as `Kill` |
| V2.Monitor.KillProcess | v2.go:180-184 | the same as KillProcessUnsafe |
| V2.Monitor.IsProcessRunning | v2.go:187-210 | result and new fields exactly as `IsRunning` |
| V2.Monitor.Run | v2.go:234-315 | after the given events, the result and the fields are those `Supervise` gives |
| Procesy.Kill | procesy.go:120-158 | nothing held: no-op; SIGTERM failure keeps the handle; SIGKILL exactly when the child outlives 5 s; blocks exactly when SIGKILL was sent and the child is never reaped; every returning path after SIGTERM clears the handle |
| Procesy.KillWaitUnbounded | procesy.go:149-155 | no bound holds for how long killProcess takes |
| Procesy.Start | procesy.go:94-117 | a held handle is killed first; a kill that never returns starts nothing; success holds the child and sets lastModTime to now; failure holds a Cmd without Process |
| Procesy.Restart | procesy.go:227-239 | killProcess, then startProcess; hangs exactly when the first kill never returns, or SIGTERM failed and startProcess's second kill never returns; otherwise succeeds exactly when the spawn does, setting lastModTime to now, and a failure holds a Cmd without Process |
| Procesy.TickStep | procesy.go:203-240 | restart for "stopped" iff not alive; logs consulted only when alive; a log error changes nothing; a restart is `Restart` on the unchanged state; a healthy tick keeps the child and records the check's baseline; a set baseline stays set |
| Procesy.DeadChildKilledOnRestart | procesy.go:161-169 | the probe keeps a dead child's handle, so that tick's restart sends it to killProcess; it hangs exactly when one of the two terminations blocks; when SIGTERM fails as the probe did, neither blocks and startProcess overwrites the handle with the new child or a Cmd without Process |
| Procesy.ShutdownCanBlock | procesy.go:196-201 | a shutdown can wait forever on a child that is never reaped |
| Procesy.BaselineStaysSet | procesy.go:184-240 | after a start, every later state of the loop has a non-zero lastModTime |
| Procesy.WarmUpUnreachable | procesy.go:51-57 | the warm-up branch of checkLogs is never taken in any state Run reaches |
| Procesy.FirstNonEmptyLogCountsAsGrowth | procesy.go:59-66 | after the initial start lastLogSize is 0, so the first alive tick with a non-empty log is Healthy and restarts the window at the clock |
| Procesy.FreshWindowNoRestart | procesy.go:203-240 | a child that stays alive gets a full timeout after its start: no restart, same child |
| Procesy.ActiveLogNoRestart | procesy.go:203-240 | a live child whose log grows at least once per timeout is never restarted, however long the run |
| Procesy.ShutdownKillsFirst | procesy.go:194-241 | the run ends Stopped, Blocked or Pending; a stopped run reached a shutdown event at some i, and its final kill is killProcess on the handle the loop held there; afterwards no child held unless SIGTERM failed |
| Procesy.FailedRestartRetriedNextTick | procesy.go:232-236 | after a failed restart the next tick restarts again |
| Procesy.ParseArgs | procesy.go:263-293 | usage below two arguments; positive parsed values or the defaults 60 and 5 |
| Procesy.Monitor.constructor | procesy.go:26-33 | durations via the corrected conversion; no child, zero baseline |
| Procesy.Monitor.CheckLogs | procesy.go:45-91 | updates the baseline exactly as `Check` does |
| Procesy.Monitor.KillProcess | procesy.go:120-158 | new handle and path exactly as `Kill` |
| Procesy.Monitor.StartProcess | procesy.go:94-117 | new fields and outcome exactly as `Start` |
| Procesy.Monitor.IsProcessRunning | procesy.go:161-169 | result exactly `IsRunning`, nothing changed |
| Procesy.Monitor.Run | procesy.go:172-242 | after the given events, the result and the fields are those `Supervise` gives |
| V1.Kill | v1.go:57-83 | nothing held: no-op; the SIGTERM result is ignored; SIGKILL exactly when the child outlives 5 s; blocks exactly when it is then never reaped; every returning path clears the handle |
| V1.Start | v1.go:40-55 | a held handle is killed first; a blocked kill starts nothing; success iff the spawn succeeds; lastModTime never touched |
| V1.RestartWith | v1.go:147-173 | startProcess, then lastModTime set to now only on success; hangs exactly when the termination of the held child never returns; otherwise succeeds exactly when the spawn does; a failure holds a Cmd without Process |
| V1.TickStep | v1.go:145-174 | dead: `RestartWith` on the unchanged state, without reading the log; alive: the mtime check decides; stale: killProcess, hanging if it never returns, else `RestartWith` on the cleared handle; healthy: same child, the check's lastModTime; success resets lastModTime to now |
| V1.DeadChildKilledOnRestart | v1.go:85-93 | the probe keeps a dead child's handle, so that tick's startProcess kills it first and hangs exactly when it is never reaped |
| V1.FirstCheckWarmsUp | v1.go:101-105 | the first tick after the initial start takes the warm-up branch and is Healthy, however old the log is |
| V1.OldLogRestartsOnSecondTick | v1.go:95-121 | a log last written longer than the timeout before the supervisor started gets the child restarted on the second tick |
| V1.ShutdownCanBlock | v1.go:140-143 | a shutdown can wait forever, even when SIGTERM was not delivered |
| V1.FreshWindowNoRestart | v1.go:145-174 | after a restart at t0 (Run sets lastModTime := t0), a child that stays alive gets a full timeout without a restart |
| V1.ActiveLogNoRestart | v1.go:145-174 | from any state, including the one right after the initial start, a live child whose log's mtime moves at least once per timeout (the warm-up's adoption counting as a move) is never restarted, however long the run |
| V1.ShutdownKillsFirst | v1.go:138-175 | the run ends Stopped, Blocked or Pending; a stopped run reached a shutdown event at some i, and its final kill is killProcess on the handle the loop held there; afterwards no running child is held |
| V1.FailedRestartRetriedNextTick | v1.go:147-156 | after a failed restart the next tick restarts again |
| V1.ParseArgs | v1.go:178-202 | usage below two arguments; positive parsed values or the defaults 60 and 5 |
| V1.Monitor.constructor | v1.go:23-30 | durations via the corrected conversion; no child, zero lastModTime |
| V1.Monitor.CheckLogs | v1.go:95-121 | updates lastModTime exactly as `CheckMtime` does |
| V1.Monitor.KillProcess | v1.go:57-83 | new handle and path exactly as `Kill` |
| V1.Monitor.StartProcess | v1.go:40-55 | new handle and outcome exactly as `Start` |
| V1.Monitor.IsProcessRunning | v1.go:85-93 | result exactly `IsRunning`, nothing changed |
| V1.Monitor.Run | v1.go:123-176 | after the given events, the result and the fields are those `Supervise` gives |

## Left out

- Processes, signals, `Wait` and `exec.Command("sh", "-c", …)`: replaced by the backend inputs (`KillBackend`, the spawn pid, the probe result).
- The goroutine and `select` races in killProcess: only the winner is modelled, a tie at the deadline going to the exit.
- The mutex of v2: every call runs to completion and the loop is single-threaded; the context is modelled by its cancelled flag only.
- `exec.CommandContext`'s own kill of the child on cancellation: in v2, `m.cancel()` runs before `m.killProcess()` (v2.go:266-267), so the context watcher sends SIGKILL at once and the SIGTERM grace window does not really apply at shutdown. The model leaves the timing to the `KillBackend` input of `Shutdown`, which admits that outcome.
- A zombie child answering the signal-0 probe: the probe result is an input. No revision reaps a child that exits on its own before killProcess waits for it. So on Linux the "stopped" restart may in practice come only through staleness; the model does not decide that.
- The tie between the liveness probe and SIGTERM: both are `Process.Signal` on the same pid, so on a real system a failed probe means a failed SIGTERM. The model takes the probe result and each termination's `termSent` as independent inputs, so it also admits a dead child whose SIGTERM is delivered; `Procesy.DeadChildKilledOnRestart` states the tied case separately. In v1 SIGTERM's error is ignored, so the tie does not matter there.
- `os.Stat` (getLogInfo, getLogModTime): replaced by its result; `strconv.Atoi`: a function parameter of ParseArgs.
- The clock: each call sees one `now`, where the source reads `time.Now()` separately in checkLogs and startProcess.
- `time.Since`: modelled as the plain difference `now - lastModTime`. Go saturates it at the int64 range and mixes the monotonic clock with the file's wall-clock mtime; the model has one timeline.
- The ticker's period: the model takes any sequence of events, so `interval` is stored but does not constrain when ticks come.
- All printing and logging, including the 30-second waiting message, the invalid-argument messages, the timeout-below-interval warning and printUsage's text.
- v2's `validate` (MkdirAll, Create of the log file) and procesy's creation of a missing log file in main: file-system side effects before the loop; their failure paths end the program.
- `log.Fatalf` and `os.Exit`: become the results `FatalStart` and `None`.
- V2.Monitor.constructor: converts seconds with the corrected `Config.Duration` instead of NewMonitor's wrapping product (v2.go:37-38); the wrapping as written is `Config.DurationAsWritten`, and its effect is `Config.WrappedTimeoutMakesQuietChecksStale`.
- Procesy.Monitor.constructor: the same corrected conversion instead of the wrapping product of procesy.go:30-31.
- V1.Monitor.constructor: the same corrected conversion instead of the wrapping product of v1.go:27-28.

## Findings

| source | as written | input that shows it | evidently intended | confidence | as-written member | corrected member |
|---|---|---|---|---|---|---|
| v2.go:37-38 | `time.Duration(timeout) * time.Second` wraps around in int64 (also procesy.go:30-31, v1.go:27-28); the interval goes through the same conversion, and a negative interval makes `time.NewTicker` panic (v2.go:257) | timeout argument 9223372037, which main accepts as positive | a huge timeout means "practically never stale"; it should not become negative | high, not executed | Config.DurationAsWritten, Config.LargeTimeoutWrapsNegative, Config.WrappedTimeoutMakesQuietChecksStale | Config.Duration, Config.DurationMonotonic |
