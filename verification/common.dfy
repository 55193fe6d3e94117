/** Vocabulary shared by the three revisions of the supervisor (v1.go, procesy.go, v2.go).

    Real processes, files and clocks are replaced by abstract inputs: an instant or a
    duration is an integer number of nanoseconds (Go's time.Duration unit), a stat result
    is an Option<LogInfo>, and every outcome the operating system decides (does the spawn
    work, is SIGTERM delivered, when does the child exit) is a field of a backend record
    that the caller passes in. */
module Common {

  datatype Option<+T> = None | Some(value: T)

  /** One second of time.Duration. */
  const Second: int := 1_000_000_000

  /** The instant that stands for Go's zero time.Time (the one IsZero reports). */
  const ZeroTime: int := 0

  /** How long killProcess waits for the child after SIGTERM before sending SIGKILL. */
  const GraceWindow: int := 5 * Second

  /** How long v2's killProcessUnsafe waits for the child to be reaped after SIGKILL. */
  const ReapWindow: int := 2 * Second

  /** The monitor's `process *exec.Cmd` field: nil, a Cmd whose Start failed (its
      Process is nil), or a Cmd with a started child. */
  datatype Handle = NoCmd | NotStarted | Running(pid: int)

  /** What os.Stat reports about the log file. */
  datatype LogInfo = LogInfo(modTime: int, size: int)

  /** checkLogs' (bool, error) result: (true, nil), (false, nil), (false, err). */
  datatype CheckResult = Active | Stale | LogError

  /** The fake process backend for one termination attempt:
      termSent   - Signal(SIGTERM) returned no error;
      exitAfter  - delay after SIGTERM until Wait returns (None: it never returns by itself);
      reapAfter  - delay after SIGKILL until the child is reaped (None: never). */
  datatype KillBackend = KillBackend(termSent: bool, exitAfter: Option<nat>, reapAfter: Option<nat>)

  /** The exit wins the race against time.After(window); a tie goes to the exit. */
  predicate ExitsWithin(delay: Option<nat>, window: int)
  {
    delay.Some? && delay.value <= window
  }

  /** Which way a termination attempt went. */
  datatype KillPath =
    | NoProcess        // nothing started to kill: immediate return
    | TermFailed       // SIGTERM could not be sent: early return
    | Exited           // the child exited inside the grace window
    | KilledReaped     // SIGKILL after the grace window, then the child was reaped
    | KilledUnreaped   // SIGKILL, and the bounded reap wait ran out (v2 only)
    | KillBlocked      // SIGKILL, and the unbounded Wait never returns (v1, procesy)

  predicate SentKill(p: KillPath)
  {
    p.KilledReaped? || p.KilledUnreaped? || p.KillBlocked?
  }

  /** A termination attempt: its path, the handle left behind and the time it took. */
  datatype KillResult = KillResult(path: KillPath, handle: Handle, elapsed: nat)

  /** The backend answers a start needs: the backend for killing a held child first,
      the pid of the spawned child (None: Start returned an error), and the clock. */
  datatype Launch = Launch(now: int, kill: KillBackend, spawn: Option<int>)

  /** Everything one ticker tick may consult: the clock, the signal-0 probe, the stat
      result, and the backends of a restart. `retryKill` is used only by procesy.go, whose
      startProcess kills again when killProcess left the handle in place. */
  datatype TickInput = TickInput(now: int, probeOk: bool, stat: Option<LogInfo>,
                                 kill: KillBackend, retryKill: KillBackend, spawn: Option<int>)

  /** The two restart reasons Run prints. */
  datatype Reason =
    | ProcessStopped   // the child is no longer running
    | NoLogActivity    // the log showed no activity within the timeout

  datatype Decision = Healthy | SkipTick | Restart(reason: Reason)

  /** How a tick's restart ended. */
  datatype RestartOutcome = NotNeeded | Restarted | RestartFailed | Hung

  /** How a run of the main loop ends: the first start failed (log.Fatalf), a shutdown
      event was handled, a termination wait never returned, or the events ran out. */
  datatype RunResult<S> =
    | FatalStart(next: S)
    | Stopped(next: S, finalKill: KillResult)
    | Blocked(next: S)
    | Pending(next: S)

  /** The per-tick decision of Run: `check` is None when the logs were not consulted,
      which happens exactly when the process is not alive. */
  function Decide(alive: bool, check: Option<CheckResult>): (d: Decision)
    requires alive <==> check.Some?
    ensures d.Restart? <==> !alive || check == Some(Stale)
    ensures d == SkipTick <==> check == Some(LogError)
    ensures d == Restart(ProcessStopped) <==> !alive
    ensures d == Healthy <==> check == Some(Active)
  {
    if !alive then Restart(ProcessStopped)
    else match check.value
      case LogError => SkipTick
      case Stale => Restart(NoLogActivity)
      case Active => Healthy
  }
}
