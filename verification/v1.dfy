/** The first revision, v1.go: the log check looks at the modification time only,
    killProcess ignores whether SIGTERM was sent, startProcess leaves lastModTime alone and
    Run sets it to the clock after each successful restart.

    As in V2, the operations are first stated as functions of the monitor's fields and the
    backend's answers, and the class Monitor at the end is proved to agree with them. */
module V1 {
  import opened Common
  import opened LogActivity
  import Config

  /** The fields of Monitor that change: process and lastModTime. */
  datatype Snapshot = Snapshot(process: Handle, lastModTime: int)

  const Initial: Snapshot := Snapshot(NoCmd, ZeroTime)

  /** killProcess. */
  function Kill(h: Handle, kb: KillBackend): (r: KillResult)
    ensures !h.Running? ==> r == KillResult(NoProcess, h, 0)
    // the result of SIGTERM is ignored: it never cuts the termination short
    ensures h.Running? ==> r.path != NoProcess
    ensures r.path != TermFailed
    ensures SentKill(r.path) <==> h.Running? && !ExitsWithin(kb.exitAfter, GraceWindow)
    ensures SentKill(r.path) ==> r.elapsed >= GraceWindow
    // after SIGKILL the Wait has no limit
    ensures r.path == KillBlocked <==> SentKill(r.path) && kb.reapAfter.None?
    // every path that returns clears the handle
    ensures h.Running? && r.path != KillBlocked ==> r.handle == NoCmd
    ensures r.path == KillBlocked ==> r.handle == h
  {
    if !h.Running? then KillResult(NoProcess, h, 0)
    else if ExitsWithin(kb.exitAfter, GraceWindow) then KillResult(Exited, NoCmd, kb.exitAfter.value)
    else match kb.reapAfter
      case Some(d) => KillResult(KilledReaped, NoCmd, GraceWindow + d)
      case None => KillResult(KillBlocked, h, GraceWindow)
  }

  datatype StartResult =
    | Spawned(killed: KillResult, next: Snapshot)
    | SpawnFailed(killed: KillResult, next: Snapshot)
    | StartBlocked(killed: KillResult, next: Snapshot)

  /** startProcess: kill whatever is held, create a new Cmd, Start it. lastModTime is
      never touched here. */
  function Start(s: Snapshot, kb: KillBackend, spawn: Option<int>): (r: StartResult)
    ensures s.process != NoCmd ==> r.killed == Kill(s.process, kb)
    ensures s.process == NoCmd ==> r.killed.path == NoProcess
    ensures r.StartBlocked? <==> r.killed.path == KillBlocked
    ensures r.StartBlocked? ==> r.next == s
    ensures r.Spawned? <==> !r.StartBlocked? && spawn.Some?
    ensures r.Spawned? ==> r.next.process == Running(spawn.value)
    ensures r.SpawnFailed? ==> r.next.process == NotStarted
    ensures r.next.lastModTime == s.lastModTime
  {
    var killed := if s.process != NoCmd then Kill(s.process, kb) else KillResult(NoProcess, NoCmd, 0);
    if killed.path == KillBlocked then StartBlocked(killed, s)
    else match spawn
      case None => SpawnFailed(killed, s.(process := NotStarted))
      case Some(pid) => Spawned(killed, s.(process := Running(pid)))
  }

  /** isProcessRunning: the signal-0 probe. It never clears the handle (see
      DeadChildKilledOnRestart for what that means for a restart). */
  predicate IsRunning(h: Handle, probeOk: bool)
  {
    h.Running? && probeOk
  }

  datatype TickReport = TickReport(decision: Decision, outcome: RestartOutcome, next: Snapshot)

  /** The tail of both restart paths of Run: startProcess, then lastModTime is set to the
      clock only if the start succeeded. */
  function RestartWith(s: Snapshot, kb: KillBackend, t: TickInput, reason: Reason): (r: TickReport)
    ensures r.decision == Decision.Restart(reason) && r.outcome != NotNeeded
    // it hangs exactly when startProcess's termination of the held child never returns
    ensures r.outcome == Hung <==> s.process != NoCmd && Kill(s.process, kb).path == KillBlocked
    // otherwise it succeeds exactly when the spawn does
    ensures r.outcome == Restarted <==> r.outcome != Hung && t.spawn.Some?
    ensures r.outcome == Restarted ==> r.next == Snapshot(Running(t.spawn.value), t.now)
    ensures r.outcome == RestartFailed ==> r.next == s.(process := NotStarted)
    ensures r.outcome == Hung ==> r.next == s
  {
    match Start(s, kb, t.spawn)
    case Spawned(_, next) => TickReport(Decision.Restart(reason), Restarted, next.(lastModTime := t.now))
    case SpawnFailed(_, next) => TickReport(Decision.Restart(reason), RestartFailed, next)
    case StartBlocked(_, next) => TickReport(Decision.Restart(reason), Hung, next)
  }

  /** One `case <-ticker.C` of Run. A dead process goes straight to startProcess (which
      kills the stale handle itself); a stale log goes through killProcess first. */
  function TickStep(s: Snapshot, t: TickInput, timeout: int): (r: TickReport)
    ensures r.decision == Decision.Restart(ProcessStopped) <==> !IsRunning(s.process, t.probeOk)
    ensures IsRunning(s.process, t.probeOk) ==>
              r.decision == Decide(true, Some(CheckMtime(s.lastModTime, t.stat, t.now, timeout).0))
    ensures r.decision == SkipTick ==> r.next == s
    ensures r.decision.Restart? <==> r.outcome != NotNeeded
    ensures r.decision == Healthy ==> r.next.process == s.process
    // after a successful restart the staleness clock restarts at the tick's clock
    ensures r.outcome == Restarted ==> r.next.lastModTime == t.now
    // dead: startProcess alone, on the unchanged state
    ensures !IsRunning(s.process, t.probeOk) ==> r == RestartWith(s, t.kill, t, ProcessStopped)
    // stale: killProcess first; if it returns, startProcess on the cleared handle
    ensures r.decision == Decision.Restart(NoLogActivity) ==>
              var k := Kill(s.process, t.kill);
              && (k.path == KillBlocked ==> r.outcome == Hung && r.next == s)
              && (k.path != KillBlocked ==> r == RestartWith(s.(process := NoCmd), t.retryKill, t, NoLogActivity))
    // a healthy tick keeps the child and records what checkLogs recorded
    ensures r.decision == Healthy ==>
              r.outcome == NotNeeded && r.next == s.(lastModTime := CheckMtime(s.lastModTime, t.stat, t.now, timeout).1)
  {
    var alive := IsRunning(s.process, t.probeOk);
    if !alive then
      RestartWith(s, t.kill, t, ProcessStopped)
    else
      var checked := CheckMtime(s.lastModTime, t.stat, t.now, timeout);
      var s2 := s.(lastModTime := checked.1);
      var d := Decide(true, Some(checked.0));
      if d.Restart? then
        var k := Kill(s2.process, t.kill);
        if k.path == KillBlocked then TickReport(d, Hung, s2)
        else RestartWith(s2.(process := k.handle), t.retryKill, t, NoLogActivity)
      else TickReport(d, NotNeeded, s2)
  }

  datatype Event =
    | Interrupt(kill: KillBackend)   // SIGINT or SIGTERM on sigChan
    | Tick(input: TickInput)         // ticker.C

  function RunFrom(s: Snapshot, events: seq<Event>, timeout: int): RunResult<Snapshot>
    decreases |events|
  {
    if events == [] then Pending(s)
    else match events[0]
      case Interrupt(kb) =>
        var k := Kill(s.process, kb);
        if k.path == KillBlocked then Blocked(s) else Stopped(s.(process := k.handle), k)
      case Tick(t) =>
        var r := TickStep(s, t, timeout);
        if r.outcome == Hung then Blocked(r.next) else RunFrom(r.next, events[1..], timeout)
  }

  function Supervise(s: Snapshot, launch: Launch, events: seq<Event>, timeout: int): RunResult<Snapshot>
  {
    match Start(s, launch.kill, launch.spawn)
    case StartBlocked(_, next) => Blocked(next)
    case SpawnFailed(_, next) => FatalStart(next)
    case Spawned(_, next) => RunFrom(next, events, timeout)
  }

  function Restarts(s: Snapshot, events: seq<Event>, timeout: int): nat
    decreases |events|
  {
    if events == [] || !events[0].Tick? then 0
    else
      var r := TickStep(s, events[0].input, timeout);
      (if r.decision.Restart? then 1 else 0) + (if r.outcome == Hung then 0 else Restarts(r.next, events[1..], timeout))
  }

  /** Unlike the later revisions, v1's first start leaves lastModTime at the zero instant,
      so the first tick that finds the child alive takes the warm-up branch: it records the
      file's mtime and reports activity, however old the file is. */
  lemma FirstCheckWarmsUp(launch: Launch, t: TickInput, timeout: int)
    requires launch.spawn.Some? && t.probeOk && t.stat.Some?
    ensures var started := Start(Initial, launch.kill, launch.spawn).next;
            var r := TickStep(started, t, timeout);
            r.decision == Healthy && r.next.lastModTime == t.stat.value.modTime
  {
  }

  /** The consequence: when the log was last written long before the supervisor started,
      the second tick restarts the child, whatever the timeout was meant to allow it. */
  lemma OldLogRestartsOnSecondTick(launch: Launch, t: TickInput, u: TickInput, timeout: int)
    requires launch.spawn.Some? && t.probeOk && u.probeOk
    requires t.stat.Some? && t.stat.value.modTime != ZeroTime && u.stat == t.stat
    requires u.now - t.stat.value.modTime > timeout
    ensures var started := Start(Initial, launch.kill, launch.spawn).next;
            TickStep(TickStep(started, t, timeout).next, u, timeout).decision == Decision.Restart(NoLogActivity)
  {
  }

  /** A shutdown can leave the supervisor waiting forever on a child that is never reaped,
      even when SIGTERM could not be sent at all. */
  lemma ShutdownCanBlock(s: Snapshot, timeout: int)
    requires s.process.Running?
    ensures exists kb: KillBackend :: !kb.termSent && RunFrom(s, [Interrupt(kb)], timeout).Blocked?
  {
    var kb := KillBackend(false, None, None);
    assert RunFrom(s, [Interrupt(kb)], timeout).Blocked?;
  }

  predicate QuietWindow(events: seq<Event>, t0: int, timeout: int)
  {
    forall i :: 0 <= i < |events| ==>
      events[i].Tick? && events[i].input.probeOk && t0 <= events[i].input.now <= t0 + timeout
  }

  /** After a restart at t0 (Run sets lastModTime := t0), a child that stays alive gets a
      full `timeout` without a restart. */
  lemma {:induction false} FreshWindowNoRestart(s: Snapshot, events: seq<Event>, timeout: int, t0: int)
    requires t0 > ZeroTime && s.lastModTime >= t0 && s.process.Running?
    requires QuietWindow(events, t0, timeout)
    ensures Restarts(s, events, timeout) == 0
    ensures RunFrom(s, events, timeout) == Pending(RunFrom(s, events, timeout).next)
    ensures RunFrom(s, events, timeout).next.process == s.process
    decreases |events|
  {
    if events != [] {
      var t := events[0].input;
      var r := TickStep(s, t, timeout);
      assert CheckMtime(s.lastModTime, t.stat, t.now, timeout).0 != Stale;
      assert r.next.lastModTime >= t0;
      assert QuietWindow(events[1..], t0, timeout) by {
        forall i | 0 <= i < |events[1..]|
          ensures events[1..][i].Tick? && events[1..][i].input.probeOk
          ensures t0 <= events[1..][i].input.now <= t0 + timeout
        {
          assert events[1..][i] == events[i + 1];
        }
      }
      FreshWindowNoRestart(r.next, events[1..], timeout, t0);
    }
  }

  /** Ticks in which the child answers the probe and the log's mtime keeps moving: each tick
      either sees an mtime newer than `m`, the last one recorded, or, while `m` is still the
      zero time, any mtime at all (the warm-up adopts it); the window then restarts at that
      mtime. Otherwise the tick comes within `timeout` of `m`. */
  predicate Lively(m: int, events: seq<Event>, timeout: int)
    decreases |events|
  {
    events == [] ||
    (events[0].Tick? && events[0].input.probeOk &&
     var t := events[0].input;
     if t.stat.None? then Lively(m, events[1..], timeout)
     else if m == ZeroTime || t.stat.value.modTime > m then Lively(t.stat.value.modTime, events[1..], timeout)
     else t.now - m <= timeout && Lively(m, events[1..], timeout))
  }

  /** However long the run, a child whose log's mtime moves at least once per `timeout` is
      never restarted: each newer mtime restarts the window. This holds from the state
      right after the initial start as well, where the first check's warm-up sets the window. */
  lemma {:induction false} ActiveLogNoRestart(s: Snapshot, events: seq<Event>, timeout: int)
    requires s.process.Running?
    requires Lively(s.lastModTime, events, timeout)
    ensures Restarts(s, events, timeout) == 0
    ensures RunFrom(s, events, timeout).Pending?
    ensures RunFrom(s, events, timeout).next.process == s.process
    decreases |events|
  {
    if events != [] {
      var t := events[0].input;
      var r := TickStep(s, t, timeout);
      assert CheckMtime(s.lastModTime, t.stat, t.now, timeout).0 != Stale;
      ActiveLogNoRestart(r.next, events[1..], timeout);
    }
  }

  /** When the loop returns after a shutdown event it has run killProcess on the handle it
      held, and no started child is tracked any more. */
  lemma {:induction false} ShutdownKillsFirst(s: Snapshot, events: seq<Event>, timeout: int)
    ensures var r := RunFrom(s, events, timeout);
            && (r.Stopped? || r.Blocked? || r.Pending?)
            && (r.Stopped? ==> r.next.process == r.finalKill.handle && !r.next.process.Running?)
            // a run that stops has reached a shutdown event at some i, and its final kill is
            // killProcess on the handle the loop held at that moment
            && (r.Stopped? ==> exists i :: 0 <= i < |events| && events[i].Interrupt? && RunFrom(s, events[..i], timeout).Pending?
                                 && r.finalKill == Kill(RunFrom(s, events[..i], timeout).next.process, events[i].kill))
    decreases |events|
  {
    if events != [] {
      if events[0].Tick? {
        var r := TickStep(s, events[0].input, timeout);
        if r.outcome != Hung {
          ShutdownKillsFirst(r.next, events[1..], timeout);
          if RunFrom(s, events, timeout).Stopped? {
            var i :| 0 <= i < |events[1..]| && events[1..][i].Interrupt? && RunFrom(r.next, events[1..][..i], timeout).Pending?
                     && RunFrom(r.next, events[1..], timeout).finalKill
                        == Kill(RunFrom(r.next, events[1..][..i], timeout).next.process, events[1..][i].kill);
            assert events[..i + 1][0] == events[0] && events[..i + 1][1..] == events[1..][..i];
            assert events[i + 1] == events[1..][i];
          }
        }
      } else {
        assert events[..0] == [];
      }
    }
  }

  /** The probe keeps the handle of a child it finds dead, so startProcess sends it to
      killProcess first: a dead child's tick hangs when that child is never reaped. */
  lemma DeadChildKilledOnRestart(s: Snapshot, t: TickInput, timeout: int)
    requires s.process.Running? && !t.probeOk
    ensures TickStep(s, t, timeout).decision == Decision.Restart(ProcessStopped)
    ensures TickStep(s, t, timeout).outcome == Hung <==> Kill(s.process, t.kill).path == KillBlocked
  {
  }

  /** A failed restart leaves a Cmd without a Process, so the next tick retries. */
  lemma FailedRestartRetriedNextTick(s: Snapshot, t: TickInput, u: TickInput, timeout: int)
    requires TickStep(s, t, timeout).outcome == RestartFailed
    ensures TickStep(TickStep(s, t, timeout).next, u, timeout).decision == Decision.Restart(ProcessStopped)
  {
  }

  /** main of v1.go. */
  method ParseArgs(args: seq<string>, atoi: string -> Option<int>) returns (r: Option<Config.Settings>)
    ensures r.None? <==> |args| < 2
    ensures r.Some? ==> r.value.command == args[0] && r.value.logFile == args[1]
    ensures r.Some? && Config.Accepts(args, 2, atoi) ==> r.value.timeout == atoi(args[2]).value
    ensures r.Some? && !Config.Accepts(args, 2, atoi) ==> r.value.timeout == Config.DefaultTimeout
    ensures r.Some? && Config.Accepts(args, 3, atoi) ==> r.value.interval == atoi(args[3]).value
    ensures r.Some? && !Config.Accepts(args, 3, atoi) ==> r.value.interval == Config.DefaultInterval
  {
    if |args| < 2 {
      return None;  // usage, os.Exit(1)
    }
    var timeout := Config.DefaultTimeout;
    var interval := Config.DefaultInterval;
    if |args| > 2 {
      var t := atoi(args[2]);
      if t.Some? && t.value > 0 {
        timeout := t.value;
      }
    }
    if |args| > 3 {
      var i := atoi(args[3]);
      if i.Some? && i.value > 0 {
        interval := i.value;
      }
    }
    return Some(Config.Settings(args[0], args[1], timeout, interval));
  }

  class Monitor {
    const timeout: int
    const interval: int
    var process: Handle
    var lastModTime: int

    function Current(): Snapshot
      reads this
    {
      Snapshot(process, lastModTime)
    }

    /** NewMonitor, with the overflow-free conversion of seconds. */
    constructor (timeoutSeconds: int, intervalSeconds: int)
      ensures timeout == Config.Duration(timeoutSeconds) && interval == Config.Duration(intervalSeconds)
      ensures Current() == Initial
    {
      timeout := Config.Duration(timeoutSeconds);
      interval := Config.Duration(intervalSeconds);
      process := NoCmd;
      lastModTime := ZeroTime;
    }

    method CheckLogs(stat: Option<LogInfo>, now: int) returns (r: CheckResult)
      modifies this`lastModTime
      ensures (r, lastModTime) == CheckMtime(old(lastModTime), stat, now, timeout)
    {
      if stat.None? {
        return LogError;
      }
      var modTime := stat.value.modTime;
      if lastModTime == ZeroTime {
        lastModTime := modTime;
        return Active;
      }
      if modTime > lastModTime {
        lastModTime := modTime;
        return Active;
      }
      if now - lastModTime > timeout {
        return Stale;
      }
      return Active;
    }

    /** A KillBlocked path means the call never returns; the fields are then as it left them. */
    method KillProcess(kb: KillBackend) returns (path: KillPath, elapsed: nat)
      modifies this`process
      ensures var k := Kill(old(process), kb); path == k.path && elapsed == k.elapsed && process == k.handle
    {
      if !process.Running? {
        return NoProcess, 0;
      }
      // SIGTERM is sent and its error, if any, is ignored
      if ExitsWithin(kb.exitAfter, GraceWindow) {
        path, elapsed := Exited, kb.exitAfter.value;
      } else if kb.reapAfter.Some? {
        path, elapsed := KilledReaped, GraceWindow + kb.reapAfter.value;
      } else {
        return KillBlocked, GraceWindow;  // Wait never returns
      }
      process := NoCmd;
    }

    method StartProcess(kb: KillBackend, spawn: Option<int>) returns (outcome: RestartOutcome)
      modifies this`process
      ensures var r := Start(old(Current()), kb, spawn);
              Current() == r.next
              && outcome == (match r case Spawned(_, _) => Restarted
                                     case SpawnFailed(_, _) => RestartFailed
                                     case StartBlocked(_, _) => Hung)
    {
      if process != NoCmd {
        var path, _ := KillProcess(kb);
        if path == KillBlocked {
          return Hung;
        }
      }
      if spawn.None? {
        process := NotStarted;
        return RestartFailed;
      }
      process := Running(spawn.value);
      return Restarted;
    }

    method IsProcessRunning(probeOk: bool) returns (alive: bool)
      ensures alive == IsRunning(process, probeOk)
    {
      if !process.Running? {
        return false;
      }
      return probeOk;
    }

    method Run(launch: Launch, events: seq<Event>) returns (result: RunResult<Snapshot>)
      modifies this
      ensures result == Supervise(old(Current()), launch, events, timeout)
      ensures Current() == result.next
    {
      var first := StartProcess(launch.kill, launch.spawn);
      if first == Hung {
        return Blocked(Current());
      }
      if first == RestartFailed {
        return FatalStart(Current());
      }
      var i := 0;
      while i < |events|
        invariant 0 <= i <= |events|
        invariant RunFrom(Current(), events[i..], timeout) == Supervise(old(Current()), launch, events, timeout)
      {
        assert events[i..][0] == events[i] && events[i..][1..] == events[i + 1..];
        match events[i]
        case Interrupt(kb) =>
          var path, elapsed := KillProcess(kb);
          if path == KillBlocked {
            return Blocked(Current());
          }
          return Stopped(Current(), KillResult(path, process, elapsed));
        case Tick(t) =>
          ghost var before := Current();
          var alive := IsProcessRunning(t.probeOk);
          if !alive {
            var outcome := StartProcess(t.kill, t.spawn);
            if outcome == Hung {
              return Blocked(Current());
            }
            if outcome == Restarted {
              lastModTime := t.now;
            }
          } else {
            var ok := CheckLogs(t.stat, t.now);
            if ok == Stale {
              var path, _ := KillProcess(t.kill);
              if path == KillBlocked {
                return Blocked(Current());
              }
              var outcome := StartProcess(t.retryKill, t.spawn);
              if outcome == Hung {
                return Blocked(Current());
              }
              if outcome == Restarted {
                lastModTime := t.now;
              }
            }
          }
          assert TickStep(before, t, timeout).outcome != Hung;
          assert Current() == TickStep(before, t, timeout).next;
        i := i + 1;
      }
      return Pending(Current());
    }
  }
}
