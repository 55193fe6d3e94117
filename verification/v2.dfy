/** The newest revision, v2.go: a Monitor guarded by a mutex and a cancellable context,
    whose termination waits are all bounded (5 s, then 2 s).

    The first half states each operation as a function of the monitor's fields and the
    backend's answers; the class Monitor at the end performs the same operations in place
    and is proved to agree with those functions. */
module V2 {
  import opened Common
  import opened LogActivity
  import Config

  /** The fields of Monitor that change: process, lastModTime, lastLogSize, and whether
      the context has been cancelled. */
  datatype Snapshot = Snapshot(process: Handle, baseline: Baseline, cancelled: bool)

  /** A monitor as NewMonitor returns it. */
  const Initial: Snapshot := Snapshot(NoCmd, Baseline(ZeroTime, 0), false)

  /** killProcessUnsafe (and killProcess, which only adds the lock). */
  function Kill(h: Handle, kb: KillBackend): (r: KillResult)
    // a nil Cmd or a Cmd without a Process: nothing happens
    ensures !h.Running? ==> r == KillResult(NoProcess, h, 0)
    // SIGTERM not sent: early return, the handle stays
    ensures h.Running? && !kb.termSent ==> r == KillResult(TermFailed, h, 0)
    // otherwise the handle is cleared on every path
    ensures h.Running? && kb.termSent ==> r.handle == NoCmd
    // SIGKILL is sent exactly when the child outlived the whole grace window
    ensures SentKill(r.path) <==> h.Running? && kb.termSent && !ExitsWithin(kb.exitAfter, GraceWindow)
    ensures SentKill(r.path) ==> r.elapsed >= GraceWindow
    // the caller never waits longer than 5 s + 2 s, and never blocks
    ensures r.elapsed <= GraceWindow + ReapWindow
    ensures r.path != KillBlocked
  {
    if !h.Running? then KillResult(NoProcess, h, 0)
    else if !kb.termSent then KillResult(TermFailed, h, 0)
    else if ExitsWithin(kb.exitAfter, GraceWindow) then KillResult(Exited, NoCmd, kb.exitAfter.value)
    else if ExitsWithin(kb.reapAfter, ReapWindow) then KillResult(KilledReaped, NoCmd, GraceWindow + kb.reapAfter.value)
    else KillResult(KilledUnreaped, NoCmd, GraceWindow + ReapWindow)
  }

  datatype StartResult = StartResult(ok: bool, killed: KillResult, next: Snapshot)

  /** startProcess: kill whatever is held, create a new Cmd, Start it. */
  function Start(s: Snapshot, kb: KillBackend, spawn: Option<int>, now: int): (r: StartResult)
    // any held child is sent to termination before the new Cmd exists
    ensures s.process != NoCmd ==> r.killed == Kill(s.process, kb)
    ensures s.process == NoCmd ==> r.killed.path == NoProcess
    ensures r.ok <==> spawn.Some?
    // success: the new child is held and the staleness clock restarts at `now`
    ensures r.ok ==> r.next == Snapshot(Running(spawn.value), s.baseline.(lastModTime := now), s.cancelled)
    // failure: a Cmd without a Process is held and lastModTime is untouched
    ensures !r.ok ==> r.next == s.(process := NotStarted)
    ensures r.killed.elapsed <= GraceWindow + ReapWindow
  {
    var killed := if s.process != NoCmd then Kill(s.process, kb) else KillResult(NoProcess, NoCmd, 0);
    match spawn
    case None => StartResult(false, killed, s.(process := NotStarted))
    case Some(pid) => StartResult(true, killed, Snapshot(Running(pid), s.baseline.(lastModTime := now), s.cancelled))
  }

  /** isProcessRunning: the cancelled-context test, then the signal-0 probe. */
  function IsRunning(s: Snapshot, probeOk: bool): (r: (bool, Snapshot))
    ensures r.0 <==> s.process.Running? && !s.cancelled && probeOk
    // a failed probe clears the handle; nothing else changes anything
    ensures s.process.Running? && !s.cancelled && !probeOk ==> r.1 == s.(process := NoCmd)
    ensures !(s.process.Running? && !s.cancelled && !probeOk) ==> r.1 == s
  {
    if !s.process.Running? || s.cancelled then (false, s)
    else if !probeOk then (false, s.(process := NoCmd))
    else (true, s)
  }

  datatype TickReport = TickReport(decision: Decision, outcome: RestartOutcome, next: Snapshot)

  /** One `case <-ticker.C` of Run. */
  function TickStep(s: Snapshot, t: TickInput, timeout: int): (r: TickReport)
    // a dead (or untracked) process restarts, for that reason only
    ensures r.decision == Restart(ProcessStopped) <==> !IsRunning(s, t.probeOk).0
    // the logs decide only when the process is alive
    ensures IsRunning(s, t.probeOk).0 ==>
              r.decision == Decide(true, Some(Check(s.baseline, t.stat, t.now, timeout).0))
    // a log error skips the tick: no restart and no change at all
    ensures r.decision == SkipTick ==> r.next == s
    ensures r.decision.Restart? <==> r.outcome == Restarted || r.outcome == RestartFailed
    ensures r.outcome == Restarted ==> t.spawn.Some? && r.next.process == Running(t.spawn.value)
                                       && r.next.baseline.lastModTime == t.now
    ensures r.outcome == RestartFailed ==> r.next.process == NotStarted
    // a restart is startProcess on the state the probe left (a Stale check changes nothing),
    // and it succeeds exactly when the spawn does
    ensures r.decision.Restart? ==>
              (var st := Start(IsRunning(s, t.probeOk).1, t.kill, t.spawn, t.now);
               r.next == st.next && (r.outcome == Restarted <==> st.ok))
    ensures r.decision.Restart? ==> (r.outcome == Restarted <==> t.spawn.Some?)
    // a healthy tick keeps the child and records what checkLogs recorded
    ensures r.decision == Healthy ==>
              r.outcome == NotNeeded && r.next == s.(baseline := Check(s.baseline, t.stat, t.now, timeout).1)
    ensures r.outcome != Hung && r.next.cancelled == s.cancelled
    // a set baseline stays set while the clock is past the zero instant
    ensures s.baseline.lastModTime > ZeroTime && t.now > ZeroTime ==> r.next.baseline.lastModTime > ZeroTime
  {
    var probe := IsRunning(s, t.probeOk);
    var alive := probe.0;
    var checked := if alive then Check(probe.1.baseline, t.stat, t.now, timeout) else (Active, probe.1.baseline);
    var s2 := probe.1.(baseline := checked.1);
    var d := Decide(alive, if alive then Some(checked.0) else None);
    if d.Restart? then
      var st := Start(s2, t.kill, t.spawn, t.now);
      TickReport(d, if st.ok then Restarted else RestartFailed, st.next)
    else
      TickReport(d, NotNeeded, s2)
  }

  /** What the select in Run can receive. */
  datatype Event =
    | Interrupt(kill: KillBackend)     // SIGINT or SIGTERM on sigChan
    | ContextDone(kill: KillBackend)   // m.ctx.Done()
    | Tick(input: TickInput)           // ticker.C

  /** Both shutdown branches: the context is (or becomes) cancelled and the child is killed. */
  function Shutdown(s: Snapshot, kb: KillBackend): (r: RunResult<Snapshot>)
    // the loop stops after killProcess on the held handle, whatever that handle is
    ensures r.Stopped? && r.finalKill == Kill(s.process, kb)
    ensures r.next == Snapshot(r.finalKill.handle, s.baseline, true)
    // afterwards no child is tracked unless SIGTERM could not be sent
    ensures r.finalKill.path != TermFailed ==> !r.next.process.Running?
    ensures s.process.Running? && kb.termSent ==> r.next.process == NoCmd
    // the shutdown takes at most 5 s + 2 s
    ensures r.finalKill.elapsed <= GraceWindow + ReapWindow
  {
    var k := Kill(s.process, kb);
    Stopped(Snapshot(k.handle, s.baseline, true), k)
  }

  /** Run's loop from state `s` over the events that arrive. */
  function RunFrom(s: Snapshot, events: seq<Event>, timeout: int): RunResult<Snapshot>
    decreases |events|
  {
    if events == [] then Pending(s)
    else match events[0]
      case Interrupt(kb) => Shutdown(s, kb)
      case ContextDone(kb) => Shutdown(s, kb)
      case Tick(t) => RunFrom(TickStep(s, t, timeout).next, events[1..], timeout)
  }

  /** Run: the first start (fatal on failure), then the loop. */
  function Supervise(s: Snapshot, launch: Launch, events: seq<Event>, timeout: int): RunResult<Snapshot>
  {
    var st := Start(s, launch.kill, launch.spawn, launch.now);
    if !st.ok then FatalStart(st.next) else RunFrom(st.next, events, timeout)
  }

  /** The number of restarts the loop performs. */
  function Restarts(s: Snapshot, events: seq<Event>, timeout: int): nat
    decreases |events|
  {
    if events == [] || !events[0].Tick? then 0
    else
      var r := TickStep(s, events[0].input, timeout);
      (if r.decision.Restart? then 1 else 0) + Restarts(r.next, events[1..], timeout)
  }

  predicate ClockPastZero(events: seq<Event>)
  {
    forall i :: 0 <= i < |events| && events[i].Tick? ==> events[i].input.now > ZeroTime
  }

  /** Once startProcess has set lastModTime to a real instant, no later state of the loop
      has a zero lastModTime. */
  lemma {:induction false} BaselineStaysSet(s: Snapshot, events: seq<Event>, timeout: int)
    requires s.baseline.lastModTime > ZeroTime && ClockPastZero(events)
    ensures RunFrom(s, events, timeout).next.baseline.lastModTime > ZeroTime
    decreases |events|
  {
    if events != [] && events[0].Tick? {
      assert ClockPastZero(events[1..]) by {
        forall i | 0 <= i < |events[1..]| && events[1..][i].Tick?
          ensures events[1..][i].input.now > ZeroTime
        {
          assert events[1..][i] == events[i + 1];
        }
      }
      BaselineStaysSet(TickStep(s, events[0].input, timeout).next, events[1..], timeout);
    }
  }

  /** The warm-up branch of checkLogs (lastModTime.IsZero) is never reached from Run:
      the state in which any tick runs (the state after the events before it) has a set
      baseline, because the first successful startProcess sets lastModTime to the clock. */
  lemma WarmUpUnreachable(launch: Launch, events: seq<Event>, timeout: int, k: nat, stat: Option<LogInfo>)
    requires launch.now > ZeroTime && launch.spawn.Some? && ClockPastZero(events)
    requires k <= |events|
    ensures var started := Start(Initial, launch.kill, launch.spawn, launch.now).next;
            !WarmsUp(RunFrom(started, events[..k], timeout).next.baseline, stat)
  {
    var started := Start(Initial, launch.kill, launch.spawn, launch.now).next;
    assert ClockPastZero(events[..k]) by {
      forall i | 0 <= i < k && events[..k][i].Tick?
        ensures events[..k][i].input.now > ZeroTime
      {
        assert events[..k][i] == events[i];
      }
    }
    BaselineStaysSet(started, events[..k], timeout);
  }

  /** The first start leaves lastLogSize at 0, so the first tick that finds the child alive
      and the log non-empty counts the whole file as growth: Healthy, however late it comes. */
  lemma FirstNonEmptyLogCountsAsGrowth(launch: Launch, t: TickInput, timeout: int)
    requires launch.now > ZeroTime && launch.spawn.Some? && t.probeOk
    requires t.stat.Some? && t.stat.value.size > 0
    ensures var started := Start(Initial, launch.kill, launch.spawn, launch.now).next;
            var r := TickStep(started, t, timeout);
            r.decision == Healthy && r.next.baseline == Baseline(t.now, t.stat.value.size)
  {
  }

  predicate QuietWindow(events: seq<Event>, t0: int, timeout: int)
  {
    forall i :: 0 <= i < |events| ==>
      events[i].Tick? && events[i].input.probeOk && t0 <= events[i].input.now <= t0 + timeout
  }

  /** Ticks that stay alive and come within `timeout` of t0, while lastModTime is at least
      t0 (as right after a start at t0), never restart: a fresh child gets a full window. */
  lemma {:induction false} FreshWindowNoRestart(s: Snapshot, events: seq<Event>, timeout: int, t0: int)
    requires t0 > ZeroTime && s.baseline.lastModTime >= t0
    requires s.process.Running? && !s.cancelled
    requires QuietWindow(events, t0, timeout)
    ensures Restarts(s, events, timeout) == 0
    ensures RunFrom(s, events, timeout).Pending?
    ensures RunFrom(s, events, timeout).next.process == s.process
    decreases |events|
  {
    if events != [] {
      var t := events[0].input;
      var r := TickStep(s, t, timeout);
      assert r.decision != Restart(ProcessStopped);
      assert Check(s.baseline, t.stat, t.now, timeout).0 != Stale;
      assert r.next.baseline.lastModTime >= t0;
      assert QuietWindow(events[1..], t0, timeout) by {
        forall i | 0 <= i < |events[1..]|
          ensures events[1..][i].Tick? && events[1..][i].input.probeOk
          ensures t0 <= events[1..][i].input.now <= t0 + timeout
        {
          assert events[1..][i] == events[i + 1];
        }
      }
      FreshWindowNoRestart(r.next, events[1..], timeout, t0);
    }
  }

  /** Ticks in which the child answers the probe and the log keeps showing activity: each
      tick either sees the log grow past `size` (the window then restarts at that tick) or
      comes within `timeout` of `anchor`, the last growth or start; the size never shrinks. */
  predicate Lively(size: int, anchor: int, events: seq<Event>, timeout: int)
    decreases |events|
  {
    events == [] ||
    (events[0].Tick? && events[0].input.probeOk &&
     var t := events[0].input;
     if t.stat.None? then Lively(size, anchor, events[1..], timeout)
     else if t.stat.value.size > size then t.now > ZeroTime && Lively(t.stat.value.size, t.now, events[1..], timeout)
     else t.stat.value.size == size && t.now - anchor <= timeout && Lively(size, anchor, events[1..], timeout))
  }

  /** However long the run, a child whose log keeps growing at least once per `timeout` is
      never restarted: each growth restarts the window. */
  lemma {:induction false} ActiveLogNoRestart(s: Snapshot, events: seq<Event>, timeout: int, anchor: int)
    requires s.process.Running? && !s.cancelled
    requires anchor > ZeroTime && s.baseline.lastModTime >= anchor
    requires Lively(s.baseline.lastLogSize, anchor, events, timeout)
    ensures Restarts(s, events, timeout) == 0
    ensures RunFrom(s, events, timeout).Pending?
    ensures RunFrom(s, events, timeout).next.process == s.process
    decreases |events|
  {
    if events != [] {
      var t := events[0].input;
      var r := TickStep(s, t, timeout);
      if t.stat.Some? && t.stat.value.size > s.baseline.lastLogSize {
        assert r.next.baseline == Baseline(t.now, t.stat.value.size);
        ActiveLogNoRestart(r.next, events[1..], timeout, t.now);
      } else {
        assert Check(s.baseline, t.stat, t.now, timeout).0 != Stale;
        assert r.next.baseline.lastModTime >= anchor && r.next.baseline.lastLogSize == s.baseline.lastLogSize;
        ActiveLogNoRestart(r.next, events[1..], timeout, anchor);
      }
    }
  }

  /** Whenever the loop returns, it has just run killProcess on the handle it held: the
      handle is gone unless SIGTERM could not be sent, the context is cancelled, and the
      termination took at most 7 s. The loop itself never blocks and never ends otherwise. */
  lemma {:induction false} ShutdownKillsFirst(s: Snapshot, events: seq<Event>, timeout: int)
    ensures var r := RunFrom(s, events, timeout);
            && (r.Stopped? || r.Pending?)
            && (r.Stopped? ==> r.next.process == r.finalKill.handle && r.next.cancelled
                               && (r.finalKill.path != TermFailed ==> !r.next.process.Running?)
                               && r.finalKill.elapsed <= GraceWindow + ReapWindow)
            // a run that stops has reached a shutdown event at some i, and its final kill is
            // killProcess on the handle the loop held at that moment
            && (r.Stopped? ==> exists i :: 0 <= i < |events| && (events[i].Interrupt? || events[i].ContextDone?) && RunFrom(s, events[..i], timeout).Pending?
                                 && r.finalKill == Kill(RunFrom(s, events[..i], timeout).next.process, events[i].kill))
    decreases |events|
  {
    if events != [] {
      if events[0].Tick? {
        var r := TickStep(s, events[0].input, timeout);
        ShutdownKillsFirst(r.next, events[1..], timeout);
        if RunFrom(s, events, timeout).Stopped? {
          var i :| 0 <= i < |events[1..]| && (events[1..][i].Interrupt? || events[1..][i].ContextDone?) && RunFrom(r.next, events[1..][..i], timeout).Pending?
                   && RunFrom(r.next, events[1..], timeout).finalKill
                      == Kill(RunFrom(r.next, events[1..][..i], timeout).next.process, events[1..][i].kill);
          assert events[..i + 1][0] == events[0] && events[..i + 1][1..] == events[1..][..i];
          assert events[i + 1] == events[1..][i];
        }
      } else {
        assert events[..0] == [];
      }
    }
  }

  /** A restart whose Start failed leaves a Cmd without a Process, so the very next tick
      sees "not running" and tries again: one attempt per interval, no stale handle. */
  lemma FailedRestartRetriedNextTick(s: Snapshot, t: TickInput, u: TickInput, timeout: int)
    requires TickStep(s, t, timeout).outcome == RestartFailed
    ensures TickStep(TickStep(s, t, timeout).next, u, timeout).decision == Restart(ProcessStopped)
  {
  }

  /** If SIGTERM cannot be sent, startProcess still overwrites the handle: the old child is
      no longer tracked although it was never confirmed to have exited. */
  lemma TermFailureForgetsChild(s: Snapshot, kb: KillBackend, pid: int, now: int)
    requires s.process.Running? && !kb.termSent && pid != s.process.pid
    ensures var r := Start(s, kb, Some(pid), now);
            r.killed.path == TermFailed && r.next.process == Running(pid)
  {
  }

  /** main of v2.go. `args` is os.Args[1:], `atoi` is strconv.Atoi. */
  method ParseArgs(args: seq<string>, atoi: string -> Option<int>) returns (r: Option<Config.Settings>)
    ensures r.None? <==> |args| < 2
    ensures r.Some? ==> r.value.command == args[0] && r.value.logFile == args[1]
    ensures r.Some? && Config.Accepts(args, 2, atoi) ==> r.value.timeout == atoi(args[2]).value
    ensures r.Some? && !Config.Accepts(args, 2, atoi) ==> r.value.timeout == Config.DefaultTimeout
    ensures r.Some? && Config.Accepts(args, 3, atoi) ==> r.value.interval == atoi(args[3]).value
    ensures r.Some? && !Config.Accepts(args, 3, atoi) ==> r.value.interval == Config.DefaultInterval
    ensures r.Some? ==> r.value.timeout >= 1 && r.value.interval >= 1
  {
    if |args| < 2 {
      return None;  // printUsage, os.Exit(1)
    }
    var timeout := Config.DefaultTimeout;
    var interval := Config.DefaultInterval;
    if |args| > 2 {
      var t := atoi(args[2]);
      if t.Some? && t.value > 0 {
        timeout := t.value;
      }
    }
    if |args| > 3 {
      var i := atoi(args[3]);
      if i.Some? && i.value > 0 {
        interval := i.value;
      }
    }
    // the floor below never changes anything: interval is already positive here
    assert interval >= 1;
    if interval < 1 {
      interval := 1;
    }
    return Some(Config.Settings(args[0], args[1], timeout, interval));
  }

  class Monitor {
    const timeout: int
    const interval: int
    var process: Handle
    var lastModTime: int
    var lastLogSize: int
    var cancelled: bool

    function Current(): Snapshot
      reads this
    {
      Snapshot(process, Baseline(lastModTime, lastLogSize), cancelled)
    }

    /** NewMonitor, with the overflow-free conversion of seconds. */
    constructor (timeoutSeconds: int, intervalSeconds: int)
      ensures timeout == Config.Duration(timeoutSeconds) && interval == Config.Duration(intervalSeconds)
      ensures Current() == Initial
    {
      timeout := Config.Duration(timeoutSeconds);
      interval := Config.Duration(intervalSeconds);
      process := NoCmd;
      lastModTime := ZeroTime;
      lastLogSize := 0;
      cancelled := false;
    }

    method CheckLogs(stat: Option<LogInfo>, now: int) returns (r: CheckResult)
      modifies this`lastModTime, this`lastLogSize
      ensures (r, Current().baseline) == Check(old(Current().baseline), stat, now, timeout)
    {
      if stat.None? {
        return LogError;
      }
      var info := stat.value;
      if lastModTime == ZeroTime {
        lastModTime, lastLogSize := info.modTime, info.size;
        return Active;
      }
      if info.size > lastLogSize {
        lastModTime, lastLogSize := now, info.size;
        return Active;
      }
      if info.modTime > lastModTime {
        lastModTime, lastLogSize := info.modTime, info.size;
        return Active;
      }
      if now - lastModTime > timeout {
        return Stale;
      }
      return Active;
    }

    method StartProcess(kb: KillBackend, spawn: Option<int>, now: int) returns (ok: bool)
      modifies this`process, this`lastModTime
      ensures var r := Start(old(Current()), kb, spawn, now); ok == r.ok && Current() == r.next
    {
      if process != NoCmd {
        var _, _ := KillProcessUnsafe(kb);
      }
      if spawn.None? {
        process := NotStarted;
        return false;
      }
      process := Running(spawn.value);
      lastModTime := now;
      return true;
    }

    method KillProcessUnsafe(kb: KillBackend) returns (path: KillPath, elapsed: nat)
      modifies this`process
      ensures var k := Kill(old(process), kb); path == k.path && elapsed == k.elapsed && process == k.handle
    {
      if !process.Running? {
        return NoProcess, 0;
      }
      if !kb.termSent {
        return TermFailed, 0;
      }
      if ExitsWithin(kb.exitAfter, GraceWindow) {
        path, elapsed := Exited, kb.exitAfter.value;
      } else if ExitsWithin(kb.reapAfter, ReapWindow) {
        path, elapsed := KilledReaped, GraceWindow + kb.reapAfter.value;
      } else {
        path, elapsed := KilledUnreaped, GraceWindow + ReapWindow;
      }
      process := NoCmd;
    }

    method KillProcess(kb: KillBackend) returns (path: KillPath, elapsed: nat)
      modifies this`process
      ensures var k := Kill(old(process), kb); path == k.path && elapsed == k.elapsed && process == k.handle
    {
      path, elapsed := KillProcessUnsafe(kb);
    }

    method IsProcessRunning(probeOk: bool) returns (alive: bool)
      modifies this`process
      ensures (alive, Current()) == IsRunning(old(Current()), probeOk)
    {
      if !process.Running? || cancelled {
        return false;
      }
      if !probeOk {
        process := NoCmd;
        return false;
      }
      return true;
    }

    method Run(launch: Launch, events: seq<Event>) returns (result: RunResult<Snapshot>)
      modifies this
      ensures result == Supervise(old(Current()), launch, events, timeout)
      ensures Current() == result.next
    {
      var started := StartProcess(launch.kill, launch.spawn, launch.now);
      if !started {
        return FatalStart(Current());
      }
      var i := 0;
      while i < |events|
        invariant 0 <= i <= |events|
        invariant RunFrom(Current(), events[i..], timeout) == Supervise(old(Current()), launch, events, timeout)
      {
        assert events[i..][0] == events[i] && events[i..][1..] == events[i + 1..];
        match events[i]
        case Interrupt(kb) =>
          cancelled := true;
          var path, elapsed := KillProcess(kb);
          return Stopped(Current(), KillResult(path, process, elapsed));
        case ContextDone(kb) =>
          cancelled := true;  // the context reports Done only once it is cancelled
          var path, elapsed := KillProcess(kb);
          return Stopped(Current(), KillResult(path, process, elapsed));
        case Tick(t) =>
          ghost var before := Current();
          var needRestart := false;
          var alive := IsProcessRunning(t.probeOk);
          if !alive {
            needRestart := true;
          }
          if !needRestart {
            var logs := CheckLogs(t.stat, t.now);
            if logs == Stale {
              needRestart := true;
            }
          }
          if needRestart {
            var _ := StartProcess(t.kill, t.spawn, t.now);
          }
          assert Current() == TickStep(before, t, timeout).next;
        i := i + 1;
      }
      return Pending(Current());
    }
  }
}
