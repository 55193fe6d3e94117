/** The middle revision, procesy.go: no lock and no context. isProcessRunning is a pure
    probe, a restart runs killProcess and then startProcess, and after SIGKILL the monitor
    waits for the child without any time limit.

    As in V2, the operations are first stated as functions of the monitor's fields and the
    backend's answers, and the class Monitor at the end is proved to agree with them. */
module Procesy {
  import opened Common
  import opened LogActivity
  import Config

  /** The fields of Monitor that change: process, lastModTime, lastLogSize. */
  datatype Snapshot = Snapshot(process: Handle, baseline: Baseline)

  const Initial: Snapshot := Snapshot(NoCmd, Baseline(ZeroTime, 0))

  /** killProcess. */
  function Kill(h: Handle, kb: KillBackend): (r: KillResult)
    ensures !h.Running? ==> r == KillResult(NoProcess, h, 0)
    // SIGTERM not sent: early return, the handle stays
    ensures h.Running? && !kb.termSent ==> r == KillResult(TermFailed, h, 0)
    // SIGKILL is sent exactly when the child outlived the whole grace window
    ensures SentKill(r.path) <==> h.Running? && kb.termSent && !ExitsWithin(kb.exitAfter, GraceWindow)
    ensures SentKill(r.path) ==> r.elapsed >= GraceWindow
    // after SIGKILL the Wait has no limit: if the child is never reaped, the call never returns
    ensures r.path == KillBlocked <==> SentKill(r.path) && kb.reapAfter.None?
    // every path that returns after SIGTERM was sent clears the handle
    ensures h.Running? && kb.termSent && r.path != KillBlocked ==> r.handle == NoCmd
    ensures r.path == KillBlocked ==> r.handle == h
  {
    if !h.Running? then KillResult(NoProcess, h, 0)
    else if !kb.termSent then KillResult(TermFailed, h, 0)
    else if ExitsWithin(kb.exitAfter, GraceWindow) then KillResult(Exited, NoCmd, kb.exitAfter.value)
    else match kb.reapAfter
      case Some(d) => KillResult(KilledReaped, NoCmd, GraceWindow + d)
      case None => KillResult(KillBlocked, h, GraceWindow)
  }

  /** No bound holds for the time killProcess takes. */
  lemma KillWaitUnbounded(pid: int, bound: nat)
    ensures exists kb :: Kill(Running(pid), kb).path == KilledReaped && Kill(Running(pid), kb).elapsed > bound
  {
    var kb := KillBackend(true, None, Some(bound + 1));
    assert Kill(Running(pid), kb).path == KilledReaped && Kill(Running(pid), kb).elapsed > bound;
  }

  datatype StartResult =
    | Spawned(killed: KillResult, next: Snapshot)
    | SpawnFailed(killed: KillResult, next: Snapshot)
    | StartBlocked(killed: KillResult, next: Snapshot)

  /** startProcess: kill whatever is held, create a new Cmd, Start it. */
  function Start(s: Snapshot, kb: KillBackend, spawn: Option<int>, now: int): (r: StartResult)
    ensures s.process != NoCmd ==> r.killed == Kill(s.process, kb)
    ensures s.process == NoCmd ==> r.killed.path == NoProcess
    // a kill that never returns means nothing is started
    ensures r.StartBlocked? <==> r.killed.path == KillBlocked
    ensures r.StartBlocked? ==> r.next == s
    ensures r.Spawned? <==> !r.StartBlocked? && spawn.Some?
    // success: the new child is held and the staleness clock restarts at `now`
    ensures r.Spawned? ==> r.next == Snapshot(Running(spawn.value), s.baseline.(lastModTime := now))
    // failure: a Cmd without a Process is held and lastModTime is untouched
    ensures r.SpawnFailed? ==> r.next == s.(process := NotStarted)
  {
    var killed := if s.process != NoCmd then Kill(s.process, kb) else KillResult(NoProcess, NoCmd, 0);
    if killed.path == KillBlocked then StartBlocked(killed, s)
    else match spawn
      case None => SpawnFailed(killed, s.(process := NotStarted))
      case Some(pid) => Spawned(killed, Snapshot(Running(pid), s.baseline.(lastModTime := now)))
  }

  /** isProcessRunning: the signal-0 probe. It never clears the handle (see
      DeadChildKilledOnRestart for what that means for a restart). */
  predicate IsRunning(h: Handle, probeOk: bool)
  {
    h.Running? && probeOk
  }

  datatype TickReport = TickReport(decision: Decision, outcome: RestartOutcome, next: Snapshot)

  /** The restart of Run: killProcess, then startProcess (which kills again if the handle
      is still held because SIGTERM could not be sent). */
  function Restart(s: Snapshot, t: TickInput, reason: Reason): (r: TickReport)
    ensures r.decision == Decision.Restart(reason)
    ensures r.outcome != NotNeeded
    // the restart hangs exactly when killProcess never returns, or when SIGTERM failed and
    // the second termination inside startProcess never returns
    ensures var k := Kill(s.process, t.kill);
            r.outcome == Hung <==> k.path == KillBlocked
                                   || (k.path == TermFailed && Kill(k.handle, t.retryKill).path == KillBlocked)
    // otherwise it succeeds exactly when the spawn does
    ensures r.outcome == Restarted <==> r.outcome != Hung && t.spawn.Some?
    ensures r.outcome == Restarted ==> r.next == Snapshot(Running(t.spawn.value), s.baseline.(lastModTime := t.now))
    ensures r.outcome == RestartFailed ==> r.next == Snapshot(NotStarted, s.baseline)
    ensures r.outcome == Hung ==> r.next == s
  {
    var k := Kill(s.process, t.kill);
    if k.path == KillBlocked then TickReport(Decision.Restart(reason), Hung, s)
    else match Start(s.(process := k.handle), t.retryKill, t.spawn, t.now)
      case Spawned(_, next) => TickReport(Decision.Restart(reason), Restarted, next)
      case SpawnFailed(_, next) => TickReport(Decision.Restart(reason), RestartFailed, next)
      case StartBlocked(_, next) => TickReport(Decision.Restart(reason), Hung, next)
  }

  /** One `case <-ticker.C` of Run. */
  function TickStep(s: Snapshot, t: TickInput, timeout: int): (r: TickReport)
    ensures r.decision == Decision.Restart(ProcessStopped) <==> !IsRunning(s.process, t.probeOk)
    ensures IsRunning(s.process, t.probeOk) ==>
              r.decision == Decide(true, Some(Check(s.baseline, t.stat, t.now, timeout).0))
    ensures r.decision == SkipTick ==> r.next == s
    ensures r.decision.Restart? <==> r.outcome != NotNeeded
    // a restart runs on the unchanged state (a Stale check changes nothing)
    ensures r.decision.Restart? ==> r == Restart(s, t, r.decision.reason)
    // a healthy tick keeps the child and records what checkLogs recorded
    ensures r.decision == Healthy ==>
              r.outcome == NotNeeded && r.next == s.(baseline := Check(s.baseline, t.stat, t.now, timeout).1)
    ensures s.baseline.lastModTime > ZeroTime && t.now > ZeroTime ==> r.next.baseline.lastModTime > ZeroTime
  {
    var alive := IsRunning(s.process, t.probeOk);
    var checked := if alive then Check(s.baseline, t.stat, t.now, timeout) else (Active, s.baseline);
    var s2 := s.(baseline := checked.1);
    var d := Decide(alive, if alive then Some(checked.0) else None);
    if d.Restart? then Restart(s2, t, d.reason)
    else TickReport(d, NotNeeded, s2)
  }

  datatype Event =
    | Interrupt(kill: KillBackend)   // SIGINT or SIGTERM on sigChan
    | Tick(input: TickInput)         // ticker.C

  function RunFrom(s: Snapshot, events: seq<Event>, timeout: int): RunResult<Snapshot>
    decreases |events|
  {
    if events == [] then Pending(s)
    else match events[0]
      case Interrupt(kb) =>
        var k := Kill(s.process, kb);
        if k.path == KillBlocked then Blocked(s) else Stopped(s.(process := k.handle), k)
      case Tick(t) =>
        var r := TickStep(s, t, timeout);
        if r.outcome == Hung then Blocked(r.next) else RunFrom(r.next, events[1..], timeout)
  }

  function Supervise(s: Snapshot, launch: Launch, events: seq<Event>, timeout: int): RunResult<Snapshot>
  {
    match Start(s, launch.kill, launch.spawn, launch.now)
    case StartBlocked(_, next) => Blocked(next)
    case SpawnFailed(_, next) => FatalStart(next)
    case Spawned(_, next) => RunFrom(next, events, timeout)
  }

  function Restarts(s: Snapshot, events: seq<Event>, timeout: int): nat
    decreases |events|
  {
    if events == [] || !events[0].Tick? then 0
    else
      var r := TickStep(s, events[0].input, timeout);
      (if r.decision.Restart? then 1 else 0) + (if r.outcome == Hung then 0 else Restarts(r.next, events[1..], timeout))
  }

  /** A shutdown can leave the supervisor waiting forever on a child that is never reaped. */
  lemma ShutdownCanBlock(s: Snapshot, timeout: int)
    requires s.process.Running?
    ensures exists kb :: RunFrom(s, [Interrupt(kb)], timeout).Blocked?
  {
    var kb := KillBackend(true, None, None);
    assert RunFrom(s, [Interrupt(kb)], timeout).Blocked?;
  }

  predicate ClockPastZero(events: seq<Event>)
  {
    forall i :: 0 <= i < |events| && events[i].Tick? ==> events[i].input.now > ZeroTime
  }

  lemma {:induction false} BaselineStaysSet(s: Snapshot, events: seq<Event>, timeout: int)
    requires s.baseline.lastModTime > ZeroTime && ClockPastZero(events)
    ensures RunFrom(s, events, timeout).next.baseline.lastModTime > ZeroTime
    decreases |events|
  {
    if events != [] && events[0].Tick? && TickStep(s, events[0].input, timeout).outcome != Hung {
      assert ClockPastZero(events[1..]) by {
        forall i | 0 <= i < |events[1..]| && events[1..][i].Tick?
          ensures events[1..][i].input.now > ZeroTime
        {
          assert events[1..][i] == events[i + 1];
        }
      }
      BaselineStaysSet(TickStep(s, events[0].input, timeout).next, events[1..], timeout);
    }
  }

  /** As in v2.go, the warm-up branch of checkLogs is not reached from Run. */
  lemma WarmUpUnreachable(launch: Launch, events: seq<Event>, timeout: int, k: nat, stat: Option<LogInfo>)
    requires launch.now > ZeroTime && launch.spawn.Some? && ClockPastZero(events)
    requires k <= |events|
    ensures var started := Start(Initial, launch.kill, launch.spawn, launch.now).next;
            !WarmsUp(RunFrom(started, events[..k], timeout).next.baseline, stat)
  {
    var started := Start(Initial, launch.kill, launch.spawn, launch.now).next;
    assert ClockPastZero(events[..k]) by {
      forall i | 0 <= i < k && events[..k][i].Tick?
        ensures events[..k][i].input.now > ZeroTime
      {
        assert events[..k][i] == events[i];
      }
    }
    BaselineStaysSet(started, events[..k], timeout);
  }

  /** The first start leaves lastLogSize at 0, so the first tick that finds the child alive
      and the log non-empty counts the whole file as growth: Healthy, however late it comes. */
  lemma FirstNonEmptyLogCountsAsGrowth(launch: Launch, t: TickInput, timeout: int)
    requires launch.now > ZeroTime && launch.spawn.Some? && t.probeOk
    requires t.stat.Some? && t.stat.value.size > 0
    ensures var started := Start(Initial, launch.kill, launch.spawn, launch.now).next;
            var r := TickStep(started, t, timeout);
            r.decision == Healthy && r.next.baseline == Baseline(t.now, t.stat.value.size)
  {
  }

  predicate QuietWindow(events: seq<Event>, t0: int, timeout: int)
  {
    forall i :: 0 <= i < |events| ==>
      events[i].Tick? && events[i].input.probeOk && t0 <= events[i].input.now <= t0 + timeout
  }

  /** A child that stays alive gets a full `timeout` after its start without a restart. */
  lemma {:induction false} FreshWindowNoRestart(s: Snapshot, events: seq<Event>, timeout: int, t0: int)
    requires t0 > ZeroTime && s.baseline.lastModTime >= t0 && s.process.Running?
    requires QuietWindow(events, t0, timeout)
    ensures Restarts(s, events, timeout) == 0
    ensures RunFrom(s, events, timeout) == Pending(RunFrom(s, events, timeout).next)
    ensures RunFrom(s, events, timeout).next.process == s.process
    decreases |events|
  {
    if events != [] {
      var t := events[0].input;
      var r := TickStep(s, t, timeout);
      assert Check(s.baseline, t.stat, t.now, timeout).0 != Stale;
      assert r.next.baseline.lastModTime >= t0;
      assert QuietWindow(events[1..], t0, timeout) by {
        forall i | 0 <= i < |events[1..]|
          ensures events[1..][i].Tick? && events[1..][i].input.probeOk
          ensures t0 <= events[1..][i].input.now <= t0 + timeout
        {
          assert events[1..][i] == events[i + 1];
        }
      }
      FreshWindowNoRestart(r.next, events[1..], timeout, t0);
    }
  }

  /** Ticks in which the child answers the probe and the log keeps showing activity: each
      tick either sees the log grow past `size` (the window then restarts at that tick) or
      comes within `timeout` of `anchor`, the last growth or start; the size never shrinks. */
  predicate Lively(size: int, anchor: int, events: seq<Event>, timeout: int)
    decreases |events|
  {
    events == [] ||
    (events[0].Tick? && events[0].input.probeOk &&
     var t := events[0].input;
     if t.stat.None? then Lively(size, anchor, events[1..], timeout)
     else if t.stat.value.size > size then t.now > ZeroTime && Lively(t.stat.value.size, t.now, events[1..], timeout)
     else t.stat.value.size == size && t.now - anchor <= timeout && Lively(size, anchor, events[1..], timeout))
  }

  /** However long the run, a child whose log keeps growing at least once per `timeout` is
      never restarted: each growth restarts the window. */
  lemma {:induction false} ActiveLogNoRestart(s: Snapshot, events: seq<Event>, timeout: int, anchor: int)
    requires s.process.Running?
    requires anchor > ZeroTime && s.baseline.lastModTime >= anchor
    requires Lively(s.baseline.lastLogSize, anchor, events, timeout)
    ensures Restarts(s, events, timeout) == 0
    ensures RunFrom(s, events, timeout).Pending?
    ensures RunFrom(s, events, timeout).next.process == s.process
    decreases |events|
  {
    if events != [] {
      var t := events[0].input;
      var r := TickStep(s, t, timeout);
      if t.stat.Some? && t.stat.value.size > s.baseline.lastLogSize {
        assert r.next.baseline == Baseline(t.now, t.stat.value.size);
        ActiveLogNoRestart(r.next, events[1..], timeout, t.now);
      } else {
        assert Check(s.baseline, t.stat, t.now, timeout).0 != Stale;
        assert r.next.baseline.lastModTime >= anchor && r.next.baseline.lastLogSize == s.baseline.lastLogSize;
        ActiveLogNoRestart(r.next, events[1..], timeout, anchor);
      }
    }
  }

  /** When the loop returns after a shutdown event it has run killProcess on the handle it
      held, and the handle is gone unless SIGTERM could not be sent. */
  lemma {:induction false} ShutdownKillsFirst(s: Snapshot, events: seq<Event>, timeout: int)
    ensures var r := RunFrom(s, events, timeout);
            && (r.Stopped? || r.Blocked? || r.Pending?)
            && (r.Stopped? ==> r.next.process == r.finalKill.handle && r.finalKill.path != KillBlocked
                               && (r.finalKill.path != TermFailed ==> !r.next.process.Running?))
            // a run that stops has reached a shutdown event at some i, and its final kill is
            // killProcess on the handle the loop held at that moment
            && (r.Stopped? ==> exists i :: 0 <= i < |events| && events[i].Interrupt? && RunFrom(s, events[..i], timeout).Pending?
                                 && r.finalKill == Kill(RunFrom(s, events[..i], timeout).next.process, events[i].kill))
    decreases |events|
  {
    if events != [] {
      if events[0].Tick? {
        var r := TickStep(s, events[0].input, timeout);
        if r.outcome != Hung {
          ShutdownKillsFirst(r.next, events[1..], timeout);
          if RunFrom(s, events, timeout).Stopped? {
            var i :| 0 <= i < |events[1..]| && events[1..][i].Interrupt? && RunFrom(r.next, events[1..][..i], timeout).Pending?
                     && RunFrom(r.next, events[1..], timeout).finalKill
                        == Kill(RunFrom(r.next, events[1..][..i], timeout).next.process, events[1..][i].kill);
            assert events[..i + 1][0] == events[0] && events[..i + 1][1..] == events[1..][..i];
            assert events[i + 1] == events[1..][i];
          }
        }
      } else {
        assert events[..0] == [];
      }
    }
  }

  /** The probe keeps the handle of a child it finds dead, so the restart's killProcess is
      sent to that handle. The probe and SIGTERM are the same signal call on the same pid, so
      when the probe failed SIGTERM fails too: both terminations return early, nothing
      blocks, and startProcess overwrites the dead child's handle. */
  lemma DeadChildKilledOnRestart(s: Snapshot, t: TickInput, timeout: int)
    requires s.process.Running? && !t.probeOk
    ensures TickStep(s, t, timeout) == Restart(s, t, ProcessStopped)
    ensures TickStep(s, t, timeout).outcome == Hung <==>
              Kill(s.process, t.kill).path == KillBlocked
              || (Kill(s.process, t.kill).path == TermFailed && Kill(s.process, t.retryKill).path == KillBlocked)
    ensures !t.kill.termSent && !t.retryKill.termSent ==>
              && TickStep(s, t, timeout).outcome != Hung
              && TickStep(s, t, timeout).next.process == (if t.spawn.Some? then Running(t.spawn.value) else NotStarted)
  {
  }

  /** A failed restart leaves a Cmd without a Process, so the next tick retries. */
  lemma FailedRestartRetriedNextTick(s: Snapshot, t: TickInput, u: TickInput, timeout: int)
    requires TickStep(s, t, timeout).outcome == RestartFailed
    ensures TickStep(TickStep(s, t, timeout).next, u, timeout).decision == Decision.Restart(ProcessStopped)
  {
  }

  /** main of procesy.go (the creation of a missing log file is not modelled). */
  method ParseArgs(args: seq<string>, atoi: string -> Option<int>) returns (r: Option<Config.Settings>)
    ensures r.None? <==> |args| < 2
    ensures r.Some? ==> r.value.command == args[0] && r.value.logFile == args[1]
    ensures r.Some? && Config.Accepts(args, 2, atoi) ==> r.value.timeout == atoi(args[2]).value
    ensures r.Some? && !Config.Accepts(args, 2, atoi) ==> r.value.timeout == Config.DefaultTimeout
    ensures r.Some? && Config.Accepts(args, 3, atoi) ==> r.value.interval == atoi(args[3]).value
    ensures r.Some? && !Config.Accepts(args, 3, atoi) ==> r.value.interval == Config.DefaultInterval
  {
    if |args| < 2 {
      return None;  // printUsage, os.Exit(1)
    }
    var timeout := Config.DefaultTimeout;
    var interval := Config.DefaultInterval;
    if |args| > 2 {
      var t := atoi(args[2]);
      if t.Some? && t.value > 0 {
        timeout := t.value;
      }
    }
    if |args| > 3 {
      var i := atoi(args[3]);
      if i.Some? && i.value > 0 {
        interval := i.value;
      }
    }
    return Some(Config.Settings(args[0], args[1], timeout, interval));
  }

  class Monitor {
    const timeout: int
    const interval: int
    var process: Handle
    var lastModTime: int
    var lastLogSize: int

    function Current(): Snapshot
      reads this
    {
      Snapshot(process, Baseline(lastModTime, lastLogSize))
    }

    /** NewMonitor, with the overflow-free conversion of seconds. */
    constructor (timeoutSeconds: int, intervalSeconds: int)
      ensures timeout == Config.Duration(timeoutSeconds) && interval == Config.Duration(intervalSeconds)
      ensures Current() == Initial
    {
      timeout := Config.Duration(timeoutSeconds);
      interval := Config.Duration(intervalSeconds);
      process := NoCmd;
      lastModTime := ZeroTime;
      lastLogSize := 0;
    }

    method CheckLogs(stat: Option<LogInfo>, now: int) returns (r: CheckResult)
      modifies this`lastModTime, this`lastLogSize
      ensures (r, Current().baseline) == Check(old(Current().baseline), stat, now, timeout)
    {
      if stat.None? {
        return LogError;
      }
      var info := stat.value;
      if lastModTime == ZeroTime {
        lastModTime, lastLogSize := info.modTime, info.size;
        return Active;
      }
      if info.size > lastLogSize {
        lastModTime, lastLogSize := now, info.size;
        return Active;
      }
      if info.modTime > lastModTime {
        lastModTime, lastLogSize := info.modTime, info.size;
        return Active;
      }
      if now - lastModTime > timeout {
        return Stale;
      }
      return Active;
    }

    /** A KillBlocked path means the call never returns; the fields are then as it left them. */
    method KillProcess(kb: KillBackend) returns (path: KillPath, elapsed: nat)
      modifies this`process
      ensures var k := Kill(old(process), kb); path == k.path && elapsed == k.elapsed && process == k.handle
    {
      if !process.Running? {
        return NoProcess, 0;
      }
      if !kb.termSent {
        return TermFailed, 0;
      }
      if ExitsWithin(kb.exitAfter, GraceWindow) {
        path, elapsed := Exited, kb.exitAfter.value;
      } else if kb.reapAfter.Some? {
        path, elapsed := KilledReaped, GraceWindow + kb.reapAfter.value;
      } else {
        return KillBlocked, GraceWindow;  // Wait never returns
      }
      process := NoCmd;
    }

    method StartProcess(kb: KillBackend, spawn: Option<int>, now: int) returns (outcome: RestartOutcome)
      modifies this`process, this`lastModTime
      ensures var r := Start(old(Current()), kb, spawn, now);
              Current() == r.next
              && outcome == (match r case Spawned(_, _) => Restarted
                                     case SpawnFailed(_, _) => RestartFailed
                                     case StartBlocked(_, _) => Hung)
    {
      if process != NoCmd {
        var path, _ := KillProcess(kb);
        if path == KillBlocked {
          return Hung;
        }
      }
      if spawn.None? {
        process := NotStarted;
        return RestartFailed;
      }
      process := Running(spawn.value);
      lastModTime := now;
      return Restarted;
    }

    method IsProcessRunning(probeOk: bool) returns (alive: bool)
      ensures alive == IsRunning(process, probeOk)
    {
      if !process.Running? {
        return false;
      }
      return probeOk;
    }

    method Run(launch: Launch, events: seq<Event>) returns (result: RunResult<Snapshot>)
      modifies this
      ensures result == Supervise(old(Current()), launch, events, timeout)
      ensures Current() == result.next
    {
      var first := StartProcess(launch.kill, launch.spawn, launch.now);
      if first == Hung {
        return Blocked(Current());
      }
      if first == RestartFailed {
        return FatalStart(Current());
      }
      var i := 0;
      while i < |events|
        invariant 0 <= i <= |events|
        invariant RunFrom(Current(), events[i..], timeout) == Supervise(old(Current()), launch, events, timeout)
      {
        assert events[i..][0] == events[i] && events[i..][1..] == events[i + 1..];
        match events[i]
        case Interrupt(kb) =>
          var path, elapsed := KillProcess(kb);
          if path == KillBlocked {
            return Blocked(Current());
          }
          return Stopped(Current(), KillResult(path, process, elapsed));
        case Tick(t) =>
          ghost var before := Current();
          var needRestart := false;
          var alive := IsProcessRunning(t.probeOk);
          if !alive {
            needRestart := true;
          }
          if !needRestart {
            var logs := CheckLogs(t.stat, t.now);
            if logs == Stale {
              needRestart := true;
            }
          }
          if needRestart {
            var path, _ := KillProcess(t.kill);
            if path == KillBlocked {
              assert TickStep(before, t, timeout).outcome == Hung;
              return Blocked(Current());
            }
            var outcome := StartProcess(t.retryKill, t.spawn, t.now);
            if outcome == Hung {
              assert TickStep(before, t, timeout).outcome == Hung;
              return Blocked(Current());
            }
          }
          assert TickStep(before, t, timeout).outcome != Hung;
          assert Current() == TickStep(before, t, timeout).next;
        i := i + 1;
      }
      return Pending(Current());
    }
  }
}
