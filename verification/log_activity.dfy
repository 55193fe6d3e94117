/** The log-activity tracker: checkLogs as a function of the stored baseline, the stat
    result, the clock and the timeout. v2.go and procesy.go share one definition (their
    checkLogs bodies are the same); v1.go's tracker looks at the modification time only. */
module LogActivity {
  import opened Common

  /** The monitor fields checkLogs reads and writes. `lastModTime` holds a wall-clock
      instant after a size increase or a start, and the file's own mtime after the warm-up
      and after a newer mtime: both kinds of instant live in this one field. */
  datatype Baseline = Baseline(lastModTime: int, lastLogSize: int)

  /** True when checkLogs takes its warm-up branch. */
  predicate WarmsUp(b: Baseline, stat: Option<LogInfo>)
  {
    stat.Some? && b.lastModTime == ZeroTime
  }

  /** checkLogs of v2.go and procesy.go. */
  function Check(b: Baseline, stat: Option<LogInfo>, now: int, timeout: int): (r: (CheckResult, Baseline))
    // a stat failure is an error, never staleness, and changes nothing
    ensures r.0 == LogError <==> stat.None?
    ensures stat.None? ==> r.1 == b
    // warm-up: the file's current (mtime, size) becomes the baseline; never Stale
    ensures WarmsUp(b, stat) ==> r == (Active, Baseline(stat.value.modTime, stat.value.size))
    // growth wins over the mtime test and restarts the clock at `now`
    ensures stat.Some? && !WarmsUp(b, stat) && stat.value.size > b.lastLogSize
            ==> r == (Active, Baseline(now, stat.value.size))
    // a newer mtime without growth adopts the file's (mtime, size)
    ensures stat.Some? && !WarmsUp(b, stat) && stat.value.size <= b.lastLogSize
            && stat.value.modTime > b.lastModTime
            ==> r == (Active, Baseline(stat.value.modTime, stat.value.size))
    // Stale exactly when nothing changed and more than `timeout` has passed; it mutates nothing
    ensures r.0 == Stale <==> stat.Some? && !WarmsUp(b, stat) && stat.value.size <= b.lastLogSize
                              && stat.value.modTime <= b.lastModTime && now - b.lastModTime > timeout
    ensures r.0 == Stale ==> r.1 == b
    // any change of the baseline is reported as activity
    ensures r.1 != b ==> r.0 == Active
    // and only warm-up, growth or a newer mtime change it: a quiet check inside the window keeps it
    ensures r.1 != b ==> stat.Some? && (WarmsUp(b, stat) || stat.value.size > b.lastLogSize
                                        || stat.value.modTime > b.lastModTime)
    // once a baseline exists, the staleness clock moves only forward or to `now`
    ensures !WarmsUp(b, stat) ==> r.1.lastModTime >= b.lastModTime || r.1.lastModTime == now
  {
    match stat
    case None => (LogError, b)
    case Some(info) =>
      if b.lastModTime == ZeroTime then (Active, Baseline(info.modTime, info.size))
      else if info.size > b.lastLogSize then (Active, Baseline(now, info.size))
      else if info.modTime > b.lastModTime then (Active, Baseline(info.modTime, info.size))
      else if now - b.lastModTime > timeout then (Stale, b)
      else (Active, b)
  }

  /** checkLogs of v1.go: the baseline is the last modification time alone. */
  function CheckMtime(lastModTime: int, stat: Option<LogInfo>, now: int, timeout: int): (r: (CheckResult, int))
    ensures r.0 == LogError <==> stat.None?
    ensures stat.None? ==> r.1 == lastModTime
    ensures stat.Some? && lastModTime == ZeroTime ==> r == (Active, stat.value.modTime)
    ensures stat.Some? && lastModTime != ZeroTime && stat.value.modTime > lastModTime
            ==> r == (Active, stat.value.modTime)
    ensures r.0 == Stale <==> stat.Some? && lastModTime != ZeroTime
                              && stat.value.modTime <= lastModTime && now - lastModTime > timeout
    ensures r.0 == Stale ==> r.1 == lastModTime
    ensures r.1 != lastModTime ==> r.0 == Active && stat.Some? && r.1 == stat.value.modTime
    ensures lastModTime != ZeroTime ==> r.1 >= lastModTime
  {
    match stat
    case None => (LogError, lastModTime)
    case Some(info) =>
      if lastModTime == ZeroTime then (Active, info.modTime)
      else if info.modTime > lastModTime then (Active, info.modTime)
      else if now - lastModTime > timeout then (Stale, lastModTime)
      else (Active, lastModTime)
  }

  /** The two clocks in one field: after a rewrite is seen through its mtime, staleness is
      measured from the file's mtime and not from the moment of the check, so the very next
      check of an unchanged file can report Stale however soon it follows. */
  lemma RewriteMeasuredFromFileTime(b: Baseline, info: LogInfo, now: int, later: int, timeout: int)
    requires b.lastModTime > ZeroTime && info.size <= b.lastLogSize && info.modTime > b.lastModTime
    requires later >= now && later - info.modTime > timeout
    ensures Check(b, Some(info), now, timeout).0 == Active
    ensures Check(Check(b, Some(info), now, timeout).1, Some(info), later, timeout).0 == Stale
  {
  }
}
