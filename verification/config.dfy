/** The settings main reads from the command line (its defaults and the rule for accepting
    an optional number) and NewMonitor's conversion of those seconds into time.Duration
    (v2.go:37-38, procesy.go:30-31, v1.go:27-28). Go's `int` and `time.Duration` are 64-bit,
    and `time.Duration(n) * time.Second` wraps around on overflow. */
module Config {
  import opened Common
  import opened LogActivity

  /** main's defaults: 60 s timeout, 5 s interval. */
  const DefaultTimeout: int := 60
  const DefaultInterval: int := 5

  /** The settings main hands to NewMonitor. */
  datatype Settings = Settings(command: string, logFile: string, timeout: int, interval: int)

  /** main replaces a default by the optional argument args[k] (os.Args[k + 1]) only when
      it is present and strconv.Atoi turns it into a positive int. */
  predicate Accepts(args: seq<string>, k: nat, atoi: string -> Option<int>)
  {
    |args| > k && atoi(args[k]).Some? && atoi(args[k]).value > 0
  }

  const MinInt64: int := -0x8000_0000_0000_0000
  const MaxInt64: int := 0x7FFF_FFFF_FFFF_FFFF

  /** Two's-complement reduction of an integer into int64. */
  function Wrap64(x: int): (r: int)
    ensures MinInt64 <= r <= MaxInt64
    ensures MinInt64 <= x <= MaxInt64 ==> r == x
    ensures (r - x) % 0x1_0000_0000_0000_0000 == 0
  {
    (x - MinInt64) % 0x1_0000_0000_0000_0000 + MinInt64
  }

  /** The conversion as written: the product of seconds and one second, wrapped into int64. */
  function DurationAsWritten(seconds: int): (d: int)
    requires MinInt64 <= seconds <= MaxInt64
    ensures MinInt64 <= d <= MaxInt64
    ensures seconds * Second <= MaxInt64 && seconds >= 0 ==> d == seconds * Second
  {
    Wrap64(seconds * Second)
  }

  /** The smallest positive timeout (in seconds) that main accepts and that wraps to a
      negative duration. */
  const OverflowingSeconds: int := 9_223_372_037

  /** Counterexample: a large but valid timeout argument becomes a negative duration. */
  lemma LargeTimeoutWrapsNegative()
    ensures OverflowingSeconds > 0 && OverflowingSeconds <= MaxInt64
    ensures DurationAsWritten(OverflowingSeconds) < 0
    ensures forall s :: 0 < s < OverflowingSeconds ==> s * Second <= MaxInt64
  {
  }

  /** With that wrapped timeout every check that sees no change reports Stale, so the
      supervisor restarts a healthy but quiet child on every tick instead of never. */
  lemma WrappedTimeoutMakesQuietChecksStale(b: Baseline, info: LogInfo, now: int)
    requires b.lastModTime != ZeroTime && info.size <= b.lastLogSize && info.modTime <= b.lastModTime
    requires now >= b.lastModTime
    ensures Check(b, Some(info), now, DurationAsWritten(OverflowingSeconds)).0 == Stale
  {
    LargeTimeoutWrapsNegative();
  }

  /** The conversion as intended: seconds times one second, saturated at the int64 range,
      so a very large timeout means "practically never" instead of wrapping. */
  function Duration(seconds: int): (d: int)
    ensures MinInt64 <= d <= MaxInt64
    ensures MinInt64 <= seconds * Second <= MaxInt64 ==> d == seconds * Second
    ensures seconds > 0 ==> d >= Second
    ensures seconds * Second > MaxInt64 ==> d == MaxInt64
  {
    if seconds * Second > MaxInt64 then MaxInt64
    else if seconds * Second < MinInt64 then MinInt64
    else seconds * Second
  }

  /** The corrected conversion never shortens a longer timeout. */
  lemma DurationMonotonic(s: int, t: int)
    requires s <= t
    ensures Duration(s) <= Duration(t)
  {
    assert s * Second <= t * Second;
  }
}
