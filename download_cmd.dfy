/** formatRelativeTime of cmd/download.go: how long ago a millisecond
    timestamp was, in the largest whole unit up to days. The current time
    (time.Now().Unix()) is a parameter. */
module DownloadCmd {
  import opened Common
  import GoStrings

  /** The four phrasings "%ds ago", "%dm ago", "%dh ago" and "%dd ago". */
  datatype Ago = Secs(n: int) | Mins(n: int) | Hours(n: int) | Days(n: int)

  /** The seconds each unit stands for. */
  function Unit(a: Ago): nat
  {
    match a
    case Secs(_) => 1
    case Mins(_) => 60
    case Hours(_) => 3600
    case Days(_) => 86400
  }

  /** The age in seconds: now minus the timestamp truncated to seconds, in
      int64 arithmetic. */
  function AgeSeconds(timestampMs: int64, now: int64): int64
  {
    Wrap64(now - Quot(timestampMs, 1000))
  }

  /** Milliseconds become seconds by truncation toward zero: a timestamp
      1.5 s before the epoch counts as 1 s before it, and when the
      subtraction cannot overflow the age is exact. */
  lemma AgeTruncatesTowardZero(timestampMs: int64, now: int64)
    requires -0x4000_0000_0000_0000 <= now <= 0x4000_0000_0000_0000
    ensures AgeSeconds(-1500, 0) == 1
    ensures AgeSeconds(timestampMs, now) == now - Quot(timestampMs, 1000)
    ensures timestampMs >= 0 ==> AgeSeconds(timestampMs, now) == now - timestampMs / 1000
  {
    assert Quot(-1500, 1000) == -1;
  }

  /** The switch over diff: seconds below a minute (negative ages, from the
      future, included), then minutes, hours and days, each truncated. */
  function Bucket(diff: int): (a: Ago)
    ensures diff < 60 ==> a == Secs(diff)
    ensures 60 <= diff < 3600 ==> a.Mins? && 1 <= a.n <= 59
    ensures 3600 <= diff < 86400 ==> a.Hours? && 1 <= a.n <= 23
    ensures diff >= 86400 ==> a.Days? && a.n >= 1
  {
    if diff < 60 then Secs(diff)
    else if diff < 3600 then Mins(diff / 60)
    else if diff < 86400 then Hours(diff / 3600)
    else Days(diff / 86400)
  }

  /** A bucket counts whole units: diff lies in [n, n + 1) units, so the
      bucket's value determines diff up to one unit. */
  lemma BucketCountsWholeUnits(diff: int)
    ensures var a := Bucket(diff);
      a.n * Unit(a) <= diff < a.n * Unit(a) + Unit(a) || (a.Secs? && diff < 0 && a.n == diff)
  {
    var a := Bucket(diff);
    if diff >= 60 {
      DivBounds(diff, Unit(a));
    }
  }

  /** Exactly one unit applies to each age, and the unit never shrinks as
      the age grows. */
  lemma BucketUnitMonotone(d1: int, d2: int)
    requires d1 <= d2
    ensures Unit(Bucket(d1)) <= Unit(Bucket(d2))
  {
  }

  function Suffix(a: Ago): string
  {
    match a
    case Secs(_) => "s ago"
    case Mins(_) => "m ago"
    case Hours(_) => "h ago"
    case Days(_) => "d ago"
  }

  /** formatRelativeTime(timestampMs) at time now. */
  function FormatRelativeTime(timestampMs: int64, now: int64): string
  {
    var a := Bucket(AgeSeconds(timestampMs, now));
    GoStrings.FormatInt(a.n) + Suffix(a)
  }

  /** The rendered text determines the bucket: the number and the unit can
      be read back from it. */
  lemma FormatRelativeTimeDeterminesBucket(t1: int64, n1: int64, t2: int64, n2: int64)
    requires FormatRelativeTime(t1, n1) == FormatRelativeTime(t2, n2)
    ensures Bucket(AgeSeconds(t1, n1)) == Bucket(AgeSeconds(t2, n2))
  {
    var a, b := Bucket(AgeSeconds(t1, n1)), Bucket(AgeSeconds(t2, n2));
    var x, y := GoStrings.FormatInt(a.n), GoStrings.FormatInt(b.n);
    var s := x + Suffix(a);
    assert |Suffix(a)| == 5 && |Suffix(b)| == 5;
    assert x == s[..|s| - 5] == y;
    assert Suffix(a) == s[|s| - 5..] == Suffix(b);
    GoStrings.FormatIntInjective(a.n, b.n);
  }
}
