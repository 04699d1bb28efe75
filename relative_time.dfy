/**
 * The relative-time formatter: elapsed milliseconds bucketed into whole hours, then rendered
 * as "Just now", "{hours}h ago" or "{days}d ago".
 */
module RelativeTime {
  import opened Wrappers

  const HourMs: int := 3600000
  const DayMs: int := 24 * HourMs

  /** The three shapes of a formatted timestamp. */
  datatype Elapsed = JustNow | HoursAgo(hours: nat) | DaysAgo(days: nat)

  /**
   * Buckets an elapsed time. With a positive divisor Dafny's `/` rounds towards minus
   * infinity, as `Math.floor(diff / 3600000)` does, so negative differences (timestamps in
   * the future) land in JustNow.
   */
  function Bucket(diff: int): (e: Elapsed)
    ensures e.JustNow? <==> diff < HourMs
    ensures e.HoursAgo? ==> 1 <= e.hours < 24 && e.hours * HourMs <= diff < (e.hours + 1) * HourMs
    ensures e.DaysAgo? ==> 1 <= e.days && e.days * DayMs <= diff < (e.days + 1) * DayMs
  {
    var hours := diff / HourMs;
    if hours < 1 then JustNow
    else if hours < 24 then HoursAgo(hours)
    else
      DayBounds(diff);
      DaysAgo(hours / 24)
  }

  /** Whole days are whole hours divided by 24: the two floor divisions compose. */
  lemma DayBounds(diff: int)
    requires diff >= DayMs
    ensures (diff / HourMs) / 24 >= 1
    ensures ((diff / HourMs) / 24) * DayMs <= diff < ((diff / HourMs) / 24 + 1) * DayMs
  {
    var h := diff / HourMs;
    var d := h / 24;
    assert h * HourMs <= diff < (h + 1) * HourMs;
    assert d * 24 <= h < (d + 1) * 24;
    assert d * DayMs == (d * 24) * HourMs;
    assert (d + 1) * DayMs == ((d + 1) * 24) * HourMs;
    assert (h + 1) * HourMs <= ((d + 1) * 24) * HourMs;
  }

  function DigitChar(d: nat): (c: char)
    requires d < 10
    ensures '0' <= c <= '9'
  {
    "0123456789"[d]
  }

  function DigitValue(c: char): nat
    requires '0' <= c <= '9'
  {
    (c as int - '0' as int) as nat
  }

  predicate AllDigits(s: string) {
    forall i :: 0 <= i < |s| ==> '0' <= s[i] <= '9'
  }

  /** The decimal rendering of a natural number, as JavaScript's template literal prints it. */
  function NatToString(n: nat): (s: string)
    ensures |s| >= 1 && AllDigits(s)
    ensures s[0] == '0' ==> n == 0
    decreases n
  {
    if n < 10 then [DigitChar(n)] else NatToString(n / 10) + [DigitChar(n % 10)]
  }

  /** Reads back a string of decimal digits. */
  function ParseNat(s: string): nat
    requires AllDigits(s)
  {
    if s == [] then 0 else 10 * ParseNat(s[..|s| - 1]) + DigitValue(s[|s| - 1])
  }

  lemma {:induction false} NatRoundTrip(n: nat)
    ensures ParseNat(NatToString(n)) == n
    decreases n
  {
    var t := NatToString(n);
    if n < 10 {
      assert t[..|t| - 1] == [];
      assert DigitValue(DigitChar(n)) == n;
    } else {
      var q, d := n / 10, n % 10;
      assert t == NatToString(q) + [DigitChar(d)];
      assert t[..|t| - 1] == NatToString(q) && t[|t| - 1] == DigitChar(d);
      assert DigitValue(DigitChar(d)) == d;
      NatRoundTrip(q);
      assert n == 10 * q + d;
    }
  }

  function Render(e: Elapsed): string {
    match e
    case JustNow => "Just now"
    case HoursAgo(h) => NatToString(h) + "h ago"
    case DaysAgo(d) => NatToString(d) + "d ago"
  }

  /** `formatTime`: the timestamp's age at the instant `now`, rendered. */
  function FormatTime(now: int, timestamp: int): string {
    Render(Bucket(now - timestamp))
  }

  /** Reads a rendered age back into its bucket; None for any other text. */
  function ParseElapsed(s: string): Option<Elapsed> {
    if s == "Just now" then Some(JustNow)
    else if |s| > 5 && AllDigits(s[..|s| - 5]) && s[|s| - 5..] == "h ago" then Some(HoursAgo(ParseNat(s[..|s| - 5])))
    else if |s| > 5 && AllDigits(s[..|s| - 5]) && s[|s| - 5..] == "d ago" then Some(DaysAgo(ParseNat(s[..|s| - 5])))
    else None
  }

  /** Rendering loses nothing: the bucket can be read back from the text. */
  lemma {:induction false} RenderRoundTrip(e: Elapsed)
    ensures ParseElapsed(Render(e)) == Some(e)
  {
    match e
    case JustNow =>
    case HoursAgo(h) =>
      var s := Render(e);
      var digits := NatToString(h);
      assert s[..|s| - 5] == digits && s[|s| - 5..] == "h ago";
      assert s != "Just now" by { assert s[|s| - 1] == 'o'; }
      NatRoundTrip(h);
    case DaysAgo(d) =>
      var s := Render(e);
      var digits := NatToString(d);
      assert s[..|s| - 5] == digits && s[|s| - 5..] == "d ago";
      assert s != "Just now" by { assert s[|s| - 1] == 'o'; }
      NatRoundTrip(d);
  }

  /**
   * What a formatted age means: "Just now" under one hour, "{h}h ago" for h whole hours
   * below a day, "{d}d ago" for d whole days.
   */
  lemma FormatTimeMeaning(now: int, timestamp: int)
    ensures var diff := now - timestamp;
      match ParseElapsed(FormatTime(now, timestamp))
      case Some(JustNow) => diff < HourMs
      case Some(HoursAgo(h)) => 1 <= h < 24 && h * HourMs <= diff < (h + 1) * HourMs
      case Some(DaysAgo(d)) => 1 <= d && d * DayMs <= diff < (d + 1) * DayMs
      case None => false
  {
    RenderRoundTrip(Bucket(now - timestamp));
  }

  /** A timestamp 7,200,000 ms old is two hours old. */
  lemma TwoHoursAgo(now: int)
    ensures FormatTime(now, now - 7200000) == "2h ago"
  {
  }
}
