/** The session list's two computed texts: how long ago a session was created,
    bucketed into minutes, hours or days, and the label shown for it. */
module Sidebar {

  /** `Date.now() - new Date(isoDate).getTime()`: a whole number of
      milliseconds, or NaN when the creation time does not parse. */
  datatype Elapsed = Millis(ms: int) | NotANumber

  const MinuteMs := 60000
  const HourMs := 3600000
  const DayMs := 86400000

  function DigitChar(d: nat): (c: char)
    requires d < 10
    ensures '0' <= c <= '9'
  {
    ('0' as int + d) as char
  }

  predicate IsDigit(c: char) {
    '0' <= c <= '9'
  }

  /** How a non-negative integer is written in a template literal. */
  function Decimal(n: nat): (s: string)
    ensures s != []
    decreases n
  {
    if n < 10 then [DigitChar(n)] else Decimal(n / 10) + [DigitChar(n % 10)]
  }

  /** The value of a string of decimal digits. */
  function ParseDecimal(s: string): nat
    requires forall i :: 0 <= i < |s| ==> IsDigit(s[i])
    decreases |s|
  {
    if s == [] then 0
    else
      var last := s[|s| - 1];
      assert IsDigit(last);
      ParseDecimal(s[..|s| - 1]) * 10 + (last as int - '0' as int)
  }

  /** A number is written with digits only, without leading zeros, and reads back as itself. */
  lemma {:induction false} DecimalRoundTrip(n: nat)
    ensures forall i :: 0 <= i < |Decimal(n)| ==> IsDigit(Decimal(n)[i])
    ensures Decimal(n)[0] == '0' ==> n == 0
    ensures ParseDecimal(Decimal(n)) == n
    decreases n
  {
    if n >= 10 {
      DecimalRoundTrip(n / 10);
      var s := Decimal(n);
      assert s[..|s| - 1] == Decimal(n / 10);
      assert s[0] == Decimal(n / 10)[0];
    }
  }

  /** `relativeTime`: minutes are the floor of the difference over a minute,
      hours the floor of the minutes over 60, days the floor of the hours over 24. */
  function RelativeTime(diff: Elapsed): string {
    match diff
    case NotANumber => "NaNd ago"
    case Millis(ms) =>
      var minutes := ms / MinuteMs;
      if minutes < 1 then "just now"
      else if minutes < 60 then Decimal(minutes) + "m ago"
      else
        var hours := minutes / 60;
        if hours < 24 then Decimal(hours) + "h ago"
        else Decimal(hours / 24) + "d ago"
  }

  lemma MinutesToHours(ms: int)
    ensures (ms / MinuteMs) / 60 == ms / HourMs
  {
  }

  lemma HoursToDays(ms: int)
    ensures (ms / HourMs) / 24 == ms / DayMs
  {
  }

  /** The four buckets, by the difference in milliseconds: every difference
      falls in exactly one, and the number shown lies in the bucket's range. */
  lemma RelativeTimeBuckets(ms: int)
    ensures ms < MinuteMs ==> RelativeTime(Millis(ms)) == "just now"
    ensures MinuteMs <= ms < HourMs ==>
      && RelativeTime(Millis(ms)) == Decimal(ms / MinuteMs) + "m ago"
      && 1 <= ms / MinuteMs < 60
    ensures HourMs <= ms < DayMs ==>
      && RelativeTime(Millis(ms)) == Decimal(ms / HourMs) + "h ago"
      && 1 <= ms / HourMs < 24
    ensures DayMs <= ms ==>
      && RelativeTime(Millis(ms)) == Decimal(ms / DayMs) + "d ago"
      && 1 <= ms / DayMs
  {
    MinutesToHours(ms);
    HoursToDays(ms);
  }

  /** A creation time that does not parse is shown as NaN days. */
  lemma InvalidDateShowsNaN()
    ensures RelativeTime(NotANumber) == "NaN" + "d ago"
  {
  }

  const NewChatLabel := "New chat"

  /** `session.preview || "New chat"`: the preview, unless it is empty. */
  function SessionLabel(preview: string): (text: string)
    ensures text != []
    ensures preview != [] ==> text == preview
    ensures preview == [] ==> text == NewChatLabel
  {
    if preview != [] then preview else NewChatLabel
  }
}
