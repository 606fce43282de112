/**
 * The integer helpers behind the dashboard's rendering (src/ui.rs): the
 * reset countdown of a rate-limit window, the freshness banding of the last
 * import, and the percentages of the centered help overlay.
 */
module Ui {
  import opened Wrappers

  /** What the countdown to a window reset shows; `now` is the clock in Unix seconds. */
  datatype ResetTiming = UnknownReset | ResetNow | ResetIn(hours: nat, minutes: nat)

  const SecondsPerHour := 3600
  const SecondsPerMinute := 60

  function ResetTimingOf(resetsAt: Option<nat>, now: nat): (r: ResetTiming)
    ensures resetsAt.None? <==> r.UnknownReset?
    ensures r.ResetNow? <==> resetsAt.Some? && resetsAt.value <= now
    ensures r.ResetIn? ==>
      var remaining := resetsAt.value - now;
      && remaining > 0
      && r.minutes < 60
      && SecondsPerHour * r.hours + SecondsPerMinute * r.minutes <= remaining
      && remaining < SecondsPerHour * r.hours + SecondsPerMinute * (r.minutes + 1)
  {
    if resetsAt.None? then UnknownReset
    else if resetsAt.value <= now then ResetNow
    else
      var remaining := resetsAt.value - now;
      ResetIn(remaining / SecondsPerHour, (remaining % SecondsPerHour) / SecondsPerMinute)
  }

  /** The countdown's hours and minutes are the unique such split of the whole minutes remaining. */
  lemma ResetTimingIsUnique(resetsAt: nat, now: nat, hours: nat, minutes: nat)
    requires now < resetsAt
    requires minutes < 60
    requires SecondsPerHour * hours + SecondsPerMinute * minutes <= resetsAt - now
    requires resetsAt - now < SecondsPerHour * hours + SecondsPerMinute * (minutes + 1)
    ensures ResetTimingOf(Some(resetsAt), now) == ResetIn(hours, minutes)
  {
    var r := ResetTimingOf(Some(resetsAt), now);
    var a := 60 * hours + minutes;
    var b := 60 * r.hours + r.minutes;
    assert 60 * a <= resetsAt - now < 60 * (a + 1);
    assert 60 * b <= resetsAt - now < 60 * (b + 1);
    assert a == b;
  }

  function DigitChar(d: nat): char
    requires d < 10
  {
    "0123456789"[d]
  }

  /** Decimal digits of `n`, most significant first, as `format!("{n}")` writes them. */
  function Decimal(n: nat): (s: string)
    ensures |s| >= 1
    ensures forall i :: 0 <= i < |s| ==> '0' <= s[i] <= '9'
    decreases n
  {
    if n < 10 then [DigitChar(n)] else Decimal(n / 10) + [DigitChar(n % 10)]
  }

  function DigitsValue(s: string): nat
    requires forall i :: 0 <= i < |s| ==> '0' <= s[i] <= '9'
    decreases |s|
  {
    if s == [] then 0 else 10 * DigitsValue(s[..|s| - 1]) + (s[|s| - 1] - '0') as nat
  }

  /** Reading back the decimal text gives the number. */
  lemma {:induction false} DecimalRoundTrip(n: nat)
    ensures DigitsValue(Decimal(n)) == n
    decreases n
  {
    var s := Decimal(n);
    if n >= 10 {
      DecimalRoundTrip(n / 10);
      assert s[..|s| - 1] == Decimal(n / 10);
    }
  }

  function ResetTimingText(t: ResetTiming): (s: string)
    ensures t.UnknownReset? ==> s == "unknown"
    ensures t.ResetNow? ==> s == "now"
    ensures t.ResetIn? ==> |s| >= 7 && s[..3] == "in " && s[|s| - 1] == 'm'
    ensures t.ResetIn? ==>
      var h := Decimal(t.hours);
      var m := Decimal(t.minutes);
      && |s| == |h| + |m| + 6
      && s[3..3 + |h|] == h && s[3 + |h|..5 + |h|] == "h " && s[5 + |h|..|s| - 1] == m
  {
    match t
    case UnknownReset => "unknown"
    case ResetNow => "now"
    case ResetIn(hours, minutes) => "in " + Decimal(hours) + "h " + Decimal(minutes) + "m"
  }

  /** `format_reset_timing`. */
  function FormatResetTiming(resetsAt: Option<nat>, now: nat): (s: string)
    ensures resetsAt.None? ==> s == "unknown"
    ensures resetsAt.Some? && resetsAt.value <= now ==> s == "now"
    ensures resetsAt.Some? && resetsAt.value > now ==>
      var t := ResetTimingOf(resetsAt, now);
      s == "in " + Decimal(t.hours) + "h " + Decimal(t.minutes) + "m"
  {
    ResetTimingText(ResetTimingOf(resetsAt, now))
  }

  /**
   * For a reset in the future the text names exactly the whole hours and the
   * remaining whole minutes left until it.
   */
  lemma FormatResetTimingNamesTheWait(resetsAt: nat, now: nat, hours: nat, minutes: nat)
    requires now < resetsAt
    requires minutes < 60
    requires SecondsPerHour * hours + SecondsPerMinute * minutes <= resetsAt - now
    requires resetsAt - now < SecondsPerHour * hours + SecondsPerMinute * (minutes + 1)
    ensures FormatResetTiming(Some(resetsAt), now) == "in " + Decimal(hours) + "h " + Decimal(minutes) + "m"
  {
    ResetTimingIsUnique(resetsAt, now, hours, minutes);
  }

  /** How old the last import is. */
  datatype Freshness = FreshnessUnknown | Live | Stale | Old

  const LiveSecs := 30
  const StaleSecs := 120

  function FreshnessOf(ageSecs: Option<nat>): (f: Freshness)
    ensures ageSecs.None? <==> f.FreshnessUnknown?
    ensures f.Live? <==> ageSecs.Some? && ageSecs.value <= LiveSecs
    ensures f.Stale? <==> ageSecs.Some? && LiveSecs < ageSecs.value <= StaleSecs
    ensures f.Old? <==> ageSecs.Some? && StaleSecs < ageSecs.value
  {
    if ageSecs.None? then FreshnessUnknown
    else if ageSecs.value <= LiveSecs then Live
    else if ageSecs.value <= StaleSecs then Stale
    else Old
  }

  function Rank(f: Freshness): nat {
    match f
    case FreshnessUnknown => 0
    case Live => 1
    case Stale => 2
    case Old => 3
  }

  /** The band never gets fresher as the import ages. */
  lemma FreshnessIsMonotone(a: nat, b: nat)
    requires a <= b
    ensures Rank(FreshnessOf(Some(a))) <= Rank(FreshnessOf(Some(b)))
  {
  }

  /** `format!("{:<width$}", text)`: the text, left-aligned and padded with spaces to `width`. */
  function PadRight(text: string, width: nat): (s: string)
    ensures |s| == if |text| < width then width else |text|
    ensures s[..|text|] == text
    ensures forall i :: |text| <= i < |s| ==> s[i] == ' '
  {
    if |text| < width then text + seq(width - |text|, _ => ' ') else text
  }

  const LabelWidth := 7

  /** The state word of the freshness badge. */
  function StateName(f: Freshness): string {
    match f
    case FreshnessUnknown => "UNKNOWN"
    case Live => "LIVE"
    case Stale => "STALE"
    case Old => "OLD"
  }

  /** The badge text: UNKNOWN as is, the known states padded to seven characters. */
  function FreshnessLabel(f: Freshness): (s: string)
    ensures f.FreshnessUnknown? ==> s == "UNKNOWN"
    ensures f.Live? ==> s == "LIVE   "
    ensures f.Stale? ==> s == "STALE  "
    ensures f.Old? ==> s == "OLD    "
    ensures |s| == LabelWidth
  {
    if f.FreshnessUnknown? then StateName(f) else PadRight(StateName(f), LabelWidth)
  }

  /** The three percentage constraints `centered_rect` gives along one axis. */
  datatype CenteredSplit = CenteredSplit(before: nat, middle: nat, after: nat)

  function CenteredPercentages(percent: nat): (r: CenteredSplit)
    requires percent <= 100
    ensures r.middle == percent
    ensures r.before == r.after
    ensures 99 <= r.before + r.middle + r.after <= 100
    ensures r.before + r.middle + r.after == 100 <==> percent % 2 == 0
  {
    CenteredSplit((100 - percent) / 2, percent, (100 - percent) / 2)
  }

  /** `centered_rect`'s constraints: vertical split by `percentY`, then horizontal by `percentX`. */
  function CenteredRectConstraints(percentX: nat, percentY: nat): (r: (CenteredSplit, CenteredSplit))
    requires percentX <= 100 && percentY <= 100
    ensures r.0.middle == percentY && r.1.middle == percentX
    ensures r.0.before == r.0.after && r.1.before == r.1.after
  {
    (CenteredPercentages(percentY), CenteredPercentages(percentX))
  }
}
