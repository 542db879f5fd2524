/** The time-of-day validator of the training-centre schema: the pattern
    `^(0?[1-9]|1[0-2]):([0-5]\d) (AM|PM)$` with the case-insensitive flag,
    written out as a predicate on strings, together with a decoder and a
    renderer that together characterise exactly which strings it admits. */
module TimeFormat {
  import opened Common

  predicate IsDigit(c: char) {
    '0' <= c <= '9'
  }

  /** `0?[1-9]|1[0-2]`: 1 to 9 with an optional leading zero, or 10 to 12. */
  predicate ValidHour(t: string) {
    || (|t| == 1 && '1' <= t[0] <= '9')
    || (|t| == 2 && t[0] == '0' && '1' <= t[1] <= '9')
    || (|t| == 2 && t[0] == '1' && '0' <= t[1] <= '2')
  }

  /** `[0-5]\d`: exactly two digits, the first at most 5. */
  predicate ValidMinute(t: string) {
    |t| == 2 && '0' <= t[0] <= '5' && IsDigit(t[1])
  }

  /** `AM|PM` under the `i` flag: each letter in either case. */
  predicate ValidMeridiem(t: string) {
    |t| == 2 && (t[0] == 'a' || t[0] == 'A' || t[0] == 'p' || t[0] == 'P') && (t[1] == 'm' || t[1] == 'M')
  }

  /** The anchored pattern: hour, `:`, minutes, one space, meridiem, and
      nothing before or after. The hour takes one or two characters, so the
      whole string has 7 or 8. */
  predicate IsValidTime(s: string) {
    && (|s| == 7 || |s| == 8)
    && var h := |s| - 6;
    && ValidHour(s[..h])
    && s[h] == ':'
    && ValidMinute(s[h + 1..h + 3])
    && s[h + 3] == ' '
    && ValidMeridiem(s[h + 4..])
  }

  /** A time of day on the 12-hour clock. */
  datatype Clock = Clock(hour: int, minute: int, pm: bool)

  predicate ClockOk(c: Clock) {
    1 <= c.hour <= 12 && 0 <= c.minute <= 59
  }

  /** The freedom the pattern leaves in writing one time: a leading zero on
      a one-digit hour, and the case of each meridiem letter. */
  datatype Spelling = Spelling(leadingZero: bool, upperFirst: bool, upperSecond: bool)

  function DigitValue(c: char): int {
    c as int - '0' as int
  }

  function DigitChar(d: int): (c: char)
    requires 0 <= d <= 9
    ensures IsDigit(c) && DigitValue(c) == d
  {
    (d + '0' as int) as char
  }

  function HourText(hour: int, leadingZero: bool): string
    requires 1 <= hour <= 12
  {
    if hour <= 9 then (if leadingZero then "0" else "") + [DigitChar(hour)]
    else ['1', DigitChar(hour - 10)]
  }

  function MeridiemText(pm: bool, upperFirst: bool, upperSecond: bool): string {
    var first := if pm then (if upperFirst then 'P' else 'p') else (if upperFirst then 'A' else 'a');
    [first, if upperSecond then 'M' else 'm']
  }

  /** Writes a clock time in the schema's format. */
  function Render(c: Clock, sp: Spelling): string
    requires ClockOk(c)
  {
    HourText(c.hour, sp.leadingZero) + ":" + [DigitChar(c.minute / 10), DigitChar(c.minute % 10)]
    + " " + MeridiemText(c.pm, sp.upperFirst, sp.upperSecond)
  }

  /** Reads a time in the schema's format; it succeeds exactly on the
      strings the validator admits, and yields a real clock time. */
  function ParseTime(s: string): (r: Option<Clock>)
    ensures r.Some? <==> IsValidTime(s)
    ensures r.Some? ==> ClockOk(r.value)
  {
    if !IsValidTime(s) then None
    else
      var h := |s| - 6;
      var hour := if h == 1 then DigitValue(s[0]) else 10 * DigitValue(s[0]) + DigitValue(s[1]);
      var minute := 10 * DigitValue(s[h + 1]) + DigitValue(s[h + 2]);
      Some(Clock(hour, minute, s[h + 4] == 'p' || s[h + 4] == 'P'))
  }

  /** How a valid string spells its time. */
  function SpellingOf(s: string): Spelling
    requires IsValidTime(s)
  {
    Spelling(|s| == 8 && s[0] == '0', s[|s| - 2] == 'A' || s[|s| - 2] == 'P', s[|s| - 1] == 'M')
  }

  /** Every clock time, in every spelling, is admitted and reads back as itself. */
  lemma RenderRoundTrip(c: Clock, sp: Spelling)
    requires ClockOk(c)
    ensures IsValidTime(Render(c, sp))
    ensures ParseTime(Render(c, sp)) == Some(c)
  {
  }

  /** Every admitted string is the rendering of the time it reads as, so the
      validator admits exactly the renderings of clock times. */
  lemma ParseRenders(s: string)
    requires IsValidTime(s)
    ensures Render(ParseTime(s).value, SpellingOf(s)) == s
  {
  }

  /** The edge cases of the pattern: case-insensitive meridiem, no hour 0
      or 13, no minute 60 or single-digit minute, and anchoring. */
  lemma TimeExamples()
    ensures IsValidTime("9:05 pm") && IsValidTime("09:05 Am") && IsValidTime("12:59 PM")
    ensures !IsValidTime("0:05 AM") && !IsValidTime("00:05 AM") && !IsValidTime("13:00 PM")
    ensures !IsValidTime("9:60 AM") && !IsValidTime("9:5 AM")
    ensures !IsValidTime(" 9:05 AM") && !IsValidTime("9:05 AM ") && !IsValidTime("9:05:00 AM")
    ensures !IsValidTime("9:05") && !IsValidTime("9:05AM")
  {
  }
}
