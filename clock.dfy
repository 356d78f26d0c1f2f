/**
 * The "HH:MM" clock text both pages show: built with `padStart(2, "0")` from an hour and a
 * minute, and read back by the time clock's worked-time total with
 * `time.split(":").map(Number)`.
 */
module Clock {
  import opened JsText

  /** Index of the first ':' in `t`, or |t| when there is none. */
  function ColonIndex(t: string): (k: nat)
    ensures k <= |t|
    ensures forall i :: 0 <= i < k ==> t[i] != ':'
    ensures k < |t| ==> t[k] == ':'
  {
    if t == [] then 0 else if t[0] == ':' then 0 else 1 + ColonIndex(t[1..])
  }

  /** Digits, one ':', digits: the shape of every clock text the pages build. */
  predicate WellFormedTime(t: string)
  {
    var k := ColonIndex(t);
    k < |t| && IsDigits(t[..k]) && IsDigits(t[k + 1..])
  }

  /** `time.split(":").map(Number)` turned into seconds of the day: `h * 3600 + m * 60`. */
  function ClockSeconds(t: string): (seconds: int)
    requires WellFormedTime(t)
    ensures seconds >= 0 && seconds % 60 == 0
  {
    var k := ColonIndex(t);
    DigitsValue(t[..k]) * 3600 + DigitsValue(t[k + 1..]) * 60
  }

  /** `${String(hour).padStart(2, "0")}:${String(minute).padStart(2, "0")}`. */
  function ClockText(hour: string, minute: string): string
  {
    PadStart2(hour) + ":" + PadStart2(minute)
  }

  // ----- lemmas -----

  /** With hour and minute texts of at most two characters, the clock text is five
      characters: the padded hour, ':' at index 2, the padded minute. */
  lemma ClockTextShape(hour: string, minute: string)
    requires |hour| <= 2 && |minute| <= 2
    ensures var t := ClockText(hour, minute);
      |t| == 5 && t[..2] == PadStart2(hour) && t[2] == ':' && t[3..] == PadStart2(minute)
  {
    var t := ClockText(hour, minute);
    assert t[..2] == PadStart2(hour);
    assert t[3..] == PadStart2(minute);
  }

  /** A run of digits followed by ':' has its first ':' right after the digits. */
  lemma {:induction false} ColonAfterDigits(d: string, rest: string)
    requires IsDigits(d)
    ensures ColonIndex(d + ":" + rest) == |d|
  {
    if d != [] {
      assert (d + ":" + rest)[1..] == d[1..] + ":" + rest;
      ColonAfterDigits(d[1..], rest);
    }
  }

  /** The "HH:MM" text built from two digit strings reads back as their seconds of the
      day: the text `addCustomRecord` writes and the parse `calculateHours` does agree. */
  lemma ClockTextRoundTrip(hour: string, minute: string)
    requires IsDigits(hour) && IsDigits(minute)
    ensures WellFormedTime(ClockText(hour, minute))
    ensures ClockSeconds(ClockText(hour, minute)) == DigitsValue(hour) * 3600 + DigitsValue(minute) * 60
  {
    var h, m := PadStart2(hour), PadStart2(minute);
    PadKeepsValue(hour);
    PadKeepsValue(minute);
    var t := ClockText(hour, minute);
    ColonAfterDigits(h, m);
    assert t[..|h|] == h;
    assert t[|h| + 1..] == m;
  }

  /** The clock text of an hour 0..23 and a minute 0..59 is five characters "HH:MM" and
      reads back as that hour and minute. */
  lemma ClockOfNumbers(hour: nat, minute: nat)
    requires hour < 24 && minute < 60
    ensures |ClockText(NatToString(hour), NatToString(minute))| == 5
    ensures WellFormedTime(ClockText(NatToString(hour), NatToString(minute)))
    ensures ClockSeconds(ClockText(NatToString(hour), NatToString(minute))) == hour * 3600 + minute * 60
  {
    TwoDigitRoundTrip(hour);
    TwoDigitRoundTrip(minute);
    NatToStringRoundTrip(hour);
    NatToStringRoundTrip(minute);
    ClockTextRoundTrip(NatToString(hour), NatToString(minute));
  }
}
