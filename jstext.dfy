/**
 * The few JavaScript runtime behaviours the pages rely on when they turn numbers into
 * text and back: decimal digit strings, `String(n)`, `padStart(2, "0")`, `Number`/`parseInt`
 * applied to digit strings, `Math.floor` of a quotient and the truncating `%` operator,
 * and the `${hours}h ${minutes}m` template both pages use for elapsed time.
 */
module JsText {

  predicate IsDigit(c: char) { '0' <= c <= '9' }

  predicate IsDigits(s: string) { forall i :: 0 <= i < |s| ==> IsDigit(s[i]) }

  function DigitChar(d: nat): (c: char)
    requires d < 10
    ensures IsDigit(c)
  {
    ('0' as int + d) as char
  }

  function DigitValue(c: char): (d: nat)
    requires IsDigit(c)
    ensures d < 10 && DigitChar(d) == c
  {
    c as int - '0' as int
  }

  /**
   * The value `Number(s)` gives a string of decimal digits (leading zeros allowed);
   * the empty string reads as 0, as `Number("")` does.
   */
  function DigitsValue(s: string): (v: nat)
    requires IsDigits(s)
    ensures v < Pow10(|s|)
  {
    if s == [] then 0 else DigitsValue(s[..|s| - 1]) * 10 + DigitValue(s[|s| - 1])
  }

  /** `String(n)` for a non-negative integer: shortest decimal digits, no leading zero. */
  function NatToString(n: nat): (s: string)
    ensures IsDigits(s) && 1 <= |s|
    ensures |s| > 1 ==> s[0] != '0'
  {
    if n < 10 then [DigitChar(n)] else NatToString(n / 10) + [DigitChar(n % 10)]
  }

  /** 10 to the power `n`: one more than the largest value `n` digits can write. */
  function Pow10(n: nat): (p: nat)
    ensures p >= 1
  {
    if n == 0 then 1 else 10 * Pow10(n - 1)
  }

  /** `String(n)` for any integer. */
  function IntToString(n: int): (s: string)
    ensures 1 <= |s|
    ensures n >= 0 <==> IsDigits(s)
    ensures n >= 0 ==> s == NatToString(n)
    ensures n < 0 ==> s[0] == '-' && s[1..] == NatToString(-n)
  {
    if n < 0 then
      var s := "-" + NatToString(-n);
      assert !IsDigit(s[0]);
      s
    else NatToString(n)
  }

  /** `String(x).padStart(2, "0")`. */
  function PadStart2(s: string): (r: string)
    ensures |r| == if |s| < 2 then 2 else |s|
    ensures r[|r| - |s|..] == s
    ensures forall i :: 0 <= i < |r| - |s| ==> r[i] == '0'
  {
    if |s| >= 2 then s else if |s| == 1 then "0" + s else "00"
  }

  /** `Math.floor(a / b)` for a positive divisor: the largest integer at most a/b. */
  function FloorDiv(a: int, b: int): (q: int)
    requires b > 0
    ensures q * b <= a < q * b + b
  {
    a / b
  }

  /** JavaScript's `a % b` for a positive divisor: the remainder takes the sign of `a`. */
  function JsRem(a: int, b: int): (r: int)
    requires b > 0
    ensures a >= 0 ==> 0 <= r < b && r == a - FloorDiv(a, b) * b
    ensures a < 0 ==> -b < r <= 0 && r == a + FloorDiv(-a, b) * b
  {
    if a >= 0 then a % b else -((-a) % b)
  }

  /**
   * The hours and minutes both pages compute from an elapsed `total` measured in units
   * of which `perMinute` make a minute (60 seconds; 60000 milliseconds):
   * `Math.floor(total / perHour)` and `Math.floor((total % perHour) / perMinute)`.
   */
  function HoursMinutes(total: int, perMinute: int): (hm: (int, int))
    requires perMinute > 0
    ensures -60 <= hm.1 < 60
    ensures total >= 0 ==> hm.0 >= 0 && hm.1 >= 0
    ensures total < 0 ==> hm.0 < 0 && hm.1 <= 0
  {
    var perHour := 60 * perMinute;
    var h := FloorDiv(total, perHour);
    var rem := JsRem(total, perHour);
    var m := FloorDiv(rem, perMinute);
    HourSign(total, perHour, h);
    MinuteBounds(rem, perMinute, m);
    (h, m)
  }

  /** The `${hours}h ${minutes}m` template. */
  function HoursMinutesText(hm: (int, int)): string
  {
    IntToString(hm.0) + "h " + IntToString(hm.1) + "m"
  }

  /** `calculateHours`/`calculateTotalHours` text for an elapsed `total`. */
  function ElapsedText(total: int, perMinute: int): string
    requires perMinute > 0
  {
    HoursMinutesText(HoursMinutes(total, perMinute))
  }

  // ----- lemmas -----

  /** For a non-negative total, the hours and minutes are the whole hours and the whole
      minutes left over: minutes lie in 0..59 and together they cover the total to within
      one minute. */
  lemma HoursMinutesOfNonNegative(total: int, perMinute: int)
    requires perMinute > 0 && total >= 0
    ensures var hm := HoursMinutes(total, perMinute);
      0 <= hm.1 < 60 && hm.0 >= 0 &&
      hm.0 == total / (60 * perMinute) &&
      hm.1 == (total % (60 * perMinute)) / perMinute &&
      (hm.0 * 60 + hm.1) * perMinute <= total < (hm.0 * 60 + hm.1 + 1) * perMinute
  {
    var perHour := 60 * perMinute;
    var h, rem := total / perHour, total % perHour;
    var m, r := rem / perMinute, rem % perMinute;
    assert HoursMinutes(total, perMinute) == (h, m);
    WholeMinutes(total, perMinute, h, rem, m, r);
  }

  lemma WholeMinutes(total: int, u: int, h: int, rem: int, m: int, r: int)
    requires u > 0 && total >= 0
    requires total == h * (60 * u) + rem && 0 <= rem < 60 * u
    requires rem == m * u + r && 0 <= r < u
    ensures 0 <= m < 60 && h >= 0
    ensures (h * 60 + m) * u <= total < (h * 60 + m + 1) * u
  {
    assert m >= 0 by {
      if m < 0 { MulMonotone(m, -1, u); }
    }
    assert m < 60 by {
      if m >= 60 { MulMonotone(60, m, u); }
    }
    assert h >= 0 by {
      if h < 0 { MulMonotone(h, -1, 60 * u); }
    }
    assert (h * 60 + m) * u == h * (60 * u) + m * u;
  }

  /** A non-negative elapsed total prints as its whole hours, "h ", the whole minutes
      left over and "m", each in plain decimal digits. */
  lemma ElapsedTextOfNonNegative(total: int, perMinute: int)
    requires perMinute > 0 && total >= 0
    ensures ElapsedText(total, perMinute) == NatToString(total / (60 * perMinute)) + "h "
                                             + NatToString((total % (60 * perMinute)) / perMinute) + "m"
  {
    HoursMinutesOfNonNegative(total, perMinute);
  }

  /** `Math.floor(total / perHour)` has the sign of `total`. */
  lemma HourSign(total: int, perHour: int, h: int)
    requires perHour > 0 && h * perHour <= total < h * perHour + perHour
    ensures total >= 0 ==> h >= 0
    ensures total < 0 ==> h < 0
  {
    if total >= 0 && h < 0 { MulMonotone(h + 1, 0, perHour); }
    if total < 0 && h >= 0 { MulMonotone(0, h, perHour); }
  }

  /** The minutes `Math.floor(rem / perMinute)` of a remainder `rem` strictly inside one
      hour either way: at least -60 (a remainder just above minus one hour floors to
      -60), below 60, and of the remainder's sign. */
  lemma MinuteBounds(rem: int, u: int, m: int)
    requires u > 0 && -60 * u < rem < 60 * u
    requires m * u <= rem < m * u + u
    ensures -60 <= m < 60
    ensures rem >= 0 ==> m >= 0
    ensures rem <= 0 ==> m <= 0
  {
    if m >= 60 { MulMonotone(60, m, u); }
    if m < -60 { MulMonotone(m + 1, -60, u); }
    if rem >= 0 && m < 0 { MulMonotone(m + 1, 0, u); }
    if rem <= 0 && m > 0 { MulMonotone(1, m, u); }
  }

  lemma MulMonotone(a: int, b: int, c: int)
    requires a <= b && c >= 0
    ensures a * c <= b * c
  {
  }

  /** A zero in front of a digit string does not change its value. */
  lemma {:induction false} LeadingZero(s: string)
    requires IsDigits(s)
    ensures IsDigits("0" + s) && DigitsValue("0" + s) == DigitsValue(s)
  {
    var z := "0" + s;
    if s != [] {
      assert z[..|z| - 1] == "0" + s[..|s| - 1];
      LeadingZero(s[..|s| - 1]);
    } else {
      assert z[..|z| - 1] == [];
    }
  }

  /** Padding to two digits keeps a digit string's value. */
  lemma PadKeepsValue(s: string)
    requires IsDigits(s)
    ensures IsDigits(PadStart2(s)) && DigitsValue(PadStart2(s)) == DigitsValue(s)
  {
    if |s| == 1 {
      LeadingZero(s);
    } else if |s| == 0 {
      LeadingZero("0");
      LeadingZero("");
    }
  }

  /** The value of a two-digit string. */
  lemma TwoDigitsValue(s: string)
    requires |s| == 2 && IsDigits(s)
    ensures DigitsValue(s) == DigitValue(s[0]) * 10 + DigitValue(s[1])
  {
    assert s[..1][..0] == [] && s[..1][0] == s[0];
    assert DigitsValue(s[..1]) == DigitValue(s[0]);
  }

  /** `String` and `Number` are inverse on non-negative integers. */
  lemma {:induction false} NatToStringRoundTrip(n: nat)
    ensures DigitsValue(NatToString(n)) == n
  {
    var s := NatToString(n);
    if n >= 10 {
      assert s[..|s| - 1] == NatToString(n / 10);
      NatToStringRoundTrip(n / 10);
    } else {
      assert s[..|s| - 1] == [];
    }
  }

  /** `String(n).padStart(2, "0")` for an hour (0..23) or a minute (0..59) is two digits,
      and reads back as `n`. */
  lemma TwoDigitRoundTrip(n: nat)
    requires n < 100
    ensures |PadStart2(NatToString(n))| == 2
    ensures IsDigits(PadStart2(NatToString(n)))
    ensures DigitsValue(PadStart2(NatToString(n))) == n
  {
    NatToStringRoundTrip(n);
    PadKeepsValue(NatToString(n));
    if n >= 10 {
      assert NatToString(n) == NatToString(n / 10) + [DigitChar(n % 10)];
    }
  }
}
