/**
 * The 24-hour time check of the Event pre-save hook:
 * `/^([0-1]?[0-9]|2[0-3]):[0-5][0-9]$/.test(time)`.
 */
module ClockTime {
  import opened AsciiText

  /** `[0-5][0-9]`: two minute digits. */
  predicate MinuteDigits(a: char, b: char) { '0' <= a <= '5' && IsDigit(b) }

  /** `[0-1][0-9]|2[0-3]`: two hour digits. */
  predicate HourDigits(a: char, b: char) { ('0' <= a <= '1' && IsDigit(b)) || (a == '2' && '0' <= b <= '3') }

  /**
   * The whole pattern, anchored at both ends. With the optional `[0-1]` absent the
   * hour is one digit (`[0-9]`); otherwise it is two.
   */
  predicate IsTime24(s: string)
  {
    (|s| == 4 && IsDigit(s[0]) && s[1] == ':' && MinuteDigits(s[2], s[3]))
    || (|s| == 5 && HourDigits(s[0], s[1]) && s[2] == ':' && MinuteDigits(s[3], s[4]))
  }

  function Digit(n: nat): char
    requires n < 10
  {
    ('0' as int + n) as char
  }

  function DigitValue(c: char): nat
    requires IsDigit(c)
  {
    c as int - '0' as int
  }

  function TwoDigits(n: nat): string
    requires n < 100
  {
    [Digit(n / 10), Digit(n % 10)]
  }

  /**
   * An independent description of the accepted strings: hour `h` and minute `m` of a
   * 24-hour clock, the minute always zero-padded, the hour zero-padded (`padded`) or,
   * below ten, written with one digit.
   */
  function ClockText(h: nat, m: nat, padded: bool): string
    requires h < 24 && m < 60 && (padded || h < 10)
  {
    (if padded then TwoDigits(h) else [Digit(h)]) + ":" + TwoDigits(m)
  }

  ghost predicate IsClockText(s: string)
  {
    exists h: nat, m: nat, padded: bool :: h < 24 && m < 60 && (padded || h < 10) && s == ClockText(h, m, padded)
  }

  /** Every clock reading, in either hour width, passes the check. */
  lemma ClockTextAccepted(h: nat, m: nat, padded: bool)
    requires h < 24 && m < 60 && (padded || h < 10)
    ensures IsTime24(ClockText(h, m, padded))
  {
    var s := ClockText(h, m, padded);
    assert MinuteDigits(Digit(m / 10), Digit(m % 10));
    if padded {
      assert s == [Digit(h / 10), Digit(h % 10), ':', Digit(m / 10), Digit(m % 10)];
      assert HourDigits(Digit(h / 10), Digit(h % 10));
    } else {
      assert s == [Digit(h), ':', Digit(m / 10), Digit(m % 10)];
    }
  }

  lemma DigitRoundTrip(c: char)
    requires IsDigit(c)
    ensures DigitValue(c) < 10 && Digit(DigitValue(c)) == c
  {
  }

  lemma TwoDigitsOf(a: char, b: char)
    requires IsDigit(a) && IsDigit(b)
    ensures 10 * DigitValue(a) + DigitValue(b) < 100
    ensures TwoDigits(10 * DigitValue(a) + DigitValue(b)) == [a, b]
  {
    var n := 10 * DigitValue(a) + DigitValue(b);
    assert n / 10 == DigitValue(a) && n % 10 == DigitValue(b);
    DigitRoundTrip(a);
    DigitRoundTrip(b);
  }

  /** The check accepts exactly the clock readings: `H:MM` or `HH:MM` with hour 0-23 and minute 0-59. */
  lemma TimeCheckExact(s: string)
    ensures IsTime24(s) <==> IsClockText(s)
  {
    if IsTime24(s) {
      var m: nat;
      var h: nat;
      var padded: bool;
      if |s| == 4 {
        TwoDigitsOf(s[2], s[3]);
        DigitRoundTrip(s[0]);
        h, m, padded := DigitValue(s[0]), 10 * DigitValue(s[2]) + DigitValue(s[3]), false;
        assert s == [s[0]] + ":" + [s[2], s[3]];
      } else {
        TwoDigitsOf(s[0], s[1]);
        TwoDigitsOf(s[3], s[4]);
        h, m, padded := 10 * DigitValue(s[0]) + DigitValue(s[1]), 10 * DigitValue(s[3]) + DigitValue(s[4]), true;
        assert s == [s[0], s[1]] + ":" + [s[3], s[4]];
      }
      assert s == ClockText(h, m, padded);
    }
    if IsClockText(s) {
      var h: nat, m: nat, padded: bool :| h < 24 && m < 60 && (padded || h < 10) && s == ClockText(h, m, padded);
      ClockTextAccepted(h, m, padded);
    }
  }

  /** The leading hour digit is optional; hours past 23, minutes past 59 and suffixes are rejected. */
  lemma TimeCheckExamples()
    ensures IsTime24("9:00") && IsTime24("09:00") && IsTime24("23:59") && IsTime24("00:00")
    ensures !IsTime24("24:00") && !IsTime24("9:60") && !IsTime24("09:00 AM") && !IsTime24("900")
  {
  }
}
