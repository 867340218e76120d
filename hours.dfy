/**
  `HoursAndMinutes`: the `HH:MM` template-literal type of the opening hours,
  hours 00 to 23 and minutes 00 to 59, written with ASCII digits.
 */
module Hours {
  import opened Chars

  /** The hour part: `0` or `1` followed by any digit, or `2` followed by `0` to `3`. */
  predicate IsHours(a: char, b: char) {
    ((a == '0' || a == '1') && IsDigit(b)) || (a == '2' && '0' <= b <= '3')
  }

  /** The minute part: `0` to `5` followed by any digit. */
  predicate IsMinutes(a: char, b: char) {
    '0' <= a <= '5' && IsDigit(b)
  }

  predicate IsHoursAndMinutes(s: string) {
    |s| == 5 && IsHours(s[0], s[1]) && s[2] == ':' && IsMinutes(s[3], s[4])
  }

  type HoursAndMinutes = s: string | IsHoursAndMinutes(s) witness "00:00"

  /** The hour a value denotes. */
  function HourOf(s: HoursAndMinutes): (h: nat)
    ensures h <= 23
  {
    DigitValue(s[0]) * 10 + DigitValue(s[1])
  }

  /** The minute a value denotes. */
  function MinuteOf(s: HoursAndMinutes): (m: nat)
    ensures m <= 59
  {
    DigitValue(s[3]) * 10 + DigitValue(s[4])
  }

  /** The digit character of a value below ten. */
  function DigitChar(d: nat): (c: char)
    requires d <= 9
    ensures IsDigit(c) && DigitValue(c) == d
  {
    ('0' as int + d) as char
  }

  /**
    The two-digit, zero-padded `HH:MM` spelling of an hour and a minute:
    every time of day from 00:00 to 23:59 has one, and it denotes that time.
   */
  function Format(h: nat, m: nat): (s: HoursAndMinutes)
    requires h <= 23 && m <= 59
    ensures HourOf(s) == h && MinuteOf(s) == m
  {
    [DigitChar(h / 10), DigitChar(h % 10), ':', DigitChar(m / 10), DigitChar(m % 10)]
  }

  /** Every value is the spelling of the time it denotes: there is no second spelling of a time. */
  lemma ReadThenFormat(s: HoursAndMinutes)
    ensures Format(HourOf(s), MinuteOf(s)) == s
  {
    var f := Format(HourOf(s), MinuteOf(s));
    assert f[0] == s[0] && f[1] == s[1] && f[3] == s[3] && f[4] == s[4];
  }

  /** A value is five characters, `:` in the middle and an ASCII digit everywhere else. */
  lemma HoursAndMinutesDigits(s: HoursAndMinutes)
    ensures |s| == 5 && s[2] == ':'
    ensures forall i :: 0 <= i < 5 && i != 2 ==> IsDigit(s[i])
  {
  }

  /** A string is a value exactly when it spells some time from 00:00 to 23:59. */
  lemma HoursAndMinutesIff(s: string)
    ensures IsHoursAndMinutes(s) <==> exists h: nat, m: nat :: h <= 23 && m <= 59 && Format(h, m) == s
  {
    if IsHoursAndMinutes(s) {
      ReadThenFormat(s);
    }
  }

  /** Neither "24:00" nor "12:60" is a value. */
  lemma HoursAndMinutesExamples()
    ensures IsHoursAndMinutes("08:30") && IsHoursAndMinutes("23:59")
    ensures !IsHoursAndMinutes("24:00") && !IsHoursAndMinutes("12:60") && !IsHoursAndMinutes("8:30")
  {
  }
}
