/** Times of day as minutes 0..1439 and as the zero-padded "HH:MM" labels
    the calendar prints with `padStart(2, '0')` and `toTimeString().slice(0, 5)`,
    and the `<input type="time">` values the appointment form compares. */
module ClockTimes {
  import opened Text

  type MinuteOfDay = m: int | 0 <= m < 1440

  /** `n.toString().padStart(2, '0')` for `n` below 100. */
  function Pad2(n: int): (s: string)
    requires 0 <= n < 100
    ensures |s| == 2 && IsDigit(s[0]) && IsDigit(s[1])
    ensures 10 * DigitValue(s[0]) + DigitValue(s[1]) == n
  {
    [DigitChar(n / 10), DigitChar(n % 10)]
  }

  /** The "HH:MM" label of a minute of the day. */
  function HHMM(m: MinuteOfDay): (s: string)
    ensures |s| == 5 && s[2] == ':'
  {
    Pad2(m / 60) + ":" + Pad2(m % 60)
  }

  /** A well-formed 24-hour "HH:MM" string. */
  predicate IsHHMM(s: string)
  {
    && |s| == 5
    && IsDigit(s[0]) && IsDigit(s[1]) && s[2] == ':' && IsDigit(s[3]) && IsDigit(s[4])
    && 10 * DigitValue(s[0]) + DigitValue(s[1]) < 24
    && 10 * DigitValue(s[3]) + DigitValue(s[4]) < 60
  }

  /** The minute of the day an "HH:MM" string names (`split(':').map(Number)`). */
  function ParseHHMM(s: string): (m: MinuteOfDay)
    requires IsHHMM(s)
  {
    (10 * DigitValue(s[0]) + DigitValue(s[1])) * 60 + 10 * DigitValue(s[3]) + DigitValue(s[4])
  }

  /** Formatting yields a well-formed label that parses back to the minute. */
  lemma FormatThenParse(m: MinuteOfDay)
    ensures IsHHMM(HHMM(m))
    ensures ParseHHMM(HHMM(m)) == m
  {
    var s := HHMM(m);
    assert s[0..2] == Pad2(m / 60) && s[3..5] == Pad2(m % 60);
    assert 10 * DigitValue(s[0]) + DigitValue(s[1]) == m / 60;
    assert 10 * DigitValue(s[3]) + DigitValue(s[4]) == m % 60;
  }

  lemma DigitChars(c: char)
    requires IsDigit(c)
    ensures DigitChar(DigitValue(c)) == c
  {
  }

  /** A well-formed label is the format of the minute it parses to. */
  lemma ParseThenFormat(s: string)
    requires IsHHMM(s)
    ensures HHMM(ParseHHMM(s)) == s
  {
    var m := ParseHHMM(s);
    var h := 10 * DigitValue(s[0]) + DigitValue(s[1]);
    var mm := 10 * DigitValue(s[3]) + DigitValue(s[4]);
    assert m / 60 == h && m % 60 == mm;
    DigitChars(s[0]); DigitChars(s[1]); DigitChars(s[3]); DigitChars(s[4]);
  }

  /** Distinct minutes have distinct labels. */
  lemma HHMMInjective(a: MinuteOfDay, b: MinuteOfDay)
    requires HHMM(a) == HHMM(b)
    ensures a == b
  {
    FormatThenParse(a);
    FormatThenParse(b);
  }

  /** For well-formed labels, JavaScript's string `<` agrees with comparing
      the minutes they denote. */
  lemma StrLessIsTimeOrder(a: string, b: string)
    requires IsHHMM(a) && IsHHMM(b)
    ensures StrLess(a, b) <==> ParseHHMM(a) < ParseHHMM(b)
  {
    var x := [DigitValue(a[0]), DigitValue(a[1]), DigitValue(a[3]), DigitValue(a[4])];
    var y := [DigitValue(b[0]), DigitValue(b[1]), DigitValue(b[3]), DigitValue(b[4])];
    assert a[1..][1..][1..][1..][1..] == [] && b[1..][1..][1..][1..][1..] == [];
    if a[0] != b[0] {
      assert StrLess(a, b) <==> x[0] < y[0];
    } else if a[1] != b[1] {
      assert StrLess(a, b) <==> StrLess(a[1..], b[1..]);
      assert StrLess(a, b) <==> x[1] < y[1];
    } else if a[3] != b[3] {
      assert StrLess(a, b) <==> StrLess(a[1..], b[1..]);
      assert StrLess(a[1..], b[1..]) <==> StrLess(a[2..], b[2..]) by { assert a[1..][1..] == a[2..] && b[1..][1..] == b[2..]; }
      assert StrLess(a[2..], b[2..]) <==> StrLess(a[3..], b[3..]) by { assert a[2..][1..] == a[3..] && b[2..][1..] == b[3..]; }
      assert StrLess(a, b) <==> x[2] < y[2];
    } else if a[4] != b[4] {
      assert StrLess(a, b) <==> StrLess(a[1..], b[1..]);
      assert StrLess(a[1..], b[1..]) <==> StrLess(a[2..], b[2..]) by { assert a[1..][1..] == a[2..] && b[1..][1..] == b[2..]; }
      assert StrLess(a[2..], b[2..]) <==> StrLess(a[3..], b[3..]) by { assert a[2..][1..] == a[3..] && b[2..][1..] == b[3..]; }
      assert StrLess(a[3..], b[3..]) <==> StrLess(a[4..], b[4..]) by { assert a[3..][1..] == a[4..] && b[3..][1..] == b[4..]; }
      assert StrLess(a, b) <==> x[3] < y[3];
    } else {
      assert a == b;
      StrLessIrreflexive(a);
    }
  }
}
