/** Calendar dates as the client sees them: the clock's reading, the timestamp text kept in the
    store, and what `new Date(text)` makes of such a text. */
module Clock {
  import opened Text

  /** A local calendar date, as `getFullYear()`, `getMonth()` and `getDate()` report it
      (the month is counted from 1 here; only equality of months matters to the client). */
  datatype Date = Date(year: int, month: int, day: int)

  /** A date the clock can show: a four-digit year, a month 1..12 and a day 1..31. */
  predicate IsClockDate(d: Date) {
    0 <= d.year <= 9999 && 1 <= d.month <= 12 && 1 <= d.day <= 31
  }

  /** What `new Date(text)` yields: an invalid date (whose getters give `NaN`), or a valid one. */
  datatype Timestamp = Invalid | Valid(date: Date)

  /** Two decimal digits, zero-padded. */
  function Pad2(n: nat): (s: string)
    requires n < 100
    ensures |s| == 2 && AllDigits(s)
  {
    [DigitChar(n / 10), DigitChar(n % 10)]
  }

  /** Four decimal digits, zero-padded. */
  function Pad4(n: nat): (s: string)
    requires n < 10000
    ensures |s| == 4 && AllDigits(s)
  {
    Pad2(n / 100) + Pad2(n % 100)
  }

  /** The value of a two-digit string. */
  function TwoDigits(s: string): (n: nat)
    requires |s| == 2 && AllDigits(s)
    ensures n < 100
  {
    10 * DigitValue(s[0]) + DigitValue(s[1])
  }

  /** The timestamp text written to the store for a clock reading: `YYYY-MM-DD`. */
  function FormatTimestamp(d: Date): (s: string)
    requires IsClockDate(d)
    ensures |s| == 10
  {
    Pad4(d.year) + "-" + Pad2(d.month) + "-" + Pad2(d.day)
  }

  /** The shape of a timestamp text: four digits, `-`, two digits, `-`, two digits. */
  predicate IsTimestampShape(s: string) {
    |s| == 10 && s[4] == '-' && s[7] == '-'
    && AllDigits(s[0..2]) && AllDigits(s[2..4]) && AllDigits(s[5..7]) && AllDigits(s[8..10])
  }

  /** `new Date(text)` on the stored timestamp, read in this model's own encoding of it: a text
      of the timestamp shape naming a month 1..12 and a day 1..31 is a valid date, and every
      other text counts as an invalid date. */
  function ParseTimestamp(s: string): (t: Timestamp)
    ensures t.Valid? ==> IsClockDate(t.date)
  {
    if IsTimestampShape(s) then
      var d := Date(100 * TwoDigits(s[0..2]) + TwoDigits(s[2..4]), TwoDigits(s[5..7]), TwoDigits(s[8..10]));
      if IsClockDate(d) then Valid(d) else Invalid
    else Invalid
  }

  lemma TwoDigitsOfPad2(n: nat)
    requires n < 100
    ensures TwoDigits(Pad2(n)) == n
  {
  }

  lemma Pad2OfTwoDigits(s: string)
    requires |s| == 2 && AllDigits(s)
    ensures Pad2(TwoDigits(s)) == s
  {
  }

  /** Parsing the text written for a clock reading gives back that reading. */
  lemma ParseFormat(d: Date)
    requires IsClockDate(d)
    ensures ParseTimestamp(FormatTimestamp(d)) == Valid(d)
  {
    var s := FormatTimestamp(d);
    assert s[0..2] == Pad2(d.year / 100);
    assert s[2..4] == Pad2(d.year % 100);
    assert s[5..7] == Pad2(d.month);
    assert s[8..10] == Pad2(d.day);
    TwoDigitsOfPad2(d.year / 100);
    TwoDigitsOfPad2(d.year % 100);
    TwoDigitsOfPad2(d.month);
    TwoDigitsOfPad2(d.day);
  }

  /** Conversely, a text that parses to a valid date is the text written for that date. */
  lemma FormatParse(s: string)
    requires ParseTimestamp(s).Valid?
    ensures FormatTimestamp(ParseTimestamp(s).date) == s
  {
    var d := ParseTimestamp(s).date;
    var hi, lo := TwoDigits(s[0..2]), TwoDigits(s[2..4]);
    assert d.year / 100 == hi && d.year % 100 == lo;
    Pad2OfTwoDigits(s[0..2]);
    Pad2OfTwoDigits(s[2..4]);
    Pad2OfTwoDigits(s[5..7]);
    Pad2OfTwoDigits(s[8..10]);
    assert s == s[0..2] + s[2..4] + "-" + s[5..7] + "-" + s[8..10];
  }
}
