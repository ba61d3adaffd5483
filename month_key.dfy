/**
 * Timestamps and the "YYYY-MM" month key.
 *
 * The ledger reads the clock as a broken-down local date-time and derives
 * the month key with the '%Y-%m' format. The same format is applied by the
 * database to the stored `date_added` value when the balance windows the
 * expenses, so the key is modelled once, as `KeyOf`, and both sides use it.
 */
module MonthKeys {

  /** A local date-time as the clock reports it and as `date_added` stores it. */
  datatype DateTime = DateTime(
    year: int, month: int, day: int,
    hour: int, minute: int, second: int, microsecond: int)

  /** The range a real clock reading can take (years 1 to 9999, as the
      Python's `datetime` allows). */
  predicate ValidDateTime(t: DateTime) {
    && 1 <= t.year <= 9999
    && 1 <= t.month <= 12
    && 1 <= t.day <= 31
    && 0 <= t.hour < 24
    && 0 <= t.minute < 60
    && 0 <= t.second < 60
    && 0 <= t.microsecond < 1000000
  }

  /** The fields of a timestamp, most significant first. */
  function Fields(t: DateTime): seq<int> {
    [t.year, t.month, t.day, t.hour, t.minute, t.second, t.microsecond]
  }

  /** Lexicographic "not less than" on equally long field lists. */
  predicate LexNotLess(a: seq<int>, b: seq<int>)
    requires |a| == |b|
  {
    a == [] || a[0] > b[0] || (a[0] == b[0] && LexNotLess(a[1..], b[1..]))
  }

  lemma {:induction false} LexTotal(a: seq<int>, b: seq<int>)
    requires |a| == |b|
    ensures LexNotLess(a, b) || LexNotLess(b, a)
  {
    if a != [] && a[0] == b[0] {
      LexTotal(a[1..], b[1..]);
    }
  }

  lemma {:induction false} LexTransitive(a: seq<int>, b: seq<int>, c: seq<int>)
    requires |a| == |b| == |c|
    requires LexNotLess(a, b) && LexNotLess(b, c)
    ensures LexNotLess(a, c)
  {
    if a != [] && a[0] == b[0] == c[0] {
      LexTransitive(a[1..], b[1..], c[1..]);
    }
  }

  /** `a` is not earlier than `b`: the order of the stored ISO text
      "YYYY-MM-DD HH:MM:SS.ffffff", which compares field by field. */
  predicate NotBefore(a: DateTime, b: DateTime) {
    LexNotLess(Fields(a), Fields(b))
  }

  lemma NotBeforeTotal(a: DateTime, b: DateTime)
    ensures NotBefore(a, b) || NotBefore(b, a)
  {
    LexTotal(Fields(a), Fields(b));
  }

  lemma NotBeforeTransitive(a: DateTime, b: DateTime, c: DateTime)
    requires NotBefore(a, b) && NotBefore(b, c)
    ensures NotBefore(a, c)
  {
    LexTransitive(Fields(a), Fields(b), Fields(c));
  }

  predicate IsDigit(c: char) {
    '0' <= c <= '9'
  }

  function Digit(d: int): (c: char)
    requires 0 <= d <= 9
    ensures IsDigit(c) && c as int - '0' as int == d
  {
    ('0' as int + d) as char
  }

  function DigitValue(c: char): (d: int)
    requires IsDigit(c)
    ensures 0 <= d <= 9
  {
    c as int - '0' as int
  }

  /** '%Y-%m': four-digit zero-padded year, hyphen, two-digit zero-padded month. */
  function Format(year: int, month: int): (k: string)
    requires 0 <= year <= 9999 && 1 <= month <= 12
    ensures |k| == 7 && k[4] == '-'
    ensures forall i :: 0 <= i < 7 && i != 4 ==> IsDigit(k[i])
  {
    [Digit(year / 1000), Digit(year / 100 % 10), Digit(year / 10 % 10), Digit(year % 10),
     '-', Digit(month / 10), Digit(month % 10)]
  }

  /** The month key of a timestamp: strftime('%Y-%m', t). */
  function KeyOf(t: DateTime): (k: string)
    requires ValidDateTime(t)
    ensures |k| == 7 && WellFormedKey(k)
  {
    Format(t.year, t.month)
  }

  /** A well-formed key: four digits, a hyphen, two digits. */
  predicate WellFormedKey(k: string) {
    |k| == 7 && k[4] == '-' && forall i :: 0 <= i < 7 && i != 4 ==> IsDigit(k[i])
  }

  /** Reads year and month back out of a well-formed key. */
  function Parse(k: string): (ym: (int, int))
    requires WellFormedKey(k)
    ensures 0 <= ym.0 <= 9999 && 0 <= ym.1 <= 99
  {
    (1000 * DigitValue(k[0]) + 100 * DigitValue(k[1]) + 10 * DigitValue(k[2]) + DigitValue(k[3]),
     10 * DigitValue(k[5]) + DigitValue(k[6]))
  }

  lemma FourDigits(year: int)
    requires 0 <= year <= 9999
    ensures 1000 * (year / 1000) + 100 * (year / 100 % 10) + 10 * (year / 10 % 10) + year % 10 == year
  {
    var q1 := year / 10;
    var q2 := q1 / 10;
    assert year == 10 * q1 + year % 10;
    assert q1 == 10 * q2 + q1 % 10;
    assert year / 100 == q2 by {
      assert year == 100 * q2 + 10 * (q1 % 10) + year % 10;
    }
    assert year / 1000 == q2 / 10 by {
      assert year == 1000 * (q2 / 10) + 100 * (q2 % 10) + 10 * (q1 % 10) + year % 10;
    }
    assert q2 == 10 * (q2 / 10) + q2 % 10;
  }

  /** Formatting then parsing gives back the year and the month. */
  lemma {:induction false} ParseFormat(year: int, month: int)
    requires 0 <= year <= 9999 && 1 <= month <= 12
    ensures WellFormedKey(Format(year, month))
    ensures Parse(Format(year, month)) == (year, month)
  {
    FourDigits(year);
  }

  /** Two timestamps have the same month key exactly when they fall in the
      same calendar month: the key is neither coarser nor finer than
      (year, month). */
  lemma {:induction false} SameKeyIffSameMonth(a: DateTime, b: DateTime)
    requires ValidDateTime(a) && ValidDateTime(b)
    ensures KeyOf(a) == KeyOf(b) <==> (a.year == b.year && a.month == b.month)
  {
    ParseFormat(a.year, a.month);
    ParseFormat(b.year, b.month);
  }
}
