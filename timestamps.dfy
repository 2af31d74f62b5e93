/** Wall-clock readings and the two `strftime` formats the backup pass uses:
    `%Y%m%d_%H%M%S` for the snapshot folder name and `%Y-%m-%d %H:%M:%S` for
    the report header. */
module Timestamps {
  import opened Strings

  /** A `datetime` value; the clock itself is an input of the model. */
  datatype DateTime = DateTime(year: int, month: int, day: int,
                               hour: int, minute: int, second: int, microsecond: int)
  {
    predicate Valid() {
      1 <= year <= 9999 && 1 <= month <= 12 && 1 <= day <= 31 &&
      0 <= hour <= 23 && 0 <= minute <= 59 && 0 <= second <= 59 &&
      0 <= microsecond <= 999999
    }

    /** The reading with its sub-second part dropped: all the formats show. */
    function ToSecond(): DateTime {
      DateTime(year, month, day, hour, minute, second, 0)
    }
  }

  predicate IsDigit(c: char) {
    '0' <= c <= '9'
  }

  predicate AllDigits(s: string) {
    forall i :: 0 <= i < |s| ==> IsDigit(s[i])
  }

  function Digit(d: int): (c: char)
    requires 0 <= d <= 9
    ensures IsDigit(c) && DigitValue(c) == d
  {
    ('0' as int + d) as char
  }

  function DigitValue(c: char): int {
    c as int - '0' as int
  }

  /** A two-digit zero-padded field (`%m`, `%d`, `%H`, `%M`, `%S`). */
  function Pad2(n: int): (r: string)
    requires 0 <= n <= 99
    ensures |r| == 2 && AllDigits(r) && Value2(r) == n
  {
    [Digit(n / 10), Digit(n % 10)]
  }

  /** A four-digit zero-padded year (`%Y`). */
  function Pad4(n: int): (r: string)
    requires 0 <= n <= 9999
    ensures |r| == 4 && AllDigits(r) && Value2(r[..2]) * 100 + Value2(r[2..]) == n
  {
    var r := Pad2(n / 100) + Pad2(n % 100);
    assert r[..2] == Pad2(n / 100) && r[2..] == Pad2(n % 100);
    r
  }

  function Value2(s: string): int
    requires |s| == 2
  {
    DigitValue(s[0]) * 10 + DigitValue(s[1])
  }

  /** `strftime("%Y%m%d_%H%M%S")` */
  function Compact(t: DateTime): string
    requires t.Valid()
  {
    Pad4(t.year) + Pad2(t.month) + Pad2(t.day) + "_" +
    Pad2(t.hour) + Pad2(t.minute) + Pad2(t.second)
  }

  /** `strftime("%Y-%m-%d %H:%M:%S")` */
  function Readable(t: DateTime): string
    requires t.Valid()
  {
    Pad4(t.year) + "-" + Pad2(t.month) + "-" + Pad2(t.day) + " " +
    Pad2(t.hour) + ":" + Pad2(t.minute) + ":" + Pad2(t.second)
  }

  /** Reads a `%Y%m%d_%H%M%S` stamp back into a reading to the second. */
  function ParseCompact(s: string): DateTime
    requires |s| == 15
  {
    DateTime(Value2(s[0..2]) * 100 + Value2(s[2..4]), Value2(s[4..6]), Value2(s[6..8]),
             Value2(s[9..11]), Value2(s[11..13]), Value2(s[13..15]), 0)
  }

  /** The folder stamp has the shape YYYYMMDD_HHMMSS. */
  lemma CompactShape(t: DateTime)
    requires t.Valid()
    ensures |Compact(t)| == 15
    ensures Compact(t)[8] == '_'
    ensures forall i :: 0 <= i < 15 && i != 8 ==> IsDigit(Compact(t)[i])
  {
    var s := Compact(t);
    var y, mo, d, h, mi, se := Pad4(t.year), Pad2(t.month), Pad2(t.day), Pad2(t.hour), Pad2(t.minute), Pad2(t.second);
    assert s == y + mo + d + "_" + h + mi + se;
    forall i | 0 <= i < 15 && i != 8
      ensures IsDigit(s[i])
    {
      if i < 4 { assert s[i] == y[i]; }
      else if i < 6 { assert s[i] == mo[i - 4]; }
      else if i < 8 { assert s[i] == d[i - 6]; }
      else if i < 11 { assert s[i] == h[i - 9]; }
      else if i < 13 { assert s[i] == mi[i - 11]; }
      else { assert s[i] == se[i - 13]; }
    }
  }

  /** The stamp records the reading to the second, and nothing finer. */
  lemma ParseCompactInverse(t: DateTime)
    requires t.Valid()
    ensures |Compact(t)| == 15 && ParseCompact(Compact(t)) == t.ToSecond()
  {
    var s := Compact(t);
    var y, mo, d, h, mi, se := Pad4(t.year), Pad2(t.month), Pad2(t.day), Pad2(t.hour), Pad2(t.minute), Pad2(t.second);
    assert s == y + mo + d + "_" + h + mi + se;
    assert s[0..2] == y[..2] && s[2..4] == y[2..];
    assert s[4..6] == mo && s[6..8] == d;
    assert s[9..11] == h && s[11..13] == mi && s[13..15] == se;
  }

  predicate SameSecond(a: DateTime, b: DateTime) {
    a.ToSecond() == b.ToSecond()
  }

  /** Two readings give the same folder stamp exactly when they fall in the same
      second: distinct seconds never collide, the same second always does. */
  lemma CompactCollision(a: DateTime, b: DateTime)
    requires a.Valid() && b.Valid()
    ensures Compact(a) == Compact(b) <==> SameSecond(a, b)
  {
    ParseCompactInverse(a);
    ParseCompactInverse(b);
  }

  /** The header stamp holds no line break, so it stays on the header line. */
  lemma ReadableNoNewline(t: DateTime)
    requires t.Valid()
    ensures NoNewline(Readable(t))
  {
    var s := Readable(t);
    var y, mo, d, h, mi, se := Pad4(t.year), Pad2(t.month), Pad2(t.day), Pad2(t.hour), Pad2(t.minute), Pad2(t.second);
    assert s == y + "-" + mo + "-" + d + " " + h + ":" + mi + ":" + se;
    assert |s| == 19;
    forall i | 0 <= i < |s|
      ensures s[i] != '\n'
    {
      if i < 4 { assert s[i] == y[i]; }
      else if i == 4 || i == 7 || i == 10 || i == 13 || i == 16 { }
      else if i < 7 { assert s[i] == mo[i - 5]; }
      else if i < 10 { assert s[i] == d[i - 8]; }
      else if i < 13 { assert s[i] == h[i - 11]; }
      else if i < 16 { assert s[i] == mi[i - 14]; }
      else { assert s[i] == se[i - 17]; }
    }
  }
}
