/** Transaction timestamps. The store writes `datetime.now()` as text in the
    form `"%Y-%m-%d %H:%M:%S"` and later sorts that column as text; this
    module shows that, for fixed-width fields, the text order is the
    chronological order. */
module Timestamps {
  import opened Text

  datatype DateTime = DateTime(year: int, month: int, day: int, hour: int, minute: int, second: int) {
    /** Field ranges of a wall-clock reading; `%Y` is four digits wide for
        these years. */
    predicate Valid() {
      1000 <= year <= 9999 && 1 <= month <= 12 && 1 <= day <= 31 &&
      0 <= hour <= 23 && 0 <= minute <= 59 && 0 <= second <= 59
    }
  }

  type Timestamp = d: DateTime | d.Valid() witness DateTime(1970, 1, 1, 0, 0, 0)

  /** Chronological order: year first, then month, day, hour, minute, second. */
  predicate ChronoLe(a: DateTime, b: DateTime) {
    if a.year != b.year then a.year < b.year
    else if a.month != b.month then a.month < b.month
    else if a.day != b.day then a.day < b.day
    else if a.hour != b.hour then a.hour < b.hour
    else if a.minute != b.minute then a.minute < b.minute
    else a.second <= b.second
  }

  function Digit(d: int): (c: char)
    requires 0 <= d <= 9
    ensures '0' <= c <= '9'
  {
    ('0' as int + d) as char
  }

  /** Two-digit zero-padded decimal (`%m`, `%d`, `%H`, `%M`, `%S`). */
  function Pad2(n: int): (s: string)
    requires 0 <= n < 100
    ensures |s| == 2
  {
    [Digit(n / 10)] + [Digit(n % 10)]
  }

  /** Four-digit decimal (`%Y`). */
  function Pad4(n: int): (s: string)
    requires 0 <= n < 10000
    ensures |s| == 4
  {
    Pad2(n / 100) + Pad2(n % 100)
  }

  /** `strftime("%Y-%m-%d %H:%M:%S")`. */
  function Format(t: Timestamp): (s: string)
    ensures |s| == 19
  {
    Pad4(t.year) + ("-" + (Pad2(t.month) + ("-" + (Pad2(t.day) + (" " +
      (Pad2(t.hour) + (":" + (Pad2(t.minute) + (":" + Pad2(t.second))))))))))
  }

  lemma CharOrder(x: char, y: char)
    ensures LexLe([x], [y]) <==> x <= y
  {
    assert [x][1..] == [] && [y][1..] == [];
  }

  lemma DigitOrder(a: int, b: int)
    requires 0 <= a <= 9 && 0 <= b <= 9
    ensures LexLe([Digit(a)], [Digit(b)]) <==> a <= b
    ensures [Digit(a)] == [Digit(b)] <==> a == b
  {
    CharOrder(Digit(a), Digit(b));
    if [Digit(a)] == [Digit(b)] {
      assert [Digit(a)][0] == [Digit(b)][0];
    }
  }

  /** Text order of two-digit fields is numeric order, and the text determines the number. */
  lemma Pad2Order(m: int, n: int)
    requires 0 <= m < 100 && 0 <= n < 100
    ensures LexLe(Pad2(m), Pad2(n)) <==> m <= n
    ensures Pad2(m) == Pad2(n) <==> m == n
  {
    DigitOrder(m / 10, n / 10);
    DigitOrder(m % 10, n % 10);
    LexLeConcat([Digit(m / 10)], [Digit(m % 10)], [Digit(n / 10)], [Digit(n % 10)]);
    if Pad2(m) == Pad2(n) {
      assert Pad2(m)[0] == Pad2(n)[0] && Pad2(m)[1] == Pad2(n)[1];
    }
  }

  /** Text order of four-digit fields is numeric order, and the text determines the number. */
  lemma Pad4Order(m: int, n: int)
    requires 0 <= m < 10000 && 0 <= n < 10000
    ensures LexLe(Pad4(m), Pad4(n)) <==> m <= n
    ensures Pad4(m) == Pad4(n) <==> m == n
  {
    Pad2Order(m / 100, n / 100);
    Pad2Order(m % 100, n % 100);
    LexLeConcat(Pad2(m / 100), Pad2(m % 100), Pad2(n / 100), Pad2(n % 100));
    if Pad4(m) == Pad4(n) {
      assert Pad4(m)[..2] == Pad4(n)[..2] && Pad4(m)[2..] == Pad4(n)[2..];
      assert Pad2(m / 100) == Pad4(m)[..2] && Pad2(n / 100) == Pad4(n)[..2];
      assert Pad2(m % 100) == Pad4(m)[2..] && Pad2(n % 100) == Pad4(n)[2..];
    }
  }

  /** One step of the comparison of two formatted timestamps: a fixed-width
      field, then a separator, then the rest. */
  lemma FieldStep(f: string, g: string, sep: string, x: string, y: string)
    requires |f| == |g|
    ensures LexLe(f + (sep + x), g + (sep + y)) <==>
            (f == g && LexLe(x, y)) || (f != g && LexLe(f, g))
  {
    LexLeConcat(f, sep + x, g, sep + y);
    LexLeConcat(sep, x, sep, y);
  }

  /** `ORDER BY date` on the text column agrees with chronological order. */
  lemma FormatOrder(a: Timestamp, b: Timestamp)
    ensures LexLe(Format(a), Format(b)) <==> ChronoLe(a, b)
  {
    Pad4Order(a.year, b.year);
    Pad2Order(a.month, b.month);
    Pad2Order(a.day, b.day);
    Pad2Order(a.hour, b.hour);
    Pad2Order(a.minute, b.minute);
    Pad2Order(a.second, b.second);
    var s5 := Pad2(a.second);
    var t5 := Pad2(b.second);
    var s4 := Pad2(a.minute) + (":" + s5);
    var t4 := Pad2(b.minute) + (":" + t5);
    FieldStep(Pad2(a.minute), Pad2(b.minute), ":", s5, t5);
    var s3 := Pad2(a.hour) + (":" + s4);
    var t3 := Pad2(b.hour) + (":" + t4);
    FieldStep(Pad2(a.hour), Pad2(b.hour), ":", s4, t4);
    var s2 := Pad2(a.day) + (" " + s3);
    var t2 := Pad2(b.day) + (" " + t3);
    FieldStep(Pad2(a.day), Pad2(b.day), " ", s3, t3);
    var s1 := Pad2(a.month) + ("-" + s2);
    var t1 := Pad2(b.month) + ("-" + t2);
    FieldStep(Pad2(a.month), Pad2(b.month), "-", s2, t2);
    FieldStep(Pad4(a.year), Pad4(b.year), "-", s1, t1);
  }

  /** Distinct timestamps have distinct texts, so the text is a faithful key. */
  lemma FormatInjective(a: Timestamp, b: Timestamp)
    ensures Format(a) == Format(b) <==> a == b
  {
    if Format(a) == Format(b) {
      LexLeRefl(Format(a));
      FormatOrder(a, b);
      FormatOrder(b, a);
    }
  }
}
