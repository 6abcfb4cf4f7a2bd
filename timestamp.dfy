/** Rendering of a parsed feed time as the GMT text handed to the database. */
module Timestamp {
  import opened Options

  /** The fields of a Python `time.struct_time` that `%Y-%m-%d %H:%M:%S` reads. */
  datatype TimeTuple = TimeTuple(year: nat, month: nat, day: nat, hour: nat, minute: nat, second: nat)

  /** The ranges `time.strftime` accepts; feedparser only produces such tuples. */
  predicate InRange(t: TimeTuple) {
    1 <= t.month <= 12 && 1 <= t.day <= 31 && t.hour < 24 && t.minute < 60 && t.second < 62
  }

  type Moment = t: TimeTuple | InRange(t) witness TimeTuple(1970, 1, 1, 0, 0, 0)

  predicate IsDigit(c: char) {
    '0' <= c <= '9'
  }

  function Digit(d: nat): (c: char)
    requires d < 10
    ensures IsDigit(c)
  {
    ('0' as int + d) as char
  }

  function DigitValue(c: char): (d: nat)
    requires IsDigit(c)
    ensures d < 10
  {
    c as int - '0' as int
  }

  predicate AllDigits(s: string) {
    forall i :: 0 <= i < |s| ==> IsDigit(s[i])
  }

  /** The decimal digits of `n` without padding, as the C library prints `%Y`. */
  function Decimal(n: nat): (r: string)
    ensures |r| >= 1 && AllDigits(r)
  {
    if n < 10 then [Digit(n)] else Decimal(n / 10) + [Digit(n % 10)]
  }

  /** The number a digit string denotes. */
  function Value(s: string): nat
    requires AllDigits(s)
  {
    if s == [] then 0 else Value(s[..|s| - 1]) * 10 + DigitValue(s[|s| - 1])
  }

  /** Two zero-padded digits, as `%m`, `%d`, `%H`, `%M` and `%S` print. */
  function Pad2(n: nat): (r: string)
    requires n < 100
    ensures |r| == 2 && AllDigits(r)
  {
    [Digit(n / 10), Digit(n % 10)]
  }

  /** `time.strftime('%Y-%m-%d %H:%M:%S', t)`. */
  function Render(t: Moment): string
  {
    Decimal(t.year) + "-" + Pad2(t.month) + "-" + Pad2(t.day) + " "
      + Pad2(t.hour) + ":" + Pad2(t.minute) + ":" + Pad2(t.second)
  }

  /** `time.strftime(...) if gmt_tp else ''`: a tuple is always rendered as
      non-empty text and only a missing tuple gives the empty string. */
  function RenderGmt(tp: Option<Moment>): (r: string)
    ensures r == "" <==> tp.None?
  {
    if tp.Some? then Render(tp.value) else ""
  }

  /** The fixed shape `YYYY-MM-DD HH:MM:SS`: nineteen characters, digits
      everywhere except the five separators. */
  predicate IsGmtShape(s: string) {
    && |s| == 19
    && s[4] == '-' && s[7] == '-' && s[10] == ' ' && s[13] == ':' && s[16] == ':'
    && AllDigits(s[0..4]) && AllDigits(s[5..7]) && AllDigits(s[8..10])
    && AllDigits(s[11..13]) && AllDigits(s[14..16]) && AllDigits(s[17..19])
  }

  /** A strict reading of the `%Y-%m-%d %T` shape the INSERT hands to
      `STR_TO_DATE`: month 1..12, day 1..31, hour below 24, minute and second
      below 60 (`%T` reads seconds 00..59). Text of any other shape, or out of
      these ranges, gives no time. */
  function ParseGmt(s: string): Option<Moment>
  {
    if !IsGmtShape(s) then None
    else
      var t := TimeTuple(Value(s[0..4]), Value(s[5..7]), Value(s[8..10]),
                         Value(s[11..13]), Value(s[14..16]), Value(s[17..19]));
      if InRange(t) && t.second < 60 then Some(t) else None
  }

  lemma {:induction false} DecimalValue(n: nat)
    ensures Value(Decimal(n)) == n
  {
    if n >= 10 {
      DecimalValue(n / 10);
      var d := Decimal(n);
      assert d[..|d| - 1] == Decimal(n / 10);
    }
  }

  lemma ValueOfTwo(s: string)
    requires |s| == 2 && AllDigits(s)
    ensures Value(s) == DigitValue(s[0]) * 10 + DigitValue(s[1])
  {
    var p := s[..1];
    assert s[..|s| - 1] == p;
    assert p[..|p| - 1] == [];
    assert Value(p) == DigitValue(s[0]);
  }

  lemma ValueOfFour(s: string)
    requires |s| == 4 && AllDigits(s)
    ensures Value(s) == ((DigitValue(s[0]) * 10 + DigitValue(s[1])) * 10 + DigitValue(s[2])) * 10 + DigitValue(s[3])
  {
    assert s[..3][..2] == s[..2];
    ValueOfTwo(s[..2]);
    assert s[..3][..2] == [s[0], s[1]];
  }

  lemma Pad2Value(n: nat)
    requires n < 100
    ensures Value(Pad2(n)) == n
  {
    ValueOfTwo(Pad2(n));
  }

  /** A four-digit year is printed as exactly its four digits. */
  lemma FourDigitYear(y: nat)
    requires 1000 <= y <= 9999
    ensures Decimal(y) == [Digit(y / 1000), Digit(y / 100 % 10), Digit(y / 10 % 10), Digit(y % 10)]
  {
    var a := y / 10;
    var b := a / 10;
    assert b == y / 100;
    assert b / 10 == y / 1000;
    assert 1 <= y / 1000 < 10;
    assert Decimal(b) == Decimal(b / 10) + [Digit(b % 10)];
  }

  lemma SliceOfTwo(r: string, i: nat, p: string)
    requires |p| == 2 && i + 2 <= |r| && r[i] == p[0] && r[i + 1] == p[1]
    ensures r[i..i + 2] == p
  {
  }

  lemma SliceOfFour(r: string, i: nat, p: string)
    requires |p| == 4 && i + 4 <= |r|
    requires r[i] == p[0] && r[i + 1] == p[1] && r[i + 2] == p[2] && r[i + 3] == p[3]
    ensures r[i..i + 4] == p
  {
  }

  /** Where each field sits in a rendering with a four-digit year. */
  lemma RenderFields(t: Moment)
    requires 1000 <= t.year <= 9999
    ensures var r := Render(t);
      && |r| == 19
      && r[4] == '-' && r[7] == '-' && r[10] == ' ' && r[13] == ':' && r[16] == ':'
      && r[0..4] == Decimal(t.year) && r[5..7] == Pad2(t.month) && r[8..10] == Pad2(t.day)
      && r[11..13] == Pad2(t.hour) && r[14..16] == Pad2(t.minute) && r[17..19] == Pad2(t.second)
  {
    FourDigitYear(t.year);
    var y, mo, d := Decimal(t.year), Pad2(t.month), Pad2(t.day);
    var h, mi, sc := Pad2(t.hour), Pad2(t.minute), Pad2(t.second);
    var r := Render(t);
    assert r == [y[0], y[1], y[2], y[3], '-', mo[0], mo[1], '-', d[0], d[1], ' ',
                 h[0], h[1], ':', mi[0], mi[1], ':', sc[0], sc[1]];
    SliceOfFour(r, 0, y);
    SliceOfTwo(r, 5, mo);
    SliceOfTwo(r, 8, d);
    SliceOfTwo(r, 11, h);
    SliceOfTwo(r, 14, mi);
    SliceOfTwo(r, 17, sc);
  }

  /** For years 1000..9999 the rendering is the 19-character form. */
  lemma RenderShape(t: Moment)
    requires 1000 <= t.year <= 9999
    ensures IsGmtShape(Render(t))
  {
    RenderFields(t);
  }

  /** The database reads back exactly the tuple that was rendered. */
  lemma ParseRender(t: Moment)
    requires 1000 <= t.year <= 9999 && t.second < 60
    ensures ParseGmt(Render(t)) == Some(t)
  {
    RenderFields(t);
    DecimalValue(t.year);
    Pad2Value(t.month);
    Pad2Value(t.day);
    Pad2Value(t.hour);
    Pad2Value(t.minute);
    Pad2Value(t.second);
  }

  /** A leap second, which `strftime` prints as 60 or 61, is not read back:
      the row's GMT date is then no time. */
  lemma ParseRejectsLeapSecond(t: Moment)
    requires 1000 <= t.year <= 9999 && t.second >= 60
    ensures ParseGmt(Render(t)) == None
  {
    RenderFields(t);
    Pad2Value(t.second);
  }

  lemma Pad2OfValue(s: string)
    requires |s| == 2 && AllDigits(s)
    ensures Value(s) < 100 && Pad2(Value(s)) == s
  {
    ValueOfTwo(s);
    var v := Value(s);
    assert v / 10 == DigitValue(s[0]) && v % 10 == DigitValue(s[1]);
  }

  lemma YearOfValue(s: string)
    requires |s| == 4 && AllDigits(s) && s[0] != '0'
    ensures 1000 <= Value(s) <= 9999 && Decimal(Value(s)) == s
  {
    ValueOfFour(s);
    var v := Value(s);
    assert v / 1000 == DigitValue(s[0]);
    assert v / 100 % 10 == DigitValue(s[1]);
    assert v / 10 % 10 == DigitValue(s[2]);
    assert v % 10 == DigitValue(s[3]);
    FourDigitYear(v);
  }

  /** Conversely, text the database accepts in this shape, with no leading
      zero in the year, is exactly the rendering of the tuple it denotes. */
  lemma RenderParse(s: string, t: Moment)
    requires ParseGmt(s) == Some(t) && s[0] != '0'
    ensures Render(t) == s
  {
    YearOfValue(s[0..4]);
    Pad2OfValue(s[5..7]);
    Pad2OfValue(s[8..10]);
    Pad2OfValue(s[11..13]);
    Pad2OfValue(s[14..16]);
    Pad2OfValue(s[17..19]);
    assert s == s[0..4] + [s[4]] + s[5..7] + [s[7]] + s[8..10] + [s[10]]
              + s[11..13] + [s[13]] + s[14..16] + [s[16]] + s[17..19];
  }

  lemma YearExample()
    ensures Decimal(2024) == "2024"
  {
    assert Digit(0) == '0' && Digit(2) == '2' && Digit(4) == '4';
    assert Decimal(2) == "2";
    assert Decimal(20) == "20";
    assert Decimal(202) == "202";
  }

  /** 1 March 2024, 10:00:00 renders as `2024-03-01 10:00:00`. */
  lemma RenderExample()
    ensures Render(TimeTuple(2024, 3, 1, 10, 0, 0)) == "2024-03-01 10:00:00"
    ensures RenderGmt(None) == ""
  {
    YearExample();
    assert Digit(0) == '0' && Digit(1) == '1' && Digit(3) == '3';
    assert Pad2(3) == "03" && Pad2(1) == "01" && Pad2(10) == "10" && Pad2(0) == "00";
  }
}
