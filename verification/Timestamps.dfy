/**
 * The text form of instants in the .NET tables: the round-trip format "O" of a UTC DateTimeOffset, a profile of
 * sections 5.1 and 5.6 of RFC 3339. The SQL compares this text, so text order has to be time order.
 */
module Timestamps {
  import opened Util
  import opened Text

  // ---------------------------------------------------------------- text order

  /** SQLite's BINARY collation on ASCII text. */
  predicate Before(a: string, b: string)
    decreases |a|
  {
    b != [] && (a == [] || a[0] < b[0] || (a[0] == b[0] && Before(a[1..], b[1..])))
  }

  lemma {:induction false} BeforeConcat(p: string, q: string, a: string, b: string)
    requires |p| == |q|
    ensures Before(p + a, q + b) <==> Before(p, q) || (p == q && Before(a, b))
    decreases |p|
  {
    if p == [] {
      assert p + a == a && q + b == b;
    } else {
      assert (p + a)[1..] == p[1..] + a && (q + b)[1..] == q[1..] + b;
      BeforeConcat(p[1..], q[1..], a, b);
      assert p == [p[0]] + p[1..] && q == [q[0]] + q[1..];
    }
  }

  lemma BeforeDigit(c: nat, d: nat)
    requires c < 10 && d < 10
    ensures Before([Digit(c)], [Digit(d)]) <==> c < d
    ensures [Digit(c)] == [Digit(d)] <==> c == d
  {
    assert [Digit(c)][0] == Digit(c) && [Digit(d)][0] == Digit(d);
    assert Digit(c) < Digit(d) <==> c < d;
  }

  lemma {:induction false} BeforeDigits(m: nat, n: nat, width: nat)
    requires m < Pow10(width) && n < Pow10(width)
    ensures Before(Digits(m, width), Digits(n, width)) <==> m < n
    ensures Digits(m, width) == Digits(n, width) ==> m == n
    decreases width
  {
    if width > 0 {
      var (m1, m2, n1, n2) := (m / 10, m % 10, n / 10, n % 10);
      BeforeDigits(m1, n1, width - 1);
      BeforeDigit(m2, n2);
      BeforeConcat(Digits(m1, width - 1), Digits(n1, width - 1), [Digit(m2)], [Digit(n2)]);
    }
    ValueOfDigits(m, width);
    ValueOfDigits(n, width);
  }

  // ---------------------------------------------------------------- fixed-width fields

  /** A number, how many digits it gets, and the character after it. */
  datatype Field = Field(value: nat, width: nat, after: char)

  function Render(fields: seq<Field>): string {
    if fields == [] then "" else Digits(fields[0].value, fields[0].width) + [fields[0].after] + Render(fields[1..])
  }

  predicate Fits(fields: seq<Field>) { forall i :: 0 <= i < |fields| ==> fields[i].value < Pow10(fields[i].width) }

  predicate SameShape(f: seq<Field>, g: seq<Field>) {
    |f| == |g| && forall i :: 0 <= i < |f| ==> f[i].width == g[i].width && f[i].after == g[i].after
  }

  predicate LexLess(f: seq<Field>, g: seq<Field>)
    requires |f| == |g|
  {
    f != [] && (f[0].value < g[0].value || (f[0].value == g[0].value && LexLess(f[1..], g[1..])))
  }

  lemma RenderFirst(f: seq<Field>, tail: string)
    requires f != []
    ensures Render(f) + tail == Digits(f[0].value, f[0].width) + ([f[0].after] + (Render(f[1..]) + tail))
  {
  }

  lemma BeforeSameHead(c: char, a: string, b: string)
    ensures Before([c] + a, [c] + b) <==> Before(a, b)
  {
    assert ([c] + a)[1..] == a && ([c] + b)[1..] == b;
  }

  /** Fixed-width fields: text order is the order of the values, first field first. */
  lemma {:induction false} RenderOrder(f: seq<Field>, g: seq<Field>, tail: string)
    requires Fits(f) && Fits(g) && SameShape(f, g)
    ensures Before(Render(f) + tail, Render(g) + tail) <==> LexLess(f, g)
    decreases |f|
  {
    if f == [] {
      NotBeforeItself(tail);
      assert "" + tail == tail;
    } else {
      var p, q := Digits(f[0].value, f[0].width), Digits(g[0].value, g[0].width);
      var a, b := Render(f[1..]) + tail, Render(g[1..]) + tail;
      RenderFirst(f, tail);
      RenderFirst(g, tail);
      BeforeDigits(f[0].value, g[0].value, f[0].width);
      BeforeConcat(p, q, [f[0].after] + a, [g[0].after] + b);
      BeforeSameHead(f[0].after, a, b);
      RenderOrder(f[1..], g[1..], tail);
    }
  }

  lemma {:induction false} NotBeforeItself(s: string)
    ensures !Before(s, s)
  {
    if s != [] { NotBeforeItself(s[1..]); }
  }

  /** Reading fields of the given widths and separators off the front of a text. */
  function ReadFields(shape: seq<(nat, char)>, s: string): Option<(seq<nat>, string)>
    decreases |shape|
  {
    if shape == [] then Some(([], s))
    else
      var (w, after) := shape[0];
      if |s| <= w || s[w] != after || exists i :: 0 <= i < w && !IsDigit(s[i]) then None
      else
        var v := Value(s[..w]);
        var rest := ReadFields(shape[1..], s[w + 1..]);
        if rest.None? || v < 0 then None else Some(([v] + rest.value.0, rest.value.1))
  }

  function ShapeOf(f: seq<Field>): seq<(nat, char)> {
    if f == [] then [] else [(f[0].width, f[0].after)] + ShapeOf(f[1..])
  }

  function ValuesOf(f: seq<Field>): seq<nat> { if f == [] then [] else [f[0].value] + ValuesOf(f[1..]) }

  lemma ReadFirst(v: nat, w: nat, after: char, shape: seq<(nat, char)>, rest: string)
    requires v < Pow10(w)
    ensures var r := ReadFields(shape, rest);
            ReadFields([(w, after)] + shape, Digits(v, w) + [after] + rest) ==
              if r.None? then None else Some(([v] + r.value.0, r.value.1))
  {
    var s := Digits(v, w) + [after] + rest;
    ValueOfDigits(v, w);
    assert s[..w] == Digits(v, w) && s[w] == after && s[w + 1..] == rest;
    assert forall i :: 0 <= i < w ==> s[i] == s[..w][i];
    assert ([(w, after)] + shape)[1..] == shape;
  }

  lemma {:induction false} ReadBack(f: seq<Field>, tail: string)
    requires Fits(f)
    ensures ReadFields(ShapeOf(f), Render(f) + tail) == Some((ValuesOf(f), tail))
    decreases |f|
  {
    if f == [] {
      assert "" + tail == tail;
    } else {
      var rest := Render(f[1..]) + tail;
      assert Render(f) + tail == Digits(f[0].value, f[0].width) + [f[0].after] + rest;
      ReadFirst(f[0].value, f[0].width, f[0].after, ShapeOf(f[1..]), rest);
      ReadBack(f[1..], tail);
    }
  }

  // ---------------------------------------------------------------- the calendar

  datatype Date = Date(year: nat, month: nat, day: nat)

  predicate IsLeap(y: nat) { y % 4 == 0 && (y % 100 != 0 || y % 400 == 0) }

  /** Days of a year before its (m + 1)-th month. */
  function DaysBeforeMonth(m: nat, leap: bool): nat
    requires m <= 12
  {
    [0, 31, 59, 90, 120, 151, 181, 212, 243, 273, 304, 334, 365][m] + (if leap && m >= 2 then 1 else 0)
  }

  predicate ValidDate(d: Date) {
    1 <= d.year <= 9999 && 1 <= d.month <= 12 &&
    1 <= d.day <= DaysBeforeMonth(d.month, IsLeap(d.year)) - DaysBeforeMonth(d.month - 1, IsLeap(d.year))
  }

  /** Days before 1 January of year y + 1, counted from 1 January 0001. */
  function DaysBeforeYear(y: nat): nat { 365 * y + y / 4 - y / 100 + y / 400 }

  function DayNumber(d: Date): nat
    requires ValidDate(d)
  {
    DaysBeforeYear(d.year - 1) + DaysBeforeMonth(d.month - 1, IsLeap(d.year)) + d.day - 1
  }

  const DAYS: nat := 3_652_059

  function MonthOf(dayOfYear: nat, leap: bool, m: nat): (month: nat)
    requires m < 12 && DaysBeforeMonth(m, leap) <= dayOfYear < DaysBeforeMonth(12, leap)
    ensures 1 <= month <= 12 && DaysBeforeMonth(month - 1, leap) <= dayOfYear < DaysBeforeMonth(month, leap)
    decreases 12 - m
  {
    if dayOfYear < DaysBeforeMonth(m + 1, leap) then m + 1 else MonthOf(dayOfYear, leap, m + 1)
  }

  /** Whole 400-, 100-, 4- and 1-year periods in n days, and the day of the year that remains. */
  function Periods(n: nat): (nat, nat, nat, nat, nat) {
    var (a, r1) := (n / 146_097, n % 146_097);
    var b := if r1 / 36_524 == 4 then 3 else r1 / 36_524;
    var r2 := r1 - b * 36_524;
    var (c, r3) := (r2 / 1_461, r2 % 1_461);
    var d := if r3 / 365 == 4 then 3 else r3 / 365;
    (a, b, c, d, r3 - d * 365)
  }

  lemma PeriodsRange(n: nat)
    ensures var (a, b, c, d, r) := Periods(n);
            && b < 4 && c < 25 && d < 4 && n == 146_097 * a + 36_524 * b + 1_461 * c + 365 * d + r
            && r < (if d == 3 && (c != 24 || b == 3) then 366 else 365)
  {
  }

  lemma PeriodQuotients(a: nat, b: nat, c: nat, d: nat)
    requires b < 4 && c < 25 && d < 4
    ensures var y := 400 * a + 100 * b + 4 * c + d;
            y / 400 == a && y / 100 == 4 * a + b && y / 4 == 100 * a + 25 * b + c
  {
  }

  lemma FourYears(k: nat, d: nat)
    requires d < 4
    ensures (4 * k + d + 1) % 4 == 0 <==> d == 3
  {
  }

  lemma OneHundredYears(a: nat, b: nat, c: nat, d: nat)
    requires c < 25 && d < 4
    ensures (400 * a + 100 * b + 4 * c + d + 1) % 100 == 0 <==> c == 24 && d == 3
  {
  }

  lemma FourHundredYears(a: nat, b: nat, c: nat, d: nat)
    requires b < 4 && c < 25 && d < 4
    ensures (400 * a + 100 * b + 4 * c + d + 1) % 400 == 0 <==> b == 3 && c == 24 && d == 3
  {
  }

  lemma YearOfPeriods(a: nat, b: nat, c: nat, d: nat)
    requires b < 4 && c < 25 && d < 4
    ensures var y := 400 * a + 100 * b + 4 * c + d;
            && DaysBeforeYear(y) == 146_097 * a + 36_524 * b + 1_461 * c + 365 * d
            && (IsLeap(y + 1) <==> d == 3 && (c != 24 || b == 3))
  {
    PeriodQuotients(a, b, c, d);
    FourYears(100 * a + 25 * b + c, d);
    OneHundredYears(a, b, c, d);
    FourHundredYears(a, b, c, d);
  }

  lemma YearInRange(a: nat, b: nat, c: nat, d: nat, r: nat)
    requires b < 4 && c < 25 && d < 4 && 146_097 * a + 36_524 * b + 1_461 * c + 365 * d + r < DAYS
    ensures 400 * a + 100 * b + 4 * c + d < 9999
  {
  }

  /** The r-th day of year y + 1. */
  function DateInYear(y: nat, r: nat): (date: Date)
    requires y < 9999 && r < DaysBeforeMonth(12, IsLeap(y + 1))
    ensures ValidDate(date) && DayNumber(date) == DaysBeforeYear(y) + r
  {
    var month := MonthOf(r, IsLeap(y + 1), 0);
    Date(y + 1, month, r - DaysBeforeMonth(month - 1, IsLeap(y + 1)) + 1)
  }

  /** The calendar date of a day number. */
  function DateOf(n: nat): (date: Date)
    requires n < DAYS
    ensures ValidDate(date) && DayNumber(date) == n
  {
    PeriodsRange(n);
    var (a, b, c, d, r) := Periods(n);
    YearOfPeriods(a, b, c, d);
    YearInRange(a, b, c, d, r);
    DateInYear(400 * a + 100 * b + 4 * c + d, r)
  }

  lemma QuotientsStep(y: nat)
    ensures (y + 1) / 4 == y / 4 + (if (y + 1) % 4 == 0 then 1 else 0)
    ensures (y + 1) / 100 == y / 100 + (if (y + 1) % 100 == 0 then 1 else 0)
    ensures (y + 1) / 400 == y / 400 + (if (y + 1) % 400 == 0 then 1 else 0)
  {
  }

  lemma FourTimes(k: nat)
    ensures (4 * k) % 4 == 0
  {
  }

  lemma HundredTimes(k: nat)
    ensures (100 * k) % 100 == 0
  {
  }

  lemma YearLength(y: nat)
    ensures DaysBeforeYear(y + 1) == DaysBeforeYear(y) + (if IsLeap(y + 1) then 366 else 365)
  {
    var z := y + 1;
    QuotientsStep(y);
    if z % 400 == 0 {
      assert z == 100 * (4 * (z / 400));
      HundredTimes(4 * (z / 400));
    }
    if z % 100 == 0 {
      assert z == 4 * (25 * (z / 100));
      FourTimes(25 * (z / 100));
    }
  }

  lemma {:induction false} YearsGrow(y: nat, z: nat)
    requires y <= z
    ensures DaysBeforeYear(y) <= DaysBeforeYear(z)
    decreases z - y
  {
    if y < z {
      YearLength(y);
      YearsGrow(y + 1, z);
    }
  }

  lemma DayInYear(d: Date)
    requires ValidDate(d)
    ensures DaysBeforeYear(d.year - 1) <= DayNumber(d) < DaysBeforeYear(d.year)
  {
    MonthsGrow(d.month, 12, IsLeap(d.year));
    YearLength(d.year - 1);
  }

  lemma MonthsOrdered(d: Date, e: Date)
    requires ValidDate(d) && ValidDate(e) && d.year == e.year && d.month < e.month
    ensures DayNumber(d) < DayNumber(e)
  {
    MonthsGrow(d.month, e.month - 1, IsLeap(d.year));
  }

  lemma YearsOrdered(d: Date, e: Date)
    requires ValidDate(d) && ValidDate(e) && d.year < e.year
    ensures DayNumber(d) < DayNumber(e)
  {
    DayInYear(d);
    DayInYear(e);
    YearsGrow(d.year, e.year - 1);
  }

  /** Later in the calendar is later in days. */
  lemma DatesOrdered(d: Date, e: Date)
    requires ValidDate(d) && ValidDate(e)
    requires d.year < e.year || (d.year == e.year && (d.month < e.month || (d.month == e.month && d.day < e.day)))
    ensures DayNumber(d) < DayNumber(e)
  {
    if d.year < e.year {
      YearsOrdered(d, e);
    } else if d.month < e.month {
      MonthsOrdered(d, e);
    }
  }

  lemma {:induction false} MonthsGrow(m: nat, n: nat, leap: bool)
    requires m <= n <= 12
    ensures DaysBeforeMonth(m, leap) <= DaysBeforeMonth(n, leap)
    decreases n - m
  {
    if m < n { MonthsGrow(m + 1, n, leap); }
  }

  // ---------------------------------------------------------------- instants

  const TICKS_PER_SECOND: nat := 10_000_000
  const TICKS_PER_DAY: nat := 864_000_000_000

  /** UTC instants from 0001-01-01T00:00:00 to the last tick of year 9999. */
  predicate InRange(t: int) { 0 <= t < DAYS * TICKS_PER_DAY }

  function FieldsOf(t: nat): seq<Field>
    requires InRange(t)
  {
    var date, rest := DateOf(t / TICKS_PER_DAY), t % TICKS_PER_DAY;
    var seconds := rest / TICKS_PER_SECOND;
    [Field(date.year, 4, '-'), Field(date.month, 2, '-'), Field(date.day, 2, 'T'),
     Field(seconds / 3600, 2, ':'), Field(seconds / 60 % 60, 2, ':'), Field(seconds % 60, 2, '.'),
     Field(rest % TICKS_PER_SECOND, 7, '+')]
  }

  /** Format of the store: `ToString("O")` of the instant in UTC. */
  function Format(t: nat): string
    requires InRange(t)
  {
    Render(FieldsOf(t)) + "00:00"
  }

  const SHAPE: seq<(nat, char)> := [(4, '-'), (2, '-'), (2, 'T'), (2, ':'), (2, ':'), (2, '.'), (7, '+')]

  /** Parse of the store, on texts in the layout that Format writes. */
  function Parse(s: string): Option<nat> {
    var r := ReadFields(SHAPE, s);
    if r.None? || r.value.1 != "00:00" then None
    else
      ReadFieldsLength(SHAPE, s);
      var v := r.value.0;
      var date := Date(v[0], v[1], v[2]);
      if !ValidDate(date) || v[3] >= 24 || v[4] >= 60 || v[5] >= 60 || v[6] >= TICKS_PER_SECOND then None
      else Some(InstantOf(v))
  }

  lemma {:induction false} ReadFieldsLength(shape: seq<(nat, char)>, s: string)
    requires ReadFields(shape, s).Some?
    ensures |ReadFields(shape, s).value.0| == |shape|
    decreases |shape|
  {
    if shape != [] {
      ReadFieldsLength(shape[1..], s[shape[0].0 + 1..]);
    }
  }

  lemma PowersOfTen()
    ensures Pow10(2) == 100 && Pow10(4) == 10_000 && Pow10(7) == 10_000_000
  {
    assert Pow10(4) == 100 * Pow10(2);
    assert Pow10(7) == 1000 * Pow10(4);
  }

  lemma SplitSeconds(s: nat)
    requires s < 86_400
    ensures s / 3600 < 24 && s == (s / 3600 * 60 + s / 60 % 60) * 60 + s % 60
  {
  }

  lemma SplitDay(t: nat)
    ensures var rest := t % TICKS_PER_DAY;
            && t == t / TICKS_PER_DAY * TICKS_PER_DAY + rest && rest / TICKS_PER_SECOND < 86_400
            && rest == rest / TICKS_PER_SECOND * TICKS_PER_SECOND + rest % TICKS_PER_SECOND
  {
  }

  lemma DateIsSmall(d: Date)
    requires ValidDate(d)
    ensures d.year < 10_000 && d.month < 100 && d.day < 100
  {
  }

  lemma FieldsAreSmall(t: nat)
    requires InRange(t)
    ensures |FieldsOf(t)| == 7
    ensures var f := FieldsOf(t);
            && f[0].value < 10_000 && f[1].value < 100 && f[2].value < 100
            && f[3].value < 24 && f[4].value < 60 && f[5].value < 60 && f[6].value < TICKS_PER_SECOND
  {
    DateIsSmall(DateOf(t / TICKS_PER_DAY));
    SplitDay(t);
    SplitSeconds(t % TICKS_PER_DAY / TICKS_PER_SECOND);
  }

  lemma FieldsFit(t: nat)
    requires InRange(t)
    ensures Fits(FieldsOf(t)) && |FieldsOf(t)| == 7
    ensures var f := FieldsOf(t);
            f[3].value < 24 && f[4].value < 60 && f[5].value < 60 && f[6].value < TICKS_PER_SECOND
  {
    var f := FieldsOf(t);
    FieldsAreSmall(t);
    PowersOfTen();
    assert f[0].width == 4 && f[6].width == 7 && forall i :: 1 <= i < 6 ==> f[i].width == 2;
    assert forall i :: 1 <= i < 6 ==> f[i].value < 100 by {
      assert f[1].value < 100 && f[2].value < 100 && f[3].value < 100 && f[4].value < 100 && f[5].value < 100;
    }
    forall i | 0 <= i < 7 ensures f[i].value < Pow10(f[i].width) {
      assert i == 0 || i == 6 || 1 <= i < 6;
    }
  }

  /** The fields determine the instant. */
  lemma FieldsTell(t: nat)
    requires InRange(t)
    ensures |FieldsOf(t)| == 7
    ensures var (f, date) := (FieldsOf(t), DateOf(t / TICKS_PER_DAY));
            t == DayNumber(date) * TICKS_PER_DAY
                 + ((f[3].value * 60 + f[4].value) * 60 + f[5].value) * TICKS_PER_SECOND + f[6].value
  {
    SplitDay(t);
    SplitSeconds(t % TICKS_PER_DAY / TICKS_PER_SECOND);
  }

  lemma ReadFormat(t: nat)
    requires InRange(t)
    ensures ReadFields(SHAPE, Format(t)) == Some((ValuesOf(FieldsOf(t)), "00:00"))
  {
    var f := FieldsOf(t);
    FieldsFit(t);
    ReadBack(f, "00:00");
    ShapeAt(f);
    assert forall i :: 0 <= i < 7 ==> SHAPE[i] == (f[i].width, f[i].after);
    assert ShapeOf(f) == SHAPE;
  }

  /** The instant that seven values stand for. */
  function InstantOf(v: seq<nat>): nat
    requires |v| == 7 && ValidDate(Date(v[0], v[1], v[2]))
  {
    DayNumber(Date(v[0], v[1], v[2])) * TICKS_PER_DAY + ((v[3] * 60 + v[4]) * 60 + v[5]) * TICKS_PER_SECOND + v[6]
  }

  lemma ParseOfFields(s: string, v: seq<nat>)
    requires ReadFields(SHAPE, s) == Some((v, "00:00")) && |v| == 7 && ValidDate(Date(v[0], v[1], v[2]))
    requires v[3] < 24 && v[4] < 60 && v[5] < 60 && v[6] < TICKS_PER_SECOND
    ensures Parse(s) == Some(InstantOf(v))
  {
  }

  /** The values written for an instant are a valid date and time of day, and add up to the instant. */
  lemma ValuesTell(t: nat)
    requires InRange(t)
    ensures var v := ValuesOf(FieldsOf(t));
            && |v| == 7 && ValidDate(Date(v[0], v[1], v[2]))
            && v[3] < 24 && v[4] < 60 && v[5] < 60 && v[6] < TICKS_PER_SECOND && InstantOf(v) == t
  {
    FieldsFit(t);
    FieldsTell(t);
    ValuesAt(FieldsOf(t));
  }

  /** Writing an instant and reading it back gives the same instant. */
  lemma ParseFormat(t: nat)
    requires InRange(t)
    ensures Parse(Format(t)) == Some(t)
  {
    var s, v := Format(t), ValuesOf(FieldsOf(t));
    ReadFormat(t);
    ValuesTell(t);
    assert Parse(s) == Some(InstantOf(v)) by { ParseOfFields(s, v); }
  }

  lemma {:induction false} ShapeAt(f: seq<Field>)
    ensures |ShapeOf(f)| == |f| && forall i :: 0 <= i < |f| ==> ShapeOf(f)[i] == (f[i].width, f[i].after)
  {
    if f != [] { ShapeAt(f[1..]); }
  }

  lemma {:induction false} ValuesAt(f: seq<Field>)
    ensures |ValuesOf(f)| == |f| && forall i :: 0 <= i < |f| ==> ValuesOf(f)[i] == f[i].value
  {
    if f != [] { ValuesAt(f[1..]); }
  }

  predicate Lex7(f: seq<Field>, g: seq<Field>)
    requires |f| == 7 && |g| == 7
  {
    f[0].value < g[0].value || (f[0].value == g[0].value && (
    f[1].value < g[1].value || (f[1].value == g[1].value && (
    f[2].value < g[2].value || (f[2].value == g[2].value && (
    f[3].value < g[3].value || (f[3].value == g[3].value && (
    f[4].value < g[4].value || (f[4].value == g[4].value && (
    f[5].value < g[5].value || (f[5].value == g[5].value && f[6].value < g[6].value)))))))))))
  }

  lemma LexIsLex7(f: seq<Field>, g: seq<Field>)
    requires |f| == 7 && |g| == 7
    ensures LexLess(f, g) <==> Lex7(f, g)
  {
    var (f1, g1) := (f[1..], g[1..]);
    var (f2, g2) := (f1[1..], g1[1..]);
    var (f3, g3) := (f2[1..], g2[1..]);
    var (f4, g4) := (f3[1..], g3[1..]);
    var (f5, g5) := (f4[1..], g4[1..]);
    var (f6, g6) := (f5[1..], g5[1..]);
    assert LexLess(f6, g6) <==> f[6].value < g[6].value;
    assert LexLess(f5, g5) <==> (f[5].value < g[5].value || (f[5].value == g[5].value && LexLess(f6, g6)));
    assert LexLess(f4, g4) <==> (f[4].value < g[4].value || (f[4].value == g[4].value && LexLess(f5, g5)));
    assert LexLess(f3, g3) <==> (f[3].value < g[3].value || (f[3].value == g[3].value && LexLess(f4, g4)));
    assert LexLess(f2, g2) <==> (f[2].value < g[2].value || (f[2].value == g[2].value && LexLess(f3, g3)));
    assert LexLess(f1, g1) <==> (f[1].value < g[1].value || (f[1].value == g[1].value && LexLess(f2, g2)));
  }

  lemma LexIsEarlier(s: nat, t: nat)
    requires InRange(s) && InRange(t) && Lex7(FieldsOf(s), FieldsOf(t))
    ensures s < t
  {
    FieldsFit(s);
    FieldsFit(t);
    FieldsTell(s);
    FieldsTell(t);
    var d, e := DateOf(s / TICKS_PER_DAY), DateOf(t / TICKS_PER_DAY);
    if d != e {
      DatesOrdered(d, e);
    }
  }

  lemma EarlierIsLex(s: nat, t: nat)
    requires InRange(s) && InRange(t) && s < t
    ensures Lex7(FieldsOf(s), FieldsOf(t))
  {
    if !Lex7(FieldsOf(s), FieldsOf(t)) {
      FieldsTell(s);
      FieldsTell(t);
      if Lex7(FieldsOf(t), FieldsOf(s)) {
        LexIsEarlier(t, s);
      }
    }
  }

  /** The text comparisons in the SQL are comparisons of instants, for every pair of instants in range. */
  lemma FormatOrder(s: nat, t: nat)
    requires InRange(s) && InRange(t)
    ensures Before(Format(s), Format(t)) <==> s < t
    ensures Format(s) == Format(t) <==> s == t
  {
    OrderOfFields(s, t);
    FormatIsLex(s, t);
    ParseFormat(s);
    ParseFormat(t);
  }

  lemma OrderOfFields(s: nat, t: nat)
    requires InRange(s) && InRange(t)
    ensures Lex7(FieldsOf(s), FieldsOf(t)) <==> s < t
  {
    if s < t { EarlierIsLex(s, t); }
    if Lex7(FieldsOf(s), FieldsOf(t)) { LexIsEarlier(s, t); }
  }

  lemma FormatIsLex(s: nat, t: nat)
    requires InRange(s) && InRange(t)
    ensures Before(Format(s), Format(t)) <==> Lex7(FieldsOf(s), FieldsOf(t))
  {
    FieldsFit(s);
    FieldsFit(t);
    RenderOrder(FieldsOf(s), FieldsOf(t), "00:00");
    LexIsLex7(FieldsOf(s), FieldsOf(t));
  }
}
