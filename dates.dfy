/** Proleptic Gregorian calendar dates, standing for chrono's `NaiveDate`.
    A date is a (year, month, day) triple; `DayNumber` counts days from
    0001-01-01 (day 0, a Monday) and is the measure every operation is
    proved against. */
module Dates {
  import opened Results

  datatype Date = Date(year: int, month: int, day: int)

  predicate IsLeapYear(y: int) {
    y % 4 == 0 && (y % 100 != 0 || y % 400 == 0)
  }

  function DaysInMonth(y: int, m: int): (n: int)
    requires 1 <= m <= 12
    ensures 28 <= n <= 31
    ensures n == 29 <==> m == 2 && IsLeapYear(y)
  {
    if m == 2 then (if IsLeapYear(y) then 29 else 28)
    else if m == 4 || m == 6 || m == 9 || m == 11 then 30
    else 31
  }

  function YearLength(y: int): int {
    if IsLeapYear(y) then 366 else 365
  }

  /** `NaiveDate::from_ymd_opt(y, m, d)` is `Some` exactly for these triples. */
  predicate Valid(d: Date) {
    1 <= d.month <= 12 && 1 <= d.day <= DaysInMonth(d.year, d.month)
  }

  /** Days in the years before `y`, counted from 0001-01-01. */
  function DaysBeforeYear(y: int): int {
    365 * (y - 1) + (y - 1) / 4 - (y - 1) / 100 + (y - 1) / 400
  }

  /** Days of year `y` before the first of month `m`. */
  function DaysBeforeMonth(y: int, m: int): (n: int)
    requires 1 <= m <= 13
    decreases m
  {
    if m == 1 then 0 else DaysBeforeMonth(y, m - 1) + DaysInMonth(y, m - 1)
  }

  function DayNumber(d: Date): int
    requires 1 <= d.month <= 12
  {
    DaysBeforeYear(d.year) + DaysBeforeMonth(d.year, d.month) + d.day - 1
  }

  /** Chronological order, as `NaiveDate`'s `<` compares dates. */
  predicate Before(a: Date, b: Date) {
    a.year < b.year
    || (a.year == b.year && a.month < b.month)
    || (a.year == b.year && a.month == b.month && a.day < b.day)
  }

  predicate NotAfter(a: Date, b: Date) {
    a == b || Before(a, b)
  }

  /** The next day: `day += Duration::days(1)`. */
  function Succ(d: Date): (r: Date)
    requires Valid(d)
    ensures Valid(r) && Before(d, r)
    ensures DayNumber(r) == DayNumber(d) + 1
  {
    if d.day < DaysInMonth(d.year, d.month) then Date(d.year, d.month, d.day + 1)
    else if d.month < 12 then
      NextMonth(d);
      Date(d.year, d.month + 1, 1)
    else
      NextYear(d);
      Date(d.year + 1, 1, 1)
  }

  /** The day after the last of a month other than December. */
  lemma NextMonth(d: Date)
    requires Valid(d) && d.day == DaysInMonth(d.year, d.month) && d.month < 12
    ensures Valid(Date(d.year, d.month + 1, 1))
    ensures DayNumber(Date(d.year, d.month + 1, 1)) == DayNumber(d) + 1
  {
    DaysBeforeMonthStep(d.year, d.month);
  }

  /** The day after December 31. */
  lemma NextYear(d: Date)
    requires Valid(d) && d.day == DaysInMonth(d.year, d.month) && d.month == 12
    ensures DayNumber(Date(d.year + 1, 1, 1)) == DayNumber(d) + 1
  {
    YearLengthIsFullYear(d.year);
    DaysBeforeYearStep(d.year);
  }

  /** `d.checked_add_days(Days::new(n))`, for dates inside chrono's range. */
  function AddDays(d: Date, n: nat): (r: Date)
    requires Valid(d)
    ensures Valid(r) && DayNumber(r) == DayNumber(d) + n
    decreases n
  {
    if n == 0 then d else AddDays(Succ(d), n - 1)
  }

  /** `(a - b).num_days()`. */
  function DiffDays(a: Date, b: Date): int
    requires Valid(a) && Valid(b)
  {
    DayNumber(a) - DayNumber(b)
  }

  /** 0 = Monday, ..., 6 = Sunday (0001-01-01 is a Monday). */
  function Weekday(d: Date): (w: int)
    requires Valid(d)
    ensures 0 <= w < 7
  {
    DayNumber(d) % 7
  }

  /** `d.format("%a") == "Mon"`. */
  predicate IsMonday(d: Date)
    requires Valid(d)
  {
    Weekday(d) == 0
  }

  // ---------------------------------------------------------------------
  // Arithmetic facts behind the day numbering

  lemma FloorStep(y: int, k: int)
    requires k == 4 || k == 100 || k == 400
    ensures y / k - (y - 1) / k == if y % k == 0 then 1 else 0
  {
    var q, r := y / k, y % k;
    assert y == k * q + r && 0 <= r < k;
    if r == 0 {
      assert y - 1 == k * (q - 1) + (k - 1);
    } else {
      assert y - 1 == k * q + (r - 1);
    }
  }

  lemma DivisibleBy400(y: int)
    requires y % 400 == 0
    ensures y % 100 == 0 && y % 4 == 0
  {
    var q := y / 400;
    assert y == 400 * q;
    MultipleMod(4 * q, 100);
    MultipleMod(100 * q, 4);
  }

  lemma MultipleMod(a: int, k: int)
    requires k == 4 || k == 100
    ensures (k * a) % k == 0
  {
    if k == 4 {
      assert (4 * a) / 4 == a;
    } else {
      assert (100 * a) / 100 == a;
    }
  }

  lemma DivisibleBy100(y: int)
    requires y % 100 == 0
    ensures y % 4 == 0
  {
    var q := y / 100;
    assert y == 100 * q;
    MultipleMod(25 * q, 4);
  }

  lemma DaysBeforeYearStep(y: int)
    ensures DaysBeforeYear(y + 1) == DaysBeforeYear(y) + YearLength(y)
  {
    var a4, a100, a400 := y / 4 - (y - 1) / 4, y / 100 - (y - 1) / 100, y / 400 - (y - 1) / 400;
    FloorStep(y, 4);
    FloorStep(y, 100);
    FloorStep(y, 400);
    assert DaysBeforeYear(y + 1) - DaysBeforeYear(y) == 365 + a4 - a100 + a400;
    if y % 400 == 0 {
      DivisibleBy400(y);
    } else if y % 100 == 0 {
      DivisibleBy100(y);
    }
  }

  lemma YearLengthIsFullYear(y: int)
    ensures DaysBeforeMonth(y, 13) == YearLength(y)
  {
  }

  lemma DaysBeforeMonthStep(y: int, m: int)
    requires 1 <= m <= 12
    ensures DaysBeforeMonth(y, m + 1) == DaysBeforeMonth(y, m) + DaysInMonth(y, m)
  {
  }

  lemma {:induction false} DaysBeforeMonthMonotone(y: int, m1: int, m2: int)
    requires 1 <= m1 < m2 <= 13
    ensures DaysBeforeMonth(y, m1) + DaysInMonth(y, m1) <= DaysBeforeMonth(y, m2)
    decreases m2 - m1
  {
    if m1 + 1 < m2 {
      DaysBeforeMonthMonotone(y, m1 + 1, m2);
    }
  }

  lemma {:induction false} DaysBeforeYearMonotone(y1: int, y2: int)
    requires y1 < y2
    ensures DaysBeforeYear(y1) + YearLength(y1) <= DaysBeforeYear(y2)
    decreases y2 - y1
  {
    DaysBeforeYearStep(y1);
    if y1 + 1 < y2 {
      DaysBeforeYearMonotone(y1 + 1, y2);
    }
  }

  /** Every valid date lies inside its year's block of day numbers. */
  lemma DayNumberWithinYear(d: Date)
    requires Valid(d)
    ensures DaysBeforeYear(d.year) <= DayNumber(d) < DaysBeforeYear(d.year) + YearLength(d.year)
  {
    if d.month < 12 {
      DaysBeforeMonthMonotone(d.year, d.month, 13);
    }
    YearLengthIsFullYear(d.year);
  }

  // ---------------------------------------------------------------------
  // The calendar order agrees with the day numbering

  /** Comparing dates field by field is the same as comparing day numbers. */
  lemma BeforeIffDayNumber(a: Date, b: Date)
    requires Valid(a) && Valid(b)
    ensures Before(a, b) <==> DayNumber(a) < DayNumber(b)
  {
    DayNumberWithinYear(a);
    DayNumberWithinYear(b);
    if a.year < b.year {
      DaysBeforeYearMonotone(a.year, b.year);
    } else if b.year < a.year {
      DaysBeforeYearMonotone(b.year, a.year);
    } else if a.month < b.month {
      DaysBeforeMonthMonotone(a.year, a.month, b.month);
    } else if b.month < a.month {
      DaysBeforeMonthMonotone(b.year, b.month, a.month);
    }
  }

  /** Distinct valid dates have distinct day numbers. */
  lemma DayNumberInjective(a: Date, b: Date)
    requires Valid(a) && Valid(b)
    ensures DayNumber(a) == DayNumber(b) <==> a == b
  {
    BeforeIffDayNumber(a, b);
    BeforeIffDayNumber(b, a);
  }

  lemma NotAfterIffDayNumber(a: Date, b: Date)
    requires Valid(a) && Valid(b)
    ensures NotAfter(a, b) <==> DayNumber(a) <= DayNumber(b)
  {
    BeforeIffDayNumber(a, b);
    DayNumberInjective(a, b);
  }

  /** Adding the difference of two ordered dates to the earlier gives the later. */
  lemma AddDiffDays(a: Date, b: Date)
    requires Valid(a) && Valid(b) && NotAfter(a, b)
    ensures DiffDays(b, a) >= 0 && AddDays(a, DiffDays(b, a)) == b
  {
    NotAfterIffDayNumber(a, b);
    DayNumberInjective(AddDays(a, DiffDays(b, a)), b);
  }

  /** Subtracting after adding `n` days gives back `n`. */
  lemma DiffAddDays(a: Date, n: nat)
    requires Valid(a)
    ensures DiffDays(AddDays(a, n), a) == n
  {
  }

  /** The weekday advances by one, modulo seven, from one day to the next. */
  lemma WeekdaySucc(d: Date)
    requires Valid(d)
    ensures Weekday(Succ(d)) == (Weekday(d) + 1) % 7
  {
    var n := DayNumber(d);
    assert DayNumber(Succ(d)) == n + 1;
    ModSevenSucc(n);
  }

  lemma ModSevenSucc(n: int)
    ensures (n + 1) % 7 == (n % 7 + 1) % 7
  {
    var q, r := n / 7, n % 7;
    assert n + 1 == 7 * q + (r + 1);
    if r == 6 {
      assert n + 1 == 7 * (q + 1);
    }
  }

  /** 2024-01-01, the first cell of the calendar, is a Monday. */
  lemma FirstOf2024IsMonday()
    ensures Valid(Date(2024, 1, 1)) && IsMonday(Date(2024, 1, 1))
    ensures DayNumber(Date(2024, 1, 1)) == 738885
  {
  }

  // ---------------------------------------------------------------------
  // The all-day DATE token YYYYMMDD (section 3.3.4 of RFC 5545), as read by
  // `NaiveDate::parse_and_remainder(value, "%Y%m%d")`

  predicate IsDigit(c: char) {
    '0' <= c <= '9'
  }

  predicate AllDigits(s: string) {
    forall i :: 0 <= i < |s| ==> IsDigit(s[i])
  }

  /** The number a run of decimal digits spells, most significant first. */
  function DigitsValue(s: string): (n: nat)
    requires AllDigits(s)
  {
    if s == [] then 0
    else 10 * DigitsValue(s[..|s| - 1]) + (s[|s| - 1] as int - '0' as int)
  }

  function Pow10(n: nat): nat {
    if n == 0 then 1 else 10 * Pow10(n - 1)
  }

  lemma {:induction false} DigitsValueBound(s: string)
    requires AllDigits(s)
    ensures DigitsValue(s) < Pow10(|s|)
  {
    if s != [] {
      DigitsValueBound(s[..|s| - 1]);
    }
  }

  /** The date spelled by the first eight characters; whatever follows them
      (a `T...` time part, say) is the remainder the caller ignores. */
  function ParseDate(s: string): (r: Result<Date>)
    ensures r.Ok? ==> Valid(r.value) && 0 <= r.value.year <= 9999
  {
    if |s| < 8 || !AllDigits(s[..8]) then Err(BadDate)
    else
      var d := Date(DigitsValue(s[..4]), DigitsValue(s[4..6]), DigitsValue(s[6..8]));
      DigitsValueBound(s[..4]);
      if Valid(d) then Ok(d) else Err(BadDate)
  }

  function Digit(n: int): (c: char)
    requires 0 <= n < 10
    ensures IsDigit(c)
  {
    ('0' as int + n) as char
  }

  /** The eight-digit token of a date whose year has at most four digits. */
  function FormatDate(d: Date): (s: string)
    requires 0 <= d.year <= 9999 && 1 <= d.month <= 12 && 1 <= d.day <= 31
    ensures |s| == 8 && AllDigits(s)
  {
    [Digit(d.year / 1000), Digit(d.year / 100 % 10), Digit(d.year / 10 % 10), Digit(d.year % 10),
     Digit(d.month / 10), Digit(d.month % 10),
     Digit(d.day / 10), Digit(d.day % 10)]
  }

  lemma DigitsValue1(a: int)
    requires 0 <= a < 10
    ensures DigitsValue([Digit(a)]) == a
  {
    assert [Digit(a)][..0] == [];
    assert Digit(a) as int - '0' as int == a;
  }

  lemma DigitsValue2(a: int, b: int)
    requires 0 <= a < 10 && 0 <= b < 10
    ensures DigitsValue([Digit(a), Digit(b)]) == 10 * a + b
  {
    assert [Digit(a), Digit(b)][..1] == [Digit(a)];
    DigitsValue1(a);
    assert Digit(b) as int - '0' as int == b;
  }

  lemma DigitsValue4(a: int, b: int, c: int, e: int)
    requires 0 <= a < 10 && 0 <= b < 10 && 0 <= c < 10 && 0 <= e < 10
    ensures DigitsValue([Digit(a), Digit(b), Digit(c), Digit(e)]) == 1000 * a + 100 * b + 10 * c + e
  {
    var s := [Digit(a), Digit(b), Digit(c), Digit(e)];
    assert s[..3][..2] == [Digit(a), Digit(b)];
    DigitsValue2(a, b);
    assert Digit(c) as int - '0' as int == c;
    assert Digit(e) as int - '0' as int == e;
    assert DigitsValue(s[..3]) == 100 * a + 10 * b + c;
  }

  lemma SplitYear(y: int)
    requires 0 <= y <= 9999
    ensures 1000 * (y / 1000) + 100 * (y / 100 % 10) + 10 * (y / 10 % 10) + y % 10 == y
  {
    var a := y / 10;
    assert y == 10 * a + y % 10;
    var b := a / 10;
    assert a == 10 * b + a % 10;
    assert y / 100 == b;
    assert b == 10 * (b / 10) + b % 10;
    assert y / 1000 == b / 10;
  }

  /** Reading back a formatted date, with any remainder after it, gives the
      date again. */
  lemma ParseFormatDate(d: Date, rest: string)
    requires Valid(d) && 0 <= d.year <= 9999
    ensures ParseDate(FormatDate(d) + rest) == Ok(d)
  {
    var s := FormatDate(d) + rest;
    assert s[..8] == FormatDate(d);
    var y := d.year;
    assert s[..4] == [Digit(y / 1000), Digit(y / 100 % 10), Digit(y / 10 % 10), Digit(y % 10)];
    DigitsValue4(y / 1000, y / 100 % 10, y / 10 % 10, y % 10);
    assert DigitsValue(s[..4]) == y by {
      SplitYear(y);
    }
    assert s[4..6] == [Digit(d.month / 10), Digit(d.month % 10)];
    DigitsValue2(d.month / 10, d.month % 10);
    assert s[6..8] == [Digit(d.day / 10), Digit(d.day % 10)];
    DigitsValue2(d.day / 10, d.day % 10);
  }

  /** Only the first eight characters decide the date. */
  lemma ParseDateIgnoresRemainder(s: string, rest: string)
    requires |s| == 8
    ensures ParseDate(s + rest) == ParseDate(s)
  {
    assert (s + rest)[..8] == s[..8];
    assert (s + rest)[..4] == s[..4] && (s + rest)[4..6] == s[4..6] && (s + rest)[6..8] == s[6..8];
  }

  /** Digit runs of the same length that spell the same number are the
      same run. */
  lemma {:induction false} DigitsValueInjective(a: string, b: string)
    requires AllDigits(a) && AllDigits(b) && |a| == |b| && DigitsValue(a) == DigitsValue(b)
    ensures a == b
  {
    if a != [] {
      var n := |a| - 1;
      var da := a[n] as int - '0' as int;
      var db := b[n] as int - '0' as int;
      LastDigit(DigitsValue(a[..n]), da);
      LastDigit(DigitsValue(b[..n]), db);
      assert a[n] == b[n];
      DigitsValueInjective(a[..n], b[..n]);
      assert a == a[..n] + [a[n]] && b == b[..n] + [b[n]];
    }
  }

  lemma LastDigit(q: int, r: int)
    requires 0 <= r < 10
    ensures (10 * q + r) % 10 == r && (10 * q + r) / 10 == q
  {
  }

  /** A token parses to `d` exactly when `d` is a valid date with a year of
      at most four digits and the token begins with its eight digits:
      every other token, a non-digit, February 30 or month 13 among them,
      is the parse panic. */
  lemma ParseDateExact(s: string, d: Date)
    ensures ParseDate(s) == Ok(d) <==>
      Valid(d) && 0 <= d.year <= 9999 && |s| >= 8 && s[..8] == FormatDate(d)
  {
    if Valid(d) && 0 <= d.year <= 9999 && |s| >= 8 && s[..8] == FormatDate(d) {
      assert s == FormatDate(d) + s[8..];
      ParseFormatDate(d, s[8..]);
    }
    if ParseDate(s) == Ok(d) {
      var f := FormatDate(d);
      ParseFormatDate(d, []);
      assert f + [] == f;
      var t := s[..8];
      assert t[..4] == s[..4] && t[4..6] == s[4..6] && t[6..8] == s[6..8];
      DigitsValueInjective(s[..4], f[..4]);
      DigitsValueInjective(s[4..6], f[4..6]);
      DigitsValueInjective(s[6..8], f[6..8]);
      assert t == t[..4] + t[4..6] + t[6..8];
      assert f == f[..4] + f[4..6] + f[6..8];
    }
  }

  /** February 30, month 13 and a dashed date are the parse panic. */
  lemma ParseDateRejects()
    ensures ParseDate("20240230") == Err(BadDate)
    ensures ParseDate("20241301") == Err(BadDate)
    ensures ParseDate("2024-03-04") == Err(BadDate)
  {
    var feb30 := "20240230";
    assert feb30[..4] == "2024" && feb30[4..6] == "02" && feb30[6..8] == "30";
    var month13 := "20241301";
    assert month13[..4] == "2024" && month13[4..6] == "13";
    assert !IsDigit("2024-03-04"[4]);
  }
}
