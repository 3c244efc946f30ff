/** The wall-calendar grid of `base_calendar` (src/main.rs, repeated in
    src/printable.rs): which dates of 2024 get a cell, in which column and
    row, and whether the day-number boxes of that cell are shaded. Page
    coordinates are replaced by integer slots: `column` counts columns from
    the left, `row` counts rows of height ROW down from the column's top row. */
module Grid {
  import opened Dates

  const Year: int := 2024
  /** `COLS` */
  const Cols: nat := 4
  /** `12 / COLS` */
  const MonthsPerColumn: nat := 3
  /** One header row and 31 day rows per month. */
  const RowsPerMonth: nat := 32

  /** `MONTHS` */
  const MonthNames: seq<string> := ["January", "February", "March", "April", "May", "June",
    "July", "August", "September", "October", "November", "December"]

  datatype Slot = Slot(column: nat, row: nat)

  /** The month name drawn in the header row of a month block. */
  datatype Header = Header(name: string, slot: Slot)

  predicate InYear(d: Date) {
    d.year == Year && Valid(d)
  }

  /** Where the cell of a date sits: month m is the ((m-1) % 3)-th block of
      column (m-1) / 3, and day d is d rows below that block's header. */
  function SlotOf(d: Date): Slot
    requires 1 <= d.month <= 12 && 1 <= d.day
  {
    Slot((d.month - 1) / MonthsPerColumn, RowsPerMonth * ((d.month - 1) % MonthsPerColumn) + d.day)
  }

  /** The header of the month with index `k` (0 = January). */
  function HeaderOf(k: nat): Header
    requires k < 12
  {
    Header(MonthNames[k], Slot(k / MonthsPerColumn, RowsPerMonth * (k % MonthsPerColumn)))
  }

  /** The number of Mondays among the days numbered `lo` to `hi`. */
  function MondaysBetween(lo: int, hi: int): nat
    decreases hi - lo
  {
    if hi < lo then 0
    else MondaysBetween(lo, hi - 1) + (if hi % 7 == 0 then 1 else 0)
  }

  const FirstDay: Date := Date(Year, 1, 1)

  /** A cell is shaded when an odd number of Mondays fall between
      2024-01-01 and its date, both included. */
  predicate Shaded(d: Date)
    requires Valid(d)
  {
    MondaysBetween(DayNumber(FirstDay), DayNumber(d)) % 2 == 1
  }

  /** The walk visits day numbers 1 to 31 of every month; `Cells(m, dd)` are
      the cells laid out just before it looks at day number `dd` of month
      `m` (`Cells(13, 1)` is the finished layout): a date that exists gets
      its slot. */
  ghost function Cells(m: int, dd: int): map<Date, Slot>
    requires WalkPoint(m, dd)
    decreases m, dd
  {
    if dd > 1 then
      var d := Date(Year, m, dd - 1);
      if Valid(d) then Cells(m, dd - 1)[d := SlotOf(d)] else Cells(m, dd - 1)
    else if m > 1 then Cells(m - 1, 32)
    else map[]
  }

  /** The shade of each cell laid out, and the running shade flag. */
  datatype Shading = Shading(marks: map<Date, bool>, flag: bool)

  /** The shading at the same points of the walk: visiting a date that
      exists toggles the flag on a Monday and gives the date the flag. */
  ghost function Shades(m: int, dd: int): Shading
    requires WalkPoint(m, dd)
    decreases m, dd
  {
    if dd > 1 then
      var prev := Shades(m, dd - 1);
      var d := Date(Year, m, dd - 1);
      if Valid(d) then
        var flag := prev.flag != IsMonday(d);
        Shading(prev.marks[d := flag], flag)
      else prev
    else if m > 1 then Shades(m - 1, 32)
    else Shading(map[], false)
  }

  /** `base_calendar`: for each column, for each of its months, a header row
      and then 31 rows, one per day number; a day that exists in the month
      gets a cell, toggling the shade on Mondays, and a day that does not
      still uses up its row. */
  method BaseCalendar() returns (positions: map<Date, Slot>, shading: map<Date, bool>, headers: seq<Header>)
    ensures forall d :: d in positions <==> InYear(d)
    ensures forall d :: InYear(d) ==> positions[d] == SlotOf(d)
    ensures shading.Keys == positions.Keys
    ensures forall d :: InYear(d) ==> (shading[d] <==> Shaded(d))
    ensures |positions| == 366
    ensures |headers| == 12 && forall k :: 0 <= k < 12 ==> headers[k] == HeaderOf(k)
  {
    positions, shading, headers := map[], map[], [];
    var month := 1;
    var shade := false;
    var col := 0;
    while col < Cols
      invariant 0 <= col <= Cols && month == 1 + MonthsPerColumn * col
      invariant LaidOut(positions, shading, shade, month) && HeadersBefore(headers, month)
    {
      positions, shading, shade, headers := LayColumn(col, month, positions, shading, shade, headers);
      month := month + MonthsPerColumn;
      col := col + 1;
    }
    FinishedLayout();
  }

  /** Column `col`: its months one below the other. The row, reset at the
      top of each column and carried from one block to the next as
      `bottom` is, moves down `RowsPerMonth` rows per block. */
  method LayColumn(col: nat, month: int, positions: map<Date, Slot>, shading: map<Date, bool>, shade: bool, headers: seq<Header>)
    returns (positions': map<Date, Slot>, shading': map<Date, bool>, shade': bool, headers': seq<Header>)
    requires col < Cols && month == 1 + MonthsPerColumn * col
    requires LaidOut(positions, shading, shade, month) && HeadersBefore(headers, month)
    ensures LaidOut(positions', shading', shade', month + MonthsPerColumn)
    ensures HeadersBefore(headers', month + MonthsPerColumn)
  {
    positions', shading', shade', headers' := positions, shading, shade, headers;
    assert month + MonthsPerColumn <= 13;
    var k := 0;
    var row := 0;
    while k < MonthsPerColumn
      invariant 0 <= k <= MonthsPerColumn && month + k <= 13 && row == RowsPerMonth * k
      invariant LaidOut(positions', shading', shade', month + k) && HeadersBefore(headers', month + k)
    {
      positions', shading', shade', headers', row := LayBlock(month + k, col, k, row, positions', shading', shade', headers');
      k := k + 1;
    }
  }

  ghost predicate LaidOut(positions: map<Date, Slot>, shading: map<Date, bool>, shade: bool, m: int)
    requires 1 <= m <= 13
  {
    positions == Cells(m, 1) && Shading(shading, shade) == Shades(m, 1)
  }

  ghost predicate HeadersBefore(headers: seq<Header>, m: int)
    requires 1 <= m <= 13
  {
    |headers| == m - 1 && forall j :: 0 <= j < m - 1 ==> headers[j] == HeaderOf(j)
  }

  /** The block of month `month`, the `k`-th of column `col`: its header
      row, then its 31 day rows. */
  method LayBlock(month: int, col: nat, k: nat, row: nat,
                  positions: map<Date, Slot>, shading: map<Date, bool>, shade: bool, headers: seq<Header>)
    returns (positions': map<Date, Slot>, shading': map<Date, bool>, shade': bool, headers': seq<Header>, row': nat)
    requires k < MonthsPerColumn && col < Cols && month == 1 + MonthsPerColumn * col + k
    requires row == RowsPerMonth * k
    requires LaidOut(positions, shading, shade, month) && HeadersBefore(headers, month)
    ensures LaidOut(positions', shading', shade', month + 1) && HeadersBefore(headers', month + 1)
    ensures row' == row + RowsPerMonth
  {
    HeaderStep(month, col, k);
    headers' := headers + [Header(MonthNames[month - 1], Slot(col, row))];
    forall j | 0 <= j < month
      ensures headers'[j] == HeaderOf(j)
    {
      if j < month - 1 {
        assert headers'[j] == headers[j];
      }
    }
    positions', shading', shade', row' := LayMonth(month, col, k, row + 1, positions, shading, shade);
    MonthStep(month + 1);
  }

  /** The 31 day rows of month `month`, the `k`-th block of column `col`,
      starting at row `row`, just below the month's header. */
  method LayMonth(month: int, col: nat, k: nat, row: nat,
                  positions: map<Date, Slot>, shading: map<Date, bool>, shade: bool)
    returns (positions': map<Date, Slot>, shading': map<Date, bool>, shade': bool, row': nat)
    requires k < MonthsPerColumn && col < Cols && month == 1 + MonthsPerColumn * col + k
    requires row == RowsPerMonth * k + 1
    requires positions == Cells(month, 1) && Shading(shading, shade) == Shades(month, 1)
    ensures positions' == Cells(month, 32) && Shading(shading', shade') == Shades(month, 32)
    ensures row' == row + 31
  {
    positions', shading', shade', row' := positions, shading, shade, row;
    var day := 1;
    while day <= 31
      invariant 1 <= day <= 32 && row' == RowsPerMonth * k + day
      invariant positions' == Cells(month, day) && Shading(shading', shade') == Shades(month, day)
    {
      positions', shading', shade' := LayDay(month, col, k, day, row', positions', shading', shade');
      row' := row' + 1;
      day := day + 1;
    }
    assert day == 32;
  }

  /** The row of day number `day`: a date that exists toggles the shade on
      a Monday and gets its cell in this row with the current shade. */
  method LayDay(month: int, col: nat, k: nat, day: int, row: nat,
                positions: map<Date, Slot>, shading: map<Date, bool>, shade: bool)
    returns (positions': map<Date, Slot>, shading': map<Date, bool>, shade': bool)
    requires k < MonthsPerColumn && col < Cols && month == 1 + MonthsPerColumn * col + k
    requires 1 <= day <= 31 && row == RowsPerMonth * k + day
    requires positions == Cells(month, day) && Shading(shading, shade) == Shades(month, day)
    ensures positions' == Cells(month, day + 1) && Shading(shading', shade') == Shades(month, day + 1)
  {
    var today := Date(Year, month, day);
    CellStep(month, col, k, day, row, positions);
    ShadeVisit(month, day, shading, shade);
    positions', shading', shade' := positions, shading, shade;
    if Valid(today) {
      if IsMonday(today) {
        shade' := !shade';
      }
      positions' := positions'[today := Slot(col, row)];
      shading' := shading'[today := shade'];
    }
  }

  // ---------------------------------------------------------------------
  // What the walk lays out

  /** Month `month` is the `k`-th block of column `col`. */
  lemma ColumnOfMonth(month: int, col: nat, k: nat)
    requires k < MonthsPerColumn && month == 1 + MonthsPerColumn * col + k
    ensures (month - 1) / MonthsPerColumn == col
    ensures (month - 1) % MonthsPerColumn == k
  {
  }

  /** The header the loop draws for month `month` is that month's. */
  lemma HeaderStep(month: int, col: nat, k: nat)
    requires k < MonthsPerColumn && col < Cols && month == 1 + MonthsPerColumn * col + k
    ensures HeaderOf(month - 1) == Header(MonthNames[month - 1], Slot(col, RowsPerMonth * k))
  {
    ColumnOfMonth(month, col, k);
  }

  /** The walk goes on from the end of one month to the first of the next. */
  lemma MonthStep(m: int)
    requires 1 < m <= 13
    ensures Cells(m, 1) == Cells(m - 1, 32) && Shades(m, 1) == Shades(m - 1, 32)
  {
  }

  /** One step of the day loop, in the loop's own terms: the cell goes to
      the current row of the current column, which is the date's slot. */
  lemma CellStep(month: int, col: nat, k: nat, day: int, row: int, positions: map<Date, Slot>)
    requires k < MonthsPerColumn && col < Cols && month == 1 + MonthsPerColumn * col + k
    requires 1 <= day <= 31 && row == RowsPerMonth * k + day
    requires positions == Cells(month, day)
    ensures var today := Date(Year, month, day);
      Cells(month, day + 1) == if Valid(today) then positions[today := Slot(col, row)] else positions
  {
    ColumnOfMonth(month, col, k);
    var today := Date(Year, month, day);
    assert SlotOf(today) == Slot(col, row);
  }

  /** One step of the day loop on the shading: a date that exists toggles
      the flag on a Monday and takes it. */
  lemma ShadeVisit(month: int, day: int, shading: map<Date, bool>, shade: bool)
    requires 1 <= month <= 12 && 1 <= day <= 31
    requires Shading(shading, shade) == Shades(month, day)
    ensures var today := Date(Year, month, day);
      Shades(month, day + 1) == if Valid(today) then
        var flag := if IsMonday(today) then !shade else shade;
        Shading(shading[today := flag], flag)
      else Shading(shading, shade)
  {
  }

  /** The number of dates of 2024 before day number `dd` of month `m`. */
  function CellsBefore(m: int, dd: int): int
    requires 1 <= m <= 13
  {
    if m == 13 then DaysBeforeMonth(Year, 13)
    else DaysBeforeMonth(Year, m) + Min(dd - 1, DaysInMonth(Year, m))
  }

  /** The walk's arguments: a day number 1 to 32 of a month, or the end. */
  predicate WalkPoint(m: int, dd: int) {
    1 <= m <= 13 && 1 <= dd <= 32 && (m == 13 ==> dd == 1)
  }

  /** Before day `dd` of month `m`, exactly the existing dates visited so
      far have a cell. */
  lemma {:induction false} WalkKeys(m: int, dd: int)
    requires WalkPoint(m, dd)
    ensures KeysBefore(Cells(m, dd), m, dd)
    decreases m, dd
  {
    if dd > 1 {
      WalkKeys(m, dd - 1);
      KeysStep(m, dd);
    } else if m > 1 {
      WalkKeys(m - 1, 32);
    }
  }

  ghost predicate KeysBefore(cells: map<Date, Slot>, m: int, dd: int) {
    forall d :: d in cells <==> InYear(d) && Before(d, Date(Year, m, dd))
  }

  lemma KeysStep(m: int, dd: int)
    requires 1 <= m <= 12 && 1 < dd <= 32
    requires KeysBefore(Cells(m, dd - 1), m, dd - 1)
    ensures KeysBefore(Cells(m, dd), m, dd)
  {
    var today := Date(Year, m, dd - 1);
    forall d
      ensures d in Cells(m, dd) <==> InYear(d) && Before(d, Date(Year, m, dd))
    {
      assert Before(d, Date(Year, m, dd)) <==> Before(d, today) || (d.year == Year && d.month == m && d.day == dd - 1);
    }
  }

  /** Exactly the dates with a cell have a shade. */
  lemma {:induction false} WalkMarks(m: int, dd: int)
    requires WalkPoint(m, dd)
    ensures Shades(m, dd).marks.Keys == Cells(m, dd).Keys
    decreases m, dd
  {
    if dd > 1 {
      WalkMarks(m, dd - 1);
      MarksStep(m, dd);
    } else if m > 1 {
      WalkMarks(m - 1, 32);
      MonthStep(m);
    }
  }

  lemma MarksStep(m: int, dd: int)
    requires 1 <= m <= 12 && 1 < dd <= 32
    requires Shades(m, dd - 1).marks.Keys == Cells(m, dd - 1).Keys
    ensures Shades(m, dd).marks.Keys == Cells(m, dd).Keys
  {
  }

  /** Every cell laid out sits in its date's slot. */
  lemma {:induction false} WalkSlots(m: int, dd: int)
    requires WalkPoint(m, dd)
    ensures SlotsRight(Cells(m, dd))
    decreases m, dd
  {
    if dd > 1 {
      WalkSlots(m, dd - 1);
      SlotsStep(m, dd);
    } else if m > 1 {
      WalkSlots(m - 1, 32);
      MonthStep(m);
    }
  }

  ghost predicate SlotsRight(cells: map<Date, Slot>) {
    forall d :: d in cells ==> 1 <= d.month <= 12 && 1 <= d.day && cells[d] == SlotOf(d)
  }

  lemma SlotsStep(m: int, dd: int)
    requires 1 <= m <= 12 && 1 < dd <= 32
    requires SlotsRight(Cells(m, dd - 1))
    ensures SlotsRight(Cells(m, dd))
  {
    var cells := Cells(m, dd);
    forall d | d in cells
      ensures 1 <= d.month <= 12 && 1 <= d.day && cells[d] == SlotOf(d)
    {
      if d != Date(Year, m, dd - 1) {
        assert d in Cells(m, dd - 1);
      }
    }
  }

  /** The number of cells laid out before day `dd` of month `m`. */
  lemma {:induction false} WalkCount(m: int, dd: int)
    requires WalkPoint(m, dd)
    ensures |Cells(m, dd)| == CellsBefore(m, dd)
    decreases m, dd
  {
    if dd > 1 {
      WalkCount(m, dd - 1);
      CountStep(m, dd);
    } else if m > 1 {
      WalkCount(m - 1, 32);
      CellsBeforeMonth(m);
      MonthStep(m);
    }
  }

  lemma CountStep(m: int, dd: int)
    requires 1 <= m <= 12 && 1 < dd <= 32
    requires |Cells(m, dd - 1)| == CellsBefore(m, dd - 1)
    ensures |Cells(m, dd)| == CellsBefore(m, dd)
  {
    WalkKeys(m, dd - 1);
    CellsBeforeStep(m, dd);
    var today := Date(Year, m, dd - 1);
    if Valid(today) {
      assert today !in Cells(m, dd - 1);
    }
  }

  /** Each day number that exists in the month adds one cell. */
  lemma CellsBeforeStep(m: int, dd: int)
    requires 1 <= m <= 12 && 1 < dd <= 32
    ensures CellsBefore(m, dd) == CellsBefore(m, dd - 1) + if Valid(Date(Year, m, dd - 1)) then 1 else 0
  {
  }

  /** The cells before the first of a month are those of the months
      before it. */
  lemma CellsBeforeMonth(m: int)
    requires 1 < m <= 13
    ensures CellsBefore(m, 1) == CellsBefore(m - 1, 32)
  {
    DaysBeforeMonthStep(Year, m - 1);
  }

  /** The date visited on day number `dd` of month `m`, when it exists,
      follows the cells already laid out. */
  lemma CellDayNumber(m: int, dd: int)
    requires 1 <= m <= 12 && Valid(Date(Year, m, dd))
    ensures DayNumber(Date(Year, m, dd)) == DayNumber(FirstDay) + CellsBefore(m, dd)
    ensures CellsBefore(m, dd) >= 0
  {
    DaysBeforeMonthNonNegative(m);
  }

  lemma {:induction false} DaysBeforeMonthNonNegative(m: int)
    requires 1 <= m <= 13
    ensures DaysBeforeMonth(Year, m) >= 0
  {
    if m > 1 {
      DaysBeforeMonthNonNegative(m - 1);
    }
  }

  /** The parity of the Mondays from the first of the year to the last of
      the first `count` days of it. */
  predicate OddMondays(count: int) {
    MondaysBetween(DayNumber(FirstDay), DayNumber(FirstDay) + count - 1) % 2 == 1
  }

  /** The running flag is the parity of the Mondays from the first of the
      year up to the last cell laid out. */
  lemma {:induction false} WalkFlag(m: int, dd: int)
    requires WalkPoint(m, dd)
    ensures Shades(m, dd).flag <==> OddMondays(CellsBefore(m, dd))
    decreases m, dd
  {
    if dd > 1 {
      WalkFlag(m, dd - 1);
      FlagStep(m, dd);
    } else if m > 1 {
      WalkFlag(m - 1, 32);
      CellsBeforeMonth(m);
    }
  }

  lemma FlagStep(m: int, dd: int)
    requires 1 <= m <= 12 && 1 < dd <= 32
    requires Shades(m, dd - 1).flag <==> OddMondays(CellsBefore(m, dd - 1))
    ensures Valid(Date(Year, m, dd - 1)) ==> (Shades(m, dd).flag <==> Shaded(Date(Year, m, dd - 1)))
    ensures Shades(m, dd).flag <==> OddMondays(CellsBefore(m, dd))
  {
    CellsBeforeStep(m, dd);
    if Valid(Date(Year, m, dd - 1)) {
      FlagVisit(m, dd);
    } else {
      FlagSkip(m, dd);
    }
  }

  lemma FlagVisit(m: int, dd: int)
    requires 1 <= m <= 12 && 1 < dd <= 32 && Valid(Date(Year, m, dd - 1))
    requires Shades(m, dd - 1).flag <==> OddMondays(CellsBefore(m, dd - 1))
    requires CellsBefore(m, dd) == CellsBefore(m, dd - 1) + 1
    ensures Shades(m, dd).flag <==> Shaded(Date(Year, m, dd - 1))
    ensures Shades(m, dd).flag <==> OddMondays(CellsBefore(m, dd))
  {
    WalkToggle(m, dd);
    MondayParity(m, dd - 1, Shades(m, dd - 1).flag);
  }

  lemma FlagSkip(m: int, dd: int)
    requires 1 <= m <= 12 && 1 < dd <= 32 && !Valid(Date(Year, m, dd - 1))
    ensures Shades(m, dd) == Shades(m, dd - 1)
  {
  }

  /** Visiting an existing date toggles the flag on a Monday. */
  lemma WalkToggle(m: int, dd: int)
    requires 1 <= m <= 12 && 1 < dd <= 32 && Valid(Date(Year, m, dd - 1))
    ensures Shades(m, dd).flag == (Shades(m, dd - 1).flag != IsMonday(Date(Year, m, dd - 1)))
  {
  }

  /** If `flag` is the parity of the Mondays before an existing date,
      toggling it on a Monday gives the parity up to and including it. */
  lemma MondayParity(m: int, dd: int, flag: bool)
    requires 1 <= m <= 12 && Valid(Date(Year, m, dd))
    requires flag <==> OddMondays(CellsBefore(m, dd))
    ensures (flag != IsMonday(Date(Year, m, dd))) <==> Shaded(Date(Year, m, dd))
    ensures (flag != IsMonday(Date(Year, m, dd))) <==> OddMondays(CellsBefore(m, dd) + 1)
  {
    var today := Date(Year, m, dd);
    var lo := DayNumber(FirstDay);
    var c := CellsBefore(m, dd);
    CellDayNumber(m, dd);
    var n := DayNumber(today);
    assert n == lo + c;
    MondaysParityStep(lo, n - 1);
    assert OddMondays(c) == (MondaysBetween(lo, n - 1) % 2 == 1);
    assert OddMondays(c + 1) == (MondaysBetween(lo, n) % 2 == 1);
    assert Shaded(today) == (MondaysBetween(lo, n) % 2 == 1);
    assert IsMonday(today) == (n % 7 == 0);
  }

  /** One more day flips the parity of the Mondays counted exactly when
      that day is a Monday. */
  lemma MondaysParityStep(lo: int, n: int)
    requires lo <= n + 1
    ensures MondaysBetween(lo, n + 1) % 2 == 1 <==> (MondaysBetween(lo, n) % 2 == 1) != ((n + 1) % 7 == 0)
  {
    MondaysStep(lo, n + 1);
    FlipParity(MondaysBetween(lo, n));
  }

  lemma FlipParity(a: int)
    ensures (a + 1) % 2 == 1 <==> a % 2 != 1
  {
  }

  lemma MondaysStep(lo: int, hi: int)
    requires lo <= hi
    ensures MondaysBetween(lo, hi) == MondaysBetween(lo, hi - 1) + (if hi % 7 == 0 then 1 else 0)
  {
  }

  /** Each cell's shade is the parity of the Mondays from the first of the
      year up to its date. */
  lemma {:induction false} WalkShade(m: int, dd: int)
    requires WalkPoint(m, dd)
    ensures MarksRight(Shades(m, dd).marks)
    decreases m, dd
  {
    if dd > 1 {
      WalkShade(m, dd - 1);
      WalkFlag(m, dd - 1);
      FlagStep(m, dd);
      ShadeStep(m, dd);
    } else if m > 1 {
      WalkShade(m - 1, 32);
    }
  }

  ghost predicate MarksRight(marks: map<Date, bool>) {
    forall d :: d in marks ==> Valid(d) && (marks[d] <==> Shaded(d))
  }

  lemma ShadeStep(m: int, dd: int)
    requires 1 <= m <= 12 && 1 < dd <= 32
    requires MarksRight(Shades(m, dd - 1).marks)
    requires Valid(Date(Year, m, dd - 1)) ==> (Shades(m, dd).flag <==> Shaded(Date(Year, m, dd - 1)))
    ensures MarksRight(Shades(m, dd).marks)
  {
  }

  /** The finished walk: every date of 2024, and nothing else, has its
      cell. */
  lemma FinishedLayout()
    ensures forall d :: d in Cells(13, 1) <==> InYear(d)
    ensures forall d :: InYear(d) ==> Cells(13, 1)[d] == SlotOf(d)
    ensures Shades(13, 1).marks.Keys == Cells(13, 1).Keys
    ensures forall d :: InYear(d) ==> (Shades(13, 1).marks[d] <==> Shaded(d))
    ensures |Cells(13, 1)| == 366
  {
    WalkKeys(13, 1);
    WalkMarks(13, 1);
    WalkSlots(13, 1);
    WalkCount(13, 1);
    WalkShade(13, 1);
    YearLengthIsFullYear(Year);
  }

  // ---------------------------------------------------------------------
  // Properties of the layout

  /** No two dates of the year share a slot. */
  lemma SlotsDistinct(d1: Date, d2: Date)
    requires InYear(d1) && InYear(d2) && d1 != d2
    ensures SlotOf(d1) != SlotOf(d2)
  {
    InYearBounds(d1);
    InYearBounds(d2);
    var m1, m2 := d1.month - 1, d2.month - 1;
    RowSplit(m1 % MonthsPerColumn, d1.day);
    RowSplit(m2 % MonthsPerColumn, d2.day);
    if m1 == m2 {
      assert d1.day != d2.day;
    }
  }

  /** A day cell lies in the column of its month, between that month's
      header row and the next month's, so it never lands on a header. */
  lemma SlotBelowHeader(d: Date)
    requires InYear(d)
    ensures var h := HeaderOf(d.month - 1).slot;
      SlotOf(d).column == h.column && h.row < SlotOf(d).row < h.row + RowsPerMonth
    ensures forall k :: 0 <= k < 12 ==> SlotOf(d) != HeaderOf(k).slot
  {
    InYearBounds(d);
    RowSplit((d.month - 1) % MonthsPerColumn, d.day);
    forall k | 0 <= k < 12
      ensures SlotOf(d) != HeaderOf(k).slot
    {
      RowSplit(k % MonthsPerColumn, 0);
    }
  }

  lemma InYearBounds(d: Date)
    requires InYear(d)
    ensures 1 <= d.month <= 12 && 1 <= d.day <= 31
  {
  }

  /** A row splits into the block it lies in and its offset below the
      block's header row. */
  lemma RowSplit(k: int, offset: int)
    requires 0 <= k && 0 <= offset < RowsPerMonth
    ensures (RowsPerMonth * k + offset) / RowsPerMonth == k
    ensures (RowsPerMonth * k + offset) % RowsPerMonth == offset
  {
  }

  /** Counting from a Monday, there is one Monday per started week. */
  lemma {:induction false} MondaysFromMonday(lo: int, hi: int)
    requires lo % 7 == 0 && lo <= hi
    ensures MondaysBetween(lo, hi) == (hi - lo) / 7 + 1
    decreases hi - lo
  {
    if hi > lo {
      MondaysFromMonday(lo, hi - 1);
      MondaysStep(lo, hi);
      WeekStep(lo, hi);
    }
  }

  /** One more day starts a new week exactly on a Monday. */
  lemma WeekStep(lo: int, hi: int)
    requires lo % 7 == 0 && lo < hi
    ensures (hi - lo) / 7 == (hi - 1 - lo) / 7 + (if hi % 7 == 0 then 1 else 0)
  {
    var x := hi - lo;
    assert (hi % 7 == 0) == (x % 7 == 0);
    assert x == 7 * (x / 7) + x % 7;
    assert x - 1 == 7 * ((x - 1) / 7) + (x - 1) % 7;
  }

  /** The shading alternates by week: the first week of 2024 (Monday the
      1st to Sunday the 7th) is shaded, the second is not, and so on. */
  lemma ShadedWeeks(d: Date)
    requires InYear(d)
    ensures Shaded(d) <==> ((DayNumber(d) - DayNumber(FirstDay)) / 7) % 2 == 0
  {
    FirstOf2024IsMonday();
    DayNumberInYear(d);
    var lo, hi := DayNumber(FirstDay), DayNumber(d);
    MondaysFromMonday(lo, hi);
    SuccParity((hi - lo) / 7);
  }

  lemma SuccParity(q: int)
    ensures (q + 1) % 2 == 1 <==> q % 2 == 0
  {
  }

  /** The shade changes from one day to the next exactly when the next day
      is a Monday. */
  lemma ShadeFlipsOnMonday(d: Date, e: Date)
    requires InYear(d) && InYear(e) && DayNumber(e) == DayNumber(d) + 1
    ensures Shaded(e) <==> (Shaded(d) != IsMonday(e))
  {
    DayNumberInYear(d);
    MondaysParityStep(DayNumber(FirstDay), DayNumber(d));
  }

  /** 2024 is a leap year: February 29 gets a cell; the 30th of February
      and the 31st of April do not, their rows staying blank. */
  lemma LeapDayLaidOut()
    ensures InYear(Date(2024, 2, 29))
    ensures !InYear(Date(2024, 2, 30)) && !InYear(Date(2024, 4, 31))
  {
  }

  /** A date of 2024 is on or after the first of the year. */
  lemma DayNumberInYear(d: Date)
    requires InYear(d)
    ensures DayNumber(FirstDay) <= DayNumber(d)
  {
    DaysBeforeMonthNonNegative(d.month);
  }

  function Min(a: int, b: int): int {
    if a < b then a else b
  }
}
