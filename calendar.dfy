/** The calendar helpers: `generateMonths`, which lays out 36 consecutive
    months as grids of whole weeks padded with the neighbouring months' days,
    and `getDateRange`, which turns a "Month YYYY" string into the first and
    last instant of that month in UTC. */
module Calendar {
  import opened Wrappers
  import opened Text

  // ---------------------------------------------------------------------
  // Gregorian arithmetic (months are 0-based, as in JavaScript)

  predicate IsLeapYear(y: int)
  {
    (y % 4 == 0 && y % 100 != 0) || y % 400 == 0
  }

  /** The year `Date.UTC` and the `new Date(year, month, day)` constructor
      read: 0 to 99 stand for 1900 to 1999. */
  function UtcYear(y: int): (year: int)
    ensures 0 <= y <= 99 ==> year == 1900 + y
    ensures !(0 <= y <= 99) ==> year == y
  {
    if 0 <= y <= 99 then 1900 + y else y
  }

  /** The length of month `m` of year `y` in the Gregorian calendar; the
      grid's `new Date(y, m + 1, 0).getDate()` is `DaysInMonth(UtcYear(y), m)`. */
  function DaysInMonth(y: int, m: int): (n: int)
    requires 0 <= m <= 11
    ensures 28 <= n <= 31
    ensures m == 1 ==> (n == 29 <==> IsLeapYear(y))
  {
    if m == 1 then (if IsLeapYear(y) then 29 else 28)
    else if m == 3 || m == 5 || m == 8 || m == 10 then 30
    else 31
  }

  /** `getDay()`: the day of the week, 0 = Sunday (Sakamoto's method on the
      proleptic Gregorian calendar; `/` here rounds down). */
  function Weekday(y: int, m: int, d: int): (w: int)
    requires 0 <= m <= 11
    ensures 0 <= w <= 6
  {
    var offsets := [0, 3, 2, 5, 0, 3, 5, 1, 4, 6, 2, 4];
    var yy := if m < 2 then y - 1 else y;
    (yy + yy / 4 - yy / 100 + yy / 400 + offsets[m] + d) % 7
  }

  /** Known days: 1 January 2024 was a Monday, 1 February 2025 a Saturday,
      1 September 2024 a Sunday. */
  lemma WeekdayExamples()
    ensures Weekday(2024, 0, 1) == 1
    ensures Weekday(2025, 1, 1) == 6
    ensures Weekday(2024, 8, 1) == 0
  {
  }

  /** `setMonth(monthIndex + i, 1)`: the month `i` months later. */
  function AddMonths(year: int, monthIndex: int, i: int): (ym: (int, int))
    requires 0 <= monthIndex <= 11
    ensures 0 <= ym.1 <= 11
    ensures 12 * ym.0 + ym.1 == 12 * year + monthIndex + i
  {
    (year + (monthIndex + i) / 12, (monthIndex + i) % 12)
  }

  /** The month before, as the leading filler dates it. */
  function PrevMonth(y: int, m: int): (ym: (int, int))
    requires 0 <= m <= 11
    ensures 0 <= ym.1 <= 11
    ensures 12 * ym.0 + ym.1 == 12 * y + m - 1
  {
    (y - (if m == 0 then 1 else 0), (m + 11) % 12)
  }

  /** The month after, as the trailing filler dates it. */
  function NextMonth(y: int, m: int): (ym: (int, int))
    requires 0 <= m <= 11
    ensures 0 <= ym.1 <= 11
    ensures 12 * ym.0 + ym.1 == 12 * y + m + 1
  {
    (y + (if m == 11 then 1 else 0), (m + 1) % 12)
  }

  /** Consecutive months of the grid are one month apart, across years. */
  lemma ConsecutiveMonths(year: int, monthIndex: int, i: int)
    requires 0 <= monthIndex <= 11
    ensures AddMonths(year, monthIndex, i + 1) == NextMonth(AddMonths(year, monthIndex, i).0, AddMonths(year, monthIndex, i).1)
    ensures AddMonths(year, monthIndex, i) == PrevMonth(AddMonths(year, monthIndex, i + 1).0, AddMonths(year, monthIndex, i + 1).1)
  {
    var a := AddMonths(year, monthIndex, i);
    var b := AddMonths(year, monthIndex, i + 1);
    var n := NextMonth(a.0, a.1);
    var p := PrevMonth(b.0, b.1);
    SameMonthNumber(b.0, b.1, n.0, n.1);
    SameMonthNumber(a.0, a.1, p.0, p.1);
  }

  lemma SameMonthNumber(y1: int, m1: int, y2: int, m2: int)
    requires 0 <= m1 <= 11 && 0 <= m2 <= 11
    requires 12 * y1 + m1 == 12 * y2 + m2
    ensures y1 == y2 && m1 == m2
  {
    var d := y1 - y2;
    assert 12 * d == m2 - m1;
  }

  // ---------------------------------------------------------------------
  // One month's cells

  datatype Cell = Cell(day: int, isCurrentMonth: bool, dateString: string)

  /** The inner `formatDate(year, month, day)` with a 0-based month. */
  function DateString(y: int, m: int, d: nat): string
    requires 0 <= m <= 11
  {
    DateText(y, m + 1, d)
  }

  /** The previous month's days that open the first week. */
  function LeadingDays(y: int, m: int): (cells: seq<Cell>)
    requires 0 <= m <= 11
    ensures |cells| == Weekday(y, m, 1)
  {
    var firstDay := Weekday(y, m, 1);
    var prev := PrevMonth(y, m);
    var prevMonthDays := DaysInMonth(UtcYear(prev.0), prev.1);
    seq(firstDay, i requires 0 <= i < firstDay =>
      var day := prevMonthDays - firstDay + i + 1;
      Cell(day, false, DateString(prev.0, prev.1, day)))
  }

  /** The leading cells are the previous month's last days, in order,
      none of them current and each dated in that month. */
  lemma LeadingDaysContent(y: int, m: int)
    requires 0 <= m <= 11
    ensures var cells := LeadingDays(y, m);
      var prev := PrevMonth(y, m);
      (forall i :: 0 <= i < |cells| ==>
         !cells[i].isCurrentMonth && 1 <= cells[i].day <= DaysInMonth(UtcYear(prev.0), prev.1) &&
         cells[i].dateString == DateString(prev.0, prev.1, cells[i].day)) &&
      (forall i :: 0 < i < |cells| ==> cells[i].day == cells[i - 1].day + 1) &&
      (|cells| > 0 ==> cells[|cells| - 1].day == DaysInMonth(UtcYear(prev.0), prev.1))
  {
  }

  /** The month's own days, 1 to its length. */
  function CurrentDays(y: int, m: int): (cells: seq<Cell>)
    requires 0 <= m <= 11
    ensures |cells| == DaysInMonth(UtcYear(y), m)
  {
    var n := DaysInMonth(UtcYear(y), m);
    seq(n, i requires 0 <= i < n => Cell(i + 1, true, DateString(y, m, i + 1)))
  }

  /** A grid in year 0 takes its month lengths from 1900: February has 28
      cells although year 0 is a Gregorian leap year, and March's leading
      filler ends on the 28th. */
  lemma TwoDigitYearMonthLengths()
    ensures IsLeapYear(0) && |CurrentDays(0, 1)| == 28
    ensures |CurrentDays(2000, 1)| == 29
    ensures |LeadingDays(0, 2)| == 3 && LeadingDays(0, 2)[2].day == 28
  {
    LeadingDaysContent(0, 2);
  }

  /** The month's cells count 1, 2, ..., are all current and dated in the
      month. */
  lemma CurrentDaysContent(y: int, m: int)
    requires 0 <= m <= 11
    ensures var cells := CurrentDays(y, m);
      forall i :: 0 <= i < |cells| ==>
        cells[i].day == i + 1 && cells[i].isCurrentMonth && cells[i].dateString == DateString(y, m, i + 1)
  {
  }

  /** How many days of the next month close the last week. */
  function TrailingCount(total: nat): (n: nat)
    ensures n <= 6
    ensures (total + n) % 7 == 0
    ensures total % 7 == 0 <==> n == 0
  {
    (7 - total % 7) % 7
  }

  /** The next month's days 1 to n. */
  function TrailingDays(y: int, m: int, n: nat): (cells: seq<Cell>)
    requires 0 <= m <= 11
    ensures |cells| == n
  {
    var next := NextMonth(y, m);
    seq(n, i requires 0 <= i < n => Cell(i + 1, false, DateString(next.0, next.1, i + 1)))
  }

  /** The trailing cells count 1, 2, ..., none current, each dated in the
      next month. */
  lemma TrailingDaysContent(y: int, m: int, n: nat)
    requires 0 <= m <= 11
    ensures var cells := TrailingDays(y, m, n);
      var next := NextMonth(y, m);
      forall i :: 0 <= i < n ==>
        cells[i].day == i + 1 && !cells[i].isCurrentMonth && cells[i].dateString == DateString(next.0, next.1, i + 1)
  {
  }

  /** `allDays`: leading filler, the month, trailing filler. */
  function MonthCells(y: int, m: int): (cells: seq<Cell>)
    requires 0 <= m <= 11
    ensures |cells| % 7 == 0
  {
    var prevDays := LeadingDays(y, m);
    var currentDays := CurrentDays(y, m);
    prevDays + currentDays + TrailingDays(y, m, TrailingCount(|prevDays| + |currentDays|))
  }

  /** The month's cells fill whole weeks, four to six of them, and the cells
      of the month itself are exactly those after the leading filler. */
  lemma MonthCellsShape(y: int, m: int)
    requires 0 <= m <= 11
    ensures var cells := MonthCells(y, m);
      var lead := Weekday(y, m, 1);
      |cells| % 7 == 0 && 28 <= |cells| <= 42 &&
      (forall i :: 0 <= i < |cells| ==> (cells[i].isCurrentMonth <==> lead <= i < lead + DaysInMonth(UtcYear(y), m))) &&
      (forall i :: lead <= i < lead + DaysInMonth(UtcYear(y), m) ==> cells[i].day == i - lead + 1)
  {
    MonthCellsLength(y, m);
    MonthCellsCurrent(y, m);
    MonthCellsDays(y, m);
  }

  lemma MonthCellsLength(y: int, m: int)
    requires 0 <= m <= 11
    ensures |MonthCells(y, m)| % 7 == 0 && 28 <= |MonthCells(y, m)| <= 42
  {
    var w, d := |LeadingDays(y, m)|, |CurrentDays(y, m)|;
    var t := w + d;
    var n := TrailingCount(t);
    assert |MonthCells(y, m)| == t + n;
    WholeWeeks(t, n);
  }

  /** 28 to 37 cells completed to whole weeks make 28 to 42. */
  lemma WholeWeeks(t: int, n: int)
    requires 28 <= t <= 37 && 0 <= n <= 6 && (t + n) % 7 == 0
    ensures 28 <= t + n <= 42
  {
  }

  lemma MonthCellsCurrent(y: int, m: int)
    requires 0 <= m <= 11
    ensures var cells := MonthCells(y, m);
      var lead := Weekday(y, m, 1);
      forall i :: 0 <= i < |cells| ==> (cells[i].isCurrentMonth <==> lead <= i < lead + DaysInMonth(UtcYear(y), m))
  {
    var prevDays := LeadingDays(y, m);
    var currentDays := CurrentDays(y, m);
    var t := |prevDays| + |currentDays|;
    var nextDays := TrailingDays(y, m, TrailingCount(t));
    var cells := MonthCells(y, m);
    assert cells == prevDays + currentDays + nextDays;
    forall i | 0 <= i < |cells|
      ensures cells[i].isCurrentMonth <==> |prevDays| <= i < t
    {
      if i < |prevDays| {
        assert cells[i] == prevDays[i];
      } else if i < t {
        assert cells[i] == currentDays[i - |prevDays|];
      } else {
        assert cells[i] == nextDays[i - t];
      }
    }
  }

  lemma MonthCellsDays(y: int, m: int)
    requires 0 <= m <= 11
    ensures var cells := MonthCells(y, m);
      var lead := Weekday(y, m, 1);
      forall i :: lead <= i < lead + DaysInMonth(UtcYear(y), m) ==> i < |cells| && cells[i].day == i - lead + 1
  {
    var prevDays := LeadingDays(y, m);
    var currentDays := CurrentDays(y, m);
    var cells := MonthCells(y, m);
    CurrentDaysContent(y, m);
    forall i | |prevDays| <= i < |prevDays| + |currentDays|
      ensures i < |cells| && cells[i].day == i - |prevDays| + 1
    {
      assert cells[i] == currentDays[i - |prevDays|];
    }
  }

  // ---------------------------------------------------------------------
  // Splitting into weeks

  /** `allDays.slice(i, i + 7)` for i = 0, 7, 14, ... */
  function Weeks(cells: seq<Cell>): (weeks: seq<seq<Cell>>)
    ensures |weeks| == (|cells| + 6) / 7
    decreases |cells|
  {
    if |cells| == 0 then []
    else if |cells| <= 7 then [cells]
    else [cells[..7]] + Weeks(cells[7..])
  }

  function Flatten(weeks: seq<seq<Cell>>): seq<Cell>
  {
    if weeks == [] then [] else weeks[0] + Flatten(weeks[1..])
  }

  /** The weeks, put back together, are the cells; when the cells fill whole
      weeks every week has exactly seven days. */
  lemma WeeksProperties(cells: seq<Cell>)
    ensures Flatten(Weeks(cells)) == cells
    ensures |cells| % 7 == 0 ==> forall w :: 0 <= w < |Weeks(cells)| ==> |Weeks(cells)[w]| == 7
    ensures |cells| % 7 == 0 ==> |Weeks(cells)| == |cells| / 7
  {
    WeeksFlatten(cells);
    if |cells| % 7 == 0 {
      WeeksFull(cells);
    }
  }

  lemma {:induction false} WeeksFlatten(cells: seq<Cell>)
    ensures Flatten(Weeks(cells)) == cells
    decreases |cells|
  {
    if |cells| > 7 {
      WeeksFlatten(cells[7..]);
      assert cells[..7] + cells[7..] == cells;
      assert Weeks(cells)[1..] == Weeks(cells[7..]);
    }
  }

  lemma {:induction false} WeeksFull(cells: seq<Cell>)
    requires |cells| % 7 == 0
    ensures forall w :: 0 <= w < |Weeks(cells)| ==> |Weeks(cells)[w]| == 7
    ensures |Weeks(cells)| == |cells| / 7
    decreases |cells|
  {
    if |cells| > 7 {
      WeeksFull(cells[7..]);
      assert Weeks(cells)[1..] == Weeks(cells[7..]);
    }
  }

  /** The grid of any month has four to six full weeks that together are
      the month's cells. */
  lemma MonthWeeks(y: int, m: int)
    requires 0 <= m <= 11
    ensures var weeks := Weeks(MonthCells(y, m));
      Flatten(weeks) == MonthCells(y, m) && 4 <= |weeks| <= 6 &&
      forall w :: 0 <= w < |weeks| ==> |weeks[w]| == 7
  {
    MonthCellsShape(y, m);
    WeeksProperties(MonthCells(y, m));
  }

  /** The week-splitting loop of `generateMonths`. */
  method SplitWeeks(allDays: seq<Cell>) returns (weeks: seq<seq<Cell>>)
    ensures weeks == Weeks(allDays)
  {
    weeks := [];
    var i := 0;
    while i < |allDays|
      invariant 0 <= i <= |allDays|
      invariant weeks + Weeks(allDays[i..]) == Weeks(allDays)
      decreases |allDays| - i
    {
      var end := if i + 7 < |allDays| then i + 7 else |allDays|;
      var rest := allDays[i..];
      if |rest| > 7 {
        assert rest[..7] == allDays[i..end];
        assert rest[7..] == allDays[end..];
        assert Weeks(rest) == [allDays[i..end]] + Weeks(allDays[end..]);
      } else {
        assert rest == allDays[i..end];
        assert allDays[end..] == [];
      }
      weeks := weeks + [allDays[i..end]];
      i := end;
    }
    assert allDays[i..] == [];
  }

  // ---------------------------------------------------------------------
  // generateMonths

  /** One month of the result; `monthName` comes from the locale. */
  datatype MonthGrid = MonthGrid(year: int, month: int, weeks: seq<seq<Cell>>, monthName: string)

  /** The i-th month of the result: the month i months after the start,
      its cells split into weeks, and its name. */
  function MonthAfter(startYear: int, startMonth: int, monthName: (int, int) -> string, i: int): MonthGrid
    requires 0 <= startMonth <= 11
  {
    var ym := AddMonths(startYear, startMonth, i);
    MonthGrid(ym.0, ym.1, Weeks(MonthCells(ym.0, ym.1)), monthName(ym.0, ym.1))
  }

  /** f(0), f(1), ..., f(n - 1). */
  function Tabulate<T>(f: int -> T, n: nat): (s: seq<T>)
    ensures |s| == n
  {
    if n == 0 then [] else Tabulate(f, n - 1) + [f(n - 1)]
  }

  lemma {:induction false} TabulateIndex<T>(f: int -> T, n: nat)
    ensures forall i :: 0 <= i < n ==> Tabulate(f, n)[i] == f(i)
  {
    if n > 0 {
      TabulateIndex(f, n - 1);
    }
  }

  /** `generateMonths(startDate)`, with the start date's local year and
      month given and the locale's month names as a parameter. */
  method GenerateMonths(startYear: int, startMonth: int, monthName: (int, int) -> string)
    returns (months: seq<MonthGrid>)
    requires 0 <= startMonth <= 11
    ensures |months| == 36
    ensures forall i :: 0 <= i < 36 ==>
      var ym := AddMonths(startYear, startMonth, i);
      months[i] == MonthGrid(ym.0, ym.1, Weeks(MonthCells(ym.0, ym.1)), monthName(ym.0, ym.1))
  {
    ghost var expected := j => MonthAfter(startYear, startMonth, monthName, j);
    months := [];
    for i := 0 to 36
      invariant months == Tabulate(expected, i)
    {
      var ym := AddMonths(startYear, startMonth, i);
      var allDays := MonthCells(ym.0, ym.1);
      var weeks := SplitWeeks(allDays);
      months := months + [MonthGrid(ym.0, ym.1, weeks, monthName(ym.0, ym.1))];
    }
    TabulateIndex(expected, 36);
  }

  // ---------------------------------------------------------------------
  // getDateRange

  /** A UTC date and time with a 1-based month. */
  datatype DateTime = DateTime(year: int, month: int, day: int, hour: int, minute: int, second: int)

  /** What `getDateRange` yields: the month's bounds, the bounds as invalid
      dates (`new Date(NaN)`), or the error it throws. */
  datatype MonthBounds = Bounds(start: DateTime, end: DateTime) | InvalidDates | Throws(message: string)

  const FormatError: string := "Invalid month-year format. Use 'Month YYYY' (e.g., 'February 2025')."

  /** A 0-based month index, as `Date.prototype.getMonth` returns. */
  type MonthIndex = m: int | 0 <= m <= 11

  /** `Date.UTC(y, month - 1, 1, 0, 0, 0)` and `Date.UTC(y, month, 0, 23, 59, 59)`. */
  function MonthBoundsOf(y: int, month: int): (b: MonthBounds)
    requires 1 <= month <= 12
    ensures b.Bounds?
    ensures b.start == DateTime(UtcYear(y), month, 1, 0, 0, 0)
    ensures b.end == DateTime(UtcYear(y), month, DaysInMonth(UtcYear(y), month - 1), 23, 59, 59)
  {
    var year := UtcYear(y);
    Bounds(DateTime(year, month, 1, 0, 0, 0), DateTime(year, month, DaysInMonth(year, month - 1), 23, 59, 59))
  }

  /** The index of the first space, or -1. */
  function IndexOfSpace(s: string): (i: int)
    ensures -1 <= i < |s|
    ensures i >= 0 ==> s[i] == ' ' && ' ' !in s[..i]
    ensures i < 0 ==> ' ' !in s
  {
    if s == [] then -1
    else if s[0] == ' ' then 0
    else
      var j := IndexOfSpace(s[1..]);
      if j < 0 then -1
      else
        assert s[..j + 1] == [s[0]] + s[1..][..j];
        j + 1
  }

  /** `s.split(" ")[0]`. */
  function FirstField(s: string): (f: string)
    ensures ' ' !in f
  {
    var i := IndexOfSpace(s);
    if i < 0 then s else s[..i]
  }

  /** `s.split(" ")[1]`, absent when there is no space. */
  function SecondField(s: string): (f: Option<string>)
    ensures f.Some? <==> ' ' in s
  {
    var i := IndexOfSpace(s);
    if i < 0 then None else Some(FirstField(s[i + 1..]))
  }

  predicate IsWhitespace(c: char)
  {
    c == ' ' || c == '\t' || c == '\n' || c == '\r'
  }

  function TrimStart(s: string): (t: string)
    ensures |t| <= |s|
    ensures t == [] || !IsWhitespace(t[0])
  {
    if s != [] && IsWhitespace(s[0]) then TrimStart(s[1..]) else s
  }

  /** The longest prefix of decimal digits. */
  function LeadingDigits(s: string): (d: string)
    ensures AllDigits(d) && |d| <= |s| && d == s[..|d|]
    ensures |d| < |s| ==> !IsDigit(s[|d|])
  {
    if s != [] && IsDigit(s[0]) then
      var rest := LeadingDigits(s[1..]);
      assert [s[0]] + rest == s[..|rest| + 1];
      [s[0]] + rest
    else []
  }

  /** `parseInt(s, 10)`: leading whitespace, an optional sign and the digits
      that follow; no digits is NaN. */
  function ParseInt(s: string): Option<int>
  {
    var t := TrimStart(s);
    var negative := |t| > 0 && t[0] == '-';
    var body := if |t| > 0 && (t[0] == '-' || t[0] == '+') then t[1..] else t;
    var digits := LeadingDigits(body);
    if digits == [] then None
    else
      var value: int := DigitsValue(digits);
      Some(if negative then -value else value)
  }

  /** A string without a digit parses as NaN. */
  lemma ParseIntWithoutDigits(s: string)
    requires forall i :: 0 <= i < |s| ==> !IsDigit(s[i])
    ensures ParseInt(s).None?
  {
    var t := TrimStart(s);
    TrimStartIsSuffix(s);
    var body := if |t| > 0 && (t[0] == '-' || t[0] == '+') then t[1..] else t;
    if body != [] {
      assert body[0] == s[|s| - |body|];
    }
  }

  lemma {:induction false} TrimStartIsSuffix(s: string)
    ensures TrimStart(s) == s[|s| - |TrimStart(s)|..]
  {
    if s != [] && IsWhitespace(s[0]) {
      TrimStartIsSuffix(s[1..]);
    }
  }

  /** parseInt reads back what `String(n)` writes. */
  lemma ParseIntOfNat(n: nat)
    ensures ParseInt(NatToString(n)) == Some(n)
  {
    var s := NatToString(n);
    assert LeadingDigits(s) == s by {
      AllDigitsArePrefix(s);
    }
    NatToStringRoundTrip(n);
  }

  /** A minus sign in front of a number's decimal form reads as its negation. */
  lemma ParseIntOfNegative(n: nat)
    ensures ParseInt("-" + NatToString(n)) == Some(-(n as int))
  {
    var s := NatToString(n);
    var t := "-" + s;
    assert TrimStart(t) == t;
    assert t[1..] == s;
    assert LeadingDigits(s) == s by {
      AllDigitsArePrefix(s);
    }
    NatToStringRoundTrip(n);
  }

  lemma {:induction false} AllDigitsArePrefix(s: string)
    requires AllDigits(s)
    ensures LeadingDigits(s) == s
  {
    if s != [] {
      assert AllDigits(s[1..]);
      AllDigitsArePrefix(s[1..]);
    }
  }

  /** `getDateRange(monthYear)` as written: a month name the date parser
      does not know gives month NaN, which the range check lets through, so
      the result is a pair of invalid dates rather than the format error. */
  function GetDateRangeAsWritten(monthYear: Option<string>, nowYear: int, nowMonth: int,
                                 monthLookup: (string, int) -> Option<MonthIndex>): (b: MonthBounds)
    requires 1 <= nowMonth <= 12
    ensures monthYear.None? || monthYear == Some("") ==> b == MonthBoundsOf(nowYear, nowMonth)
  {
    if monthYear.Some? && monthYear.value != "" then
      var s := monthYear.value;
      var monthName := FirstField(s);
      var year := match SecondField(s) case Some(t) => ParseInt(t) case None => None;
      var month := match year
        case Some(y) => (match monthLookup(monthName, y) case Some(k) => Some(k as int + 1) case None => None)
        case None => None;
      if year.None? || (month.Some? && (month.value < 1 || month.value > 12)) then Throws(FormatError)
      else if month.None? then InvalidDates
      else MonthBoundsOf(year.value, month.value)
    else MonthBoundsOf(nowYear, nowMonth)
  }

  /** `getDateRange(monthYear)`, throwing the format error for an unknown
      month name as well as for a missing year. */
  function GetDateRange(monthYear: Option<string>, nowYear: int, nowMonth: int,
                        monthLookup: (string, int) -> Option<MonthIndex>): (b: MonthBounds)
    requires 1 <= nowMonth <= 12
    ensures !b.InvalidDates?
    ensures monthYear.None? || monthYear == Some("") ==> b == MonthBoundsOf(nowYear, nowMonth)
    ensures monthYear.Some? && monthYear.value != "" ==>
      var s := monthYear.value;
      var year := match SecondField(s) case Some(t) => ParseInt(t) case None => None;
      (b.Throws? <==> year.None? || monthLookup(FirstField(s), year.value).None?) &&
      (b.Throws? ==> b.message == FormatError) &&
      (b.Bounds? ==> b == MonthBoundsOf(year.value, monthLookup(FirstField(s), year.value).value as int + 1))
  {
    if monthYear.Some? && monthYear.value != "" then
      var s := monthYear.value;
      var monthName := FirstField(s);
      var year := match SecondField(s) case Some(t) => ParseInt(t) case None => None;
      match year
      case None => Throws(FormatError)
      case Some(y) =>
        match monthLookup(monthName, y)
        case Some(k) => MonthBoundsOf(y, k as int + 1)
        case None => Throws(FormatError)
    else MonthBoundsOf(nowYear, nowMonth)
  }

  /** The bounds are midnight of the 1st and 23:59:59 of the month's last
      day, in the same month. */
  lemma DateRangeBounds(monthYear: Option<string>, nowYear: int, nowMonth: int,
                        monthLookup: (string, int) -> Option<MonthIndex>)
    requires 1 <= nowMonth <= 12
    ensures var b := GetDateRange(monthYear, nowYear, nowMonth, monthLookup);
      b.Bounds? ==>
        1 <= b.start.month <= 12 && b.start.day == 1 &&
        b.start.hour == 0 && b.start.minute == 0 && b.start.second == 0 &&
        b.end.year == b.start.year && b.end.month == b.start.month &&
        b.end.day == DaysInMonth(b.start.year, b.start.month - 1) &&
        b.end.hour == 23 && b.end.minute == 59 && b.end.second == 59
  {
  }

  /** "Month YYYY" with a known month name and a year of 100 or more gives
      that month of that year (years below 100 are read as 1900 onwards). */
  lemma DateRangeOfMonthYear(name: string, monthIdx: MonthIndex, year: nat, nowYear: int, nowMonth: int,
                             monthLookup: (string, int) -> Option<MonthIndex>)
    requires 1 <= nowMonth <= 12
    requires ' ' !in name && monthLookup(name, year) == Some(monthIdx) && 100 <= year
    ensures GetDateRange(Some(name + " " + NatToString(year)), nowYear, nowMonth, monthLookup) ==
      Bounds(DateTime(year, monthIdx + 1, 1, 0, 0, 0),
             DateTime(year, monthIdx + 1, DaysInMonth(year, monthIdx), 23, 59, 59))
  {
    MonthYearFields(name, year);
  }

  lemma {:induction false} IndexOfSpaceIsFirst(s: string, i: int)
    requires 0 <= i < |s| && s[i] == ' ' && ' ' !in s[..i]
    ensures IndexOfSpace(s) == i
  {
    if i > 0 {
      assert s[0] == s[..i][0];
      assert s[1..][..i - 1] == s[1..i];
      assert forall c :: c in s[1..i] ==> c in s[..i];
      IndexOfSpaceIsFirst(s[1..], i - 1);
    }
  }

  /** The two fields of "name digits" read back as the name and the number. */
  lemma MonthYearFields(name: string, year: nat)
    requires ' ' !in name
    ensures FirstField(name + " " + NatToString(year)) == name
    ensures SecondField(name + " " + NatToString(year)) == Some(NatToString(year))
    ensures ParseInt(NatToString(year)) == Some(year)
  {
    var digits := NatToString(year);
    var s := name + " " + digits;
    assert ' ' !in digits by {
      assert AllDigits(digits);
    }
    assert s[..|name|] == name;
    IndexOfSpaceIsFirst(s, |name|);
    assert s[|name| + 1..] == digits;
    ParseIntOfNat(year);
  }

  /** The two agree except on an unknown month name with a readable year,
      where the code as written returns invalid dates instead of throwing. */
  lemma AsWrittenDiffersOnlyOnUnknownMonth(monthYear: Option<string>, nowYear: int, nowMonth: int,
                                           monthLookup: (string, int) -> Option<MonthIndex>)
    requires 1 <= nowMonth <= 12
    ensures var written := GetDateRangeAsWritten(monthYear, nowYear, nowMonth, monthLookup);
      var intended := GetDateRange(monthYear, nowYear, nowMonth, monthLookup);
      written != intended <==> written.InvalidDates?
    ensures var written := GetDateRangeAsWritten(monthYear, nowYear, nowMonth, monthLookup);
      written.InvalidDates? ==> GetDateRange(monthYear, nowYear, nowMonth, monthLookup) == Throws(FormatError)
  {
  }

  /** A concrete case: with a date parser that cannot read "Foo 1, 2025",
      "Foo 2025" yields invalid dates instead of the format error. */
  lemma UnknownMonthExample(nowYear: int, nowMonth: int, monthLookup: (string, int) -> Option<MonthIndex>)
    requires 1 <= nowMonth <= 12
    requires monthLookup("Foo", 2025).None?
    ensures GetDateRangeAsWritten(Some("Foo 2025"), nowYear, nowMonth, monthLookup) == InvalidDates
    ensures GetDateRange(Some("Foo 2025"), nowYear, nowMonth, monthLookup) == Throws(FormatError)
  {
    UnknownMonthAsWritten(nowYear, nowMonth, monthLookup);
    AsWrittenDiffersOnlyOnUnknownMonth(Some("Foo 2025"), nowYear, nowMonth, monthLookup);
  }

  lemma UnknownMonthAsWritten(nowYear: int, nowMonth: int, monthLookup: (string, int) -> Option<MonthIndex>)
    requires 1 <= nowMonth <= 12
    requires monthLookup("Foo", 2025).None?
    ensures GetDateRangeAsWritten(Some("Foo 2025"), nowYear, nowMonth, monthLookup) == InvalidDates
  {
    assert NatToString(2025) == "2025";
    assert "Foo 2025" == "Foo" + " " + NatToString(2025);
    UnknownNameAsWritten("Foo", 2025, nowYear, nowMonth, monthLookup);
  }

  /** A name the lookup does not know, followed by a readable year, gives
      invalid dates in the code as written. */
  lemma UnknownNameAsWritten(name: string, year: nat, nowYear: int, nowMonth: int,
                             monthLookup: (string, int) -> Option<MonthIndex>)
    requires 1 <= nowMonth <= 12
    requires ' ' !in name
    requires monthLookup(name, year).None?
    ensures GetDateRangeAsWritten(Some(name + " " + NatToString(year)), nowYear, nowMonth, monthLookup) == InvalidDates
  {
    MonthYearFields(name, year);
  }
}
