/** The dashboard calendar: the month grid (blank cells for the days before the first,
    then one cell per day), the events listed in each cell, the today marker and the
    status colours. */
module Calendar {
  import opened Types
  import opened Seqs
  import opened Text
  import opened Dates

  /** One grid cell: blank cells have no day and no date. `date` is the
      `toISOString().slice(0, 10)` of the cell's `Date.UTC(year, month, day)`, the
      "YYYY-MM-DD" the page compares with today and with the events. */
  datatype DayCell = DayCell(key: string, day: Option<int>, isCurrentMonth: bool, date: Option<string>)

  /** The blank cell `prev-i`. */
  function BlankCell(i: nat): DayCell
  {
    DayCell("prev-" + NatToString(i), None, false, None)
  }

  /** The cell of day `d`, keyed by the full ISO timestamp of that day's UTC midnight. */
  function DayCellOf(ym: YearMonth, d: int): DayCell
    requires ym.Valid() && 1 <= d <= 31
  {
    DayCell(IsoTimestampDate(ym.year, ym.month, d) + "T00:00:00.000Z", Some(d), true, Some(IsoDate(ym.year, ym.month, d)))
  }

  /** `firstDayOfMonth.getDay()`. */
  function StartDayOfWeek(ym: YearMonth): (r: int)
    requires ym.Valid()
    ensures 0 <= r <= 6
  {
    Weekday(ym.year, ym.month, 1)
  }

  /** The blank cells `prev-0` .. `prev-(n-1)`, pushed in order. */
  function Blanks(n: nat): (r: seq<DayCell>)
    ensures |r| == n
  {
    if n == 0 then [] else Blanks(n - 1) + [BlankCell(n - 1)]
  }

  /** `start` blank cells followed by the cells of days 1..dim of month `ym`, pushed in order. */
  function Cells(ym: YearMonth, start: nat, dim: nat): (r: seq<DayCell>)
    requires ym.Valid() && dim <= 31
    ensures |r| == start + dim
  {
    if dim == 0 then Blanks(start) else Cells(ym, start, dim - 1) + [DayCellOf(ym, dim)]
  }

  lemma {:induction false} BlanksAt(n: nat, i: int)
    requires 0 <= i < n
    ensures Blanks(n)[i] == BlankCell(i)
  {
    if i < n - 1 {
      BlanksAt(n - 1, i);
    }
  }

  /** Position i of the pushed cells: blank `prev-i` before `start`, day i - start + 1 after. */
  lemma {:induction false} CellsAt(ym: YearMonth, start: nat, dim: nat, i: int)
    requires ym.Valid() && dim <= 31 && 0 <= i < start + dim
    ensures i < start ==> Cells(ym, start, dim)[i] == BlankCell(i)
    ensures i >= start ==> Cells(ym, start, dim)[i] == DayCellOf(ym, i - start + 1)
  {
    if dim == 0 {
      BlanksAt(start, i);
    } else if i < start + dim - 1 {
      CellsAt(ym, start, dim - 1, i);
    }
  }

  /** The grid of month `ym`: StartDayOfWeek blanks, then days 1..DaysInMonth in order.
      It always fits in six weeks. */
  function Grid(ym: YearMonth): (r: seq<DayCell>)
    requires ym.Valid()
    ensures |r| == StartDayOfWeek(ym) + DaysInMonth(ym.year, ym.month) <= 42
  {
    Cells(ym, StartDayOfWeek(ym), DaysInMonth(ym.year, ym.month))
  }

  /** `generateDays`: reads the weekday of the first and the month length, then pushes
      the cells. */
  method GenerateDays(ym: YearMonth) returns (days: seq<DayCell>)
    requires ym.Valid()
    ensures days == Grid(ym)
  {
    var daysInMonth := DaysInMonth(ym.year, ym.month);
    var startDayOfWeek := StartDayOfWeek(ym);
    days := PushCells(ym, startDayOfWeek, daysInMonth);
  }

  /** The two `push` loops of `generateDays`: the blanks, then one cell per day. */
  method PushCells(ym: YearMonth, startDayOfWeek: nat, daysInMonth: nat) returns (days: seq<DayCell>)
    requires ym.Valid() && daysInMonth <= 31
    ensures days == Cells(ym, startDayOfWeek, daysInMonth)
  {
    days := [];
    var i := 0;
    while i < startDayOfWeek
      invariant 0 <= i <= startDayOfWeek
      invariant days == Blanks(i)
    {
      days := days + [BlankCell(i)];
      i := i + 1;
    }
    var d := 1;
    while d <= daysInMonth
      invariant 1 <= d <= daysInMonth + 1
      invariant days == Cells(ym, startDayOfWeek, d - 1)
    {
      days := days + [DayCellOf(ym, d)];
      d := d + 1;
    }
  }

  /** Blank cells lead the grid, are not of the month and carry no date; day cells are
      numbered 1.. in order and belong to the month. */
  lemma CellShape(ym: YearMonth, start: nat, dim: nat, i: int)
    requires ym.Valid() && dim <= 31 && 0 <= i < start + dim
    ensures var c := Cells(ym, start, dim)[i];
      && (i < start <==> c.day.None?)
      && (c.day.None? ==> !c.isCurrentMonth && c.date.None?)
      && (c.day.Some? ==> c.isCurrentMonth && c.day.value == i - start + 1 && c.date.Some?)
  {
    CellsAt(ym, start, dim, i);
  }

  /** Two days of a month in years 0..9999 have different ISO dates: the date ends in the
      day's two digits. */
  lemma IsoDateInjective(ym: YearMonth, d1: int, d2: int)
    requires ym.Valid() && 0 <= ym.year <= 9999 && 1 <= d1 <= 31 && 1 <= d2 <= 31
    requires IsoDate(ym.year, ym.month, d1) == IsoDate(ym.year, ym.month, d2)
    ensures d1 == d2
  {
    IsoDateDay(ym.year, ym.month, d1);
    IsoDateDay(ym.year, ym.month, d2);
  }

  /** Two cells of a grid of years 0..9999 never share a date. */
  lemma DatesDistinct(ym: YearMonth, start: nat, dim: nat, i: int, j: int)
    requires ym.Valid() && 0 <= ym.year <= 9999 && dim <= 31 && 0 <= i < start + dim && 0 <= j < start + dim
    requires Cells(ym, start, dim)[i].date.Some?
    requires Cells(ym, start, dim)[i].date == Cells(ym, start, dim)[j].date
    ensures i == j
  {
    CellsAt(ym, start, dim, i);
    CellsAt(ym, start, dim, j);
    if i < start || j < start {
      assert false;
    } else {
      IsoDateInjective(ym, i - start + 1, j - start + 1);
    }
  }

  /** `dateUTCString === todayUTCString`: blank cells are never today. */
  predicate IsToday(cell: DayCell, today: string)
  {
    cell.date == Some(today)
  }

  /** At most one cell of a grid of years 0..9999 is marked as today. */
  lemma TodayAtMostOnce(ym: YearMonth, start: nat, dim: nat, today: string, i: int, j: int)
    requires ym.Valid() && 0 <= ym.year <= 9999 && dim <= 31 && 0 <= i < start + dim && 0 <= j < start + dim
    requires IsToday(Cells(ym, start, dim)[i], today) && IsToday(Cells(ym, start, dim)[j], today)
    ensures i == j
  {
    DatesDistinct(ym, start, dim, i, j);
  }

  function OnDate(date: string): Budget -> bool
  {
    (e: Budget) => e.eventDate == date
  }

  /** The events listed in a cell: those dated on the cell's day, in input order; none in a
      blank cell. */
  function EventsOn(events: seq<Budget>, cell: DayCell): (r: seq<Budget>)
    ensures cell.date.None? ==> r == []
    ensures forall e :: e in r <==> cell.date.Some? && e in events && e.eventDate == cell.date.value
    ensures Subsequence(r, events)
  {
    match cell.date
    case None => []
    case Some(date) =>
      forall e ensures e in Filter(events, OnDate(date)) <==> e in events && e.eventDate == date {
        FilterMembership(events, OnDate(date), e);
      }
      FilterIsSubsequence(events, OnDate(date));
      Filter(events, OnDate(date))
  }

  /** An event shows in at most one cell of a grid of years 0..9999. */
  lemma EventInOneCell(events: seq<Budget>, ym: YearMonth, start: nat, dim: nat, e: Budget, i: int, j: int)
    requires ym.Valid() && 0 <= ym.year <= 9999 && dim <= 31 && 0 <= i < start + dim && 0 <= j < start + dim
    requires e in EventsOn(events, Cells(ym, start, dim)[i]) && e in EventsOn(events, Cells(ym, start, dim)[j])
    ensures i == j
  {
    DatesDistinct(ym, start, dim, i, j);
  }

  /** The next month starts on this month's first weekday advanced by its length. */
  lemma NextStartDayOfWeek(ym: YearMonth)
    requires ym.Valid()
    ensures StartDayOfWeek(AddMonths(ym, 1)) == (StartDayOfWeek(ym) + DaysInMonth(ym.year, ym.month)) % 7
  {
    WeekdayOfNextMonth(ym.year, ym.month);
  }

  /** The next month's grid starts on the weekday where this month's grid stops. */
  lemma NextGridContinues(ym: YearMonth)
    requires ym.Valid()
    ensures StartDayOfWeek(AddMonths(ym, 1)) == |Grid(ym)| % 7
  {
    var n := |Grid(ym)|;
    assert n == StartDayOfWeek(ym) + DaysInMonth(ym.year, ym.month);
    NextStartDayOfWeek(ym);
  }

  /** `getStatusColor` of the calendar's event chips. */
  function StatusColor(status: BudgetStatus): (r: string)
    ensures status == Draft <==> r == "bg-gray-400"
  {
    match status
    case Completed => "bg-green-500"
    case Scheduled => "bg-blue-500"
    case Declined => "bg-red-500"
    case Draft => "bg-gray-400"
  }

  /** Each status has its own chip colour. */
  lemma StatusColorsDistinct(s1: BudgetStatus, s2: BudgetStatus)
    requires s1 != s2
    ensures StatusColor(s1) != StatusColor(s2)
  {
  }
}
