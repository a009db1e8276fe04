/**
 * The month grid of the calendar hook (src/hooks/useCalendar.ts, the `weeks` memo).
 *
 * Dates are day ordinals: consecutive integers for consecutive days, counted so
 * that a day's weekday (`getDay()`, 0 for Sunday) is its ordinal modulo 7. A month
 * is given by the ordinal of its first day and its length; the preceding month by
 * its length; "today" and the focused date (`currentDate`, at midnight) are ordinals.
 */
module Calendar {
  import opened Seqs

  /** Six weeks of seven days. */
  const TOTAL_CELLS: int := 42

  /** One cell of the grid. */
  datatype CalendarDay = CalendarDay(day: int, fullDate: int, isCurrentMonth: bool,
                                     isActiveWeek: bool, weekIndex: int, isToday: bool)

  /** The inputs of the memo: the displayed month, the month before it, today and the focused date. */
  datatype MonthView = MonthView(monthStart: int, daysInMonth: int, daysInPrevMonth: int, today: int, focus: int)

  /** Month lengths of the Gregorian calendar. */
  predicate ValidMonth(v: MonthView) {
    28 <= v.daysInMonth <= 31 && 28 <= v.daysInPrevMonth <= 31
  }

  /** `getDay()`: 0 for Sunday through 6 for Saturday. */
  function Weekday(date: int): (r: int)
    ensures 0 <= r < 7
  {
    date % 7
  }

  /** The number of leading cells taken from the previous month: the weekday of the 1st. */
  function FirstDayOfMonth(v: MonthView): int {
    Weekday(v.monthStart)
  }

  /** Whether `date` lies in the Sunday-to-Saturday week holding the focused date. */
  predicate InFocusWeek(v: MonthView, date: int) {
    var startOfWeek := v.focus - Weekday(v.focus);
    startOfWeek <= date <= startOfWeek + 6
  }

  /**
   * Cell `k` as the three push loops build it, before the active week is marked:
   * first the tail of the previous month, then the month itself, then the start of
   * the next month. Each cell's `weekIndex` is the memo's expression for its loop.
   */
  function Unmarked(v: MonthView, k: int): CalendarDay {
    var first := FirstDayOfMonth(v);
    var date := v.monthStart - first + k;
    if k < first then
      CalendarDay(v.daysInPrevMonth - first + 1 + k, date, false, false, k / 7, date == v.today)
    else if k < first + v.daysInMonth then
      var i := k - first + 1;
      CalendarDay(i, date, true, false, (i + first) / 7, date == v.today)
    else
      CalendarDay(k - first - v.daysInMonth + 1, date, false, false, (k + first) / 7, date == v.today)
  }

  /** Cell `k` of the finished grid. */
  function Cell(v: MonthView, k: int): CalendarDay {
    var c := Unmarked(v, k);
    c.(isActiveWeek := InFocusWeek(v, c.fullDate))
  }

  /**
   * The `weeks` memo: three loops push 42 cells, a pass marks those in the focused
   * week, and a last loop cuts the list into slices of seven.
   */
  method BuildWeeks(v: MonthView) returns (weeks: seq<seq<CalendarDay>>)
    requires ValidMonth(v)
    ensures |weeks| == 6
    ensures forall w :: 0 <= w < 6 ==> |weeks[w]| == 7
    ensures forall w, d :: 0 <= w < 6 && 0 <= d < 7 ==> weeks[w][d] == Cell(v, 7 * w + d)
  {
    var firstDayOfMonth := FirstDayOfMonth(v);
    var allCalendarDays: seq<CalendarDay> := [];

    var prevMonthStart := v.monthStart - v.daysInPrevMonth;
    var numPrevMonthDaysToShow := firstDayOfMonth;
    var i := 0;
    while i < numPrevMonthDaysToShow
      invariant 0 <= i <= numPrevMonthDaysToShow && |allCalendarDays| == i
      invariant forall k :: 0 <= k < i ==> allCalendarDays[k] == Unmarked(v, k)
    {
      var day := v.daysInPrevMonth - numPrevMonthDaysToShow + 1 + i;
      var fullDate := prevMonthStart + day - 1;
      allCalendarDays := allCalendarDays + [CalendarDay(day, fullDate, false, false, i / 7, fullDate == v.today)];
      i := i + 1;
    }

    i := 1;
    while i <= v.daysInMonth
      invariant 1 <= i <= v.daysInMonth + 1 && |allCalendarDays| == firstDayOfMonth + i - 1
      invariant forall k :: 0 <= k < |allCalendarDays| ==> allCalendarDays[k] == Unmarked(v, k)
    {
      var fullDate := v.monthStart + i - 1;
      allCalendarDays := allCalendarDays + [CalendarDay(i, fullDate, true, false, (i + firstDayOfMonth) / 7, fullDate == v.today)];
      i := i + 1;
    }

    var nextMonthStart := v.monthStart + v.daysInMonth;
    var numNextMonthDaysToShow := TOTAL_CELLS - |allCalendarDays|;
    i := 1;
    while i <= numNextMonthDaysToShow
      invariant 1 <= i <= numNextMonthDaysToShow + 1
      invariant |allCalendarDays| == firstDayOfMonth + v.daysInMonth + i - 1
      invariant forall k :: 0 <= k < |allCalendarDays| ==> allCalendarDays[k] == Unmarked(v, k)
    {
      var fullDate := nextMonthStart + i - 1;
      var weekIndex := (|allCalendarDays| + firstDayOfMonth) / 7;
      allCalendarDays := allCalendarDays + [CalendarDay(i, fullDate, false, false, weekIndex, fullDate == v.today)];
      i := i + 1;
    }
    assert |allCalendarDays| == TOTAL_CELLS;

    var startOfWeek := v.focus - Weekday(v.focus);
    var endOfWeek := startOfWeek + 6;
    for k := 0 to |allCalendarDays|
      invariant |allCalendarDays| == TOTAL_CELLS
      invariant forall j :: 0 <= j < k ==> allCalendarDays[j] == Cell(v, j)
      invariant forall j :: k <= j < TOTAL_CELLS ==> allCalendarDays[j] == Unmarked(v, j)
    {
      var fullDate := allCalendarDays[k].fullDate;
      if fullDate >= startOfWeek && fullDate <= endOfWeek {
        allCalendarDays := allCalendarDays[k := allCalendarDays[k].(isActiveWeek := true)];
      }
    }

    weeks := [];
    i := 0;
    while i < |allCalendarDays|
      invariant 0 <= i <= TOTAL_CELLS && i == 7 * |weeks|
      invariant forall w :: 0 <= w < |weeks| ==> weeks[w] == allCalendarDays[7 * w .. 7 * w + 7]
    {
      weeks := weeks + [allCalendarDays[i .. SliceIndex(i + 7, |allCalendarDays|)]];
      i := i + 7;
    }
  }

  // ----- properties of the grid -----

  /** Every cell's date is the day after the previous cell's, and the grid starts on a Sunday. */
  lemma DatesConsecutive(v: MonthView, k: int)
    requires 0 <= k < TOTAL_CELLS
    ensures Cell(v, k).fullDate == Cell(v, 0).fullDate + k
    ensures Weekday(Cell(v, k).fullDate) == k % 7
  {
    var sunday := v.monthStart - FirstDayOfMonth(v);
    assert Cell(v, k).fullDate == sunday + k;
    assert Cell(v, 0).fullDate == sunday;
    SundayPlus(sunday, k);
  }

  /** `k` days after a Sunday is weekday `k mod 7`. */
  lemma SundayPlus(sunday: int, k: int)
    requires Weekday(sunday) == 0
    ensures Weekday(sunday + k) == k % 7
  {
    var q := sunday / 7;
    assert sunday == 7 * q;
    assert sunday + k == 7 * (q + k / 7) + k % 7;
  }

  /** Column `d` of every week is weekday `d`. */
  lemma ColumnsAreWeekdays(v: MonthView, w: int, d: int)
    requires 0 <= w < 6 && 0 <= d < 7
    ensures Weekday(Cell(v, 7 * w + d).fullDate) == d
  {
    DatesConsecutive(v, 7 * w + d);
  }

  /**
   * Exactly `firstDayOfMonth` leading cells come from the previous month, numbered
   * consecutively up to its last day.
   */
  lemma LeadingCells(v: MonthView, k: int)
    requires ValidMonth(v) && 0 <= k < TOTAL_CELLS
    ensures k < FirstDayOfMonth(v) <==> !Cell(v, k).isCurrentMonth && Cell(v, k).fullDate < v.monthStart
    ensures k < FirstDayOfMonth(v) ==> Cell(v, k).day == v.daysInPrevMonth - (FirstDayOfMonth(v) - 1 - k)
    ensures k == FirstDayOfMonth(v) - 1 ==> Cell(v, k).day == v.daysInPrevMonth
  {
  }

  /**
   * The month's own cells are its days 1 to `daysInMonth` in order, each dated that
   * day; they are exactly the cells marked `isCurrentMonth`.
   */
  lemma MonthCells(v: MonthView, k: int)
    requires ValidMonth(v) && 0 <= k < TOTAL_CELLS
    ensures Cell(v, k).isCurrentMonth <==> v.monthStart <= Cell(v, k).fullDate < v.monthStart + v.daysInMonth
    ensures Cell(v, k).isCurrentMonth ==> 1 <= Cell(v, k).day <= v.daysInMonth
                                          && Cell(v, k).fullDate == v.monthStart + Cell(v, k).day - 1
  {
  }

  /**
   * The trailing cells come from the next month, numbered from 1 up to
   * `42 - firstDayOfMonth - daysInMonth`.
   */
  lemma TrailingCells(v: MonthView, k: int)
    requires ValidMonth(v) && 0 <= k < TOTAL_CELLS
    ensures k >= FirstDayOfMonth(v) + v.daysInMonth ==>
      && !Cell(v, k).isCurrentMonth
      && 1 <= Cell(v, k).day <= TOTAL_CELLS - FirstDayOfMonth(v) - v.daysInMonth
      && Cell(v, k).fullDate == v.monthStart + v.daysInMonth + Cell(v, k).day - 1
    ensures Cell(v, TOTAL_CELLS - 1).day == TOTAL_CELLS - FirstDayOfMonth(v) - v.daysInMonth
  {
  }

  /** Exactly one cell is today when today is on the grid, and none otherwise. */
  lemma TodayOnce(v: MonthView, k: int)
    requires 0 <= k < TOTAL_CELLS
    ensures Cell(v, k).isToday <==> k == v.today - Cell(v, 0).fullDate
  {
    DatesConsecutive(v, k);
  }

  /** The row of the grid holding the focused date. */
  function FocusRow(v: MonthView): int {
    (v.focus - (v.monthStart - FirstDayOfMonth(v))) / 7
  }

  /**
   * When the focused date is in the displayed month, the active week is one whole
   * row of the grid: a cell is marked exactly when it is in the focused date's row.
   */
  lemma ActiveWeekIsOneRow(v: MonthView, k: int)
    requires ValidMonth(v) && v.monthStart <= v.focus < v.monthStart + v.daysInMonth
    requires 0 <= k < TOTAL_CELLS
    ensures 0 <= FocusRow(v) < 6
    ensures Cell(v, k).isActiveWeek <==> k / 7 == FocusRow(v)
  {
    var qs := v.monthStart / 7;
    assert v.monthStart == 7 * qs + FirstDayOfMonth(v);
    var qf := v.focus / 7;
    assert v.focus == 7 * qf + Weekday(v.focus);
    assert FocusRow(v) == qf - qs;
    DatesConsecutive(v, k);
    assert k == 7 * (k / 7) + k % 7;
  }

  /**
   * `weekIndex` as computed: the previous month's cells say week 0, the month's own
   * cells `(k + 1) / 7` and the next month's `(k + firstDayOfMonth) / 7`, where `k`
   * is the cell's position; it equals the row `k / 7` the cell is shown in except
   * on the last column of a row for the month's own days, and for the next month's
   * days whose column plus `firstDayOfMonth` reaches 7.
   */
  lemma WeekIndexAsComputed(v: MonthView, k: int)
    requires ValidMonth(v) && 0 <= k < TOTAL_CELLS
    ensures k < FirstDayOfMonth(v) ==> Cell(v, k).weekIndex == 0 == k / 7
    ensures FirstDayOfMonth(v) <= k < FirstDayOfMonth(v) + v.daysInMonth ==>
      Cell(v, k).weekIndex == (k + 1) / 7 && (Cell(v, k).weekIndex == k / 7 <==> k % 7 != 6)
    ensures k >= FirstDayOfMonth(v) + v.daysInMonth ==>
      Cell(v, k).weekIndex == (k + FirstDayOfMonth(v)) / 7
      && (Cell(v, k).weekIndex == k / 7 <==> k % 7 + FirstDayOfMonth(v) < 7)
  {
  }
}
