/** The month view (src/pages/timeline-tracker/components/CalendarView.jsx):
    the day grid, the per-day event buckets, month navigation and "Today".
    Event deadlines are day numbers on the same scale as `Calendar.DayNumber`. */
module CalendarView {
  import opened Wrappers
  import opened Seqs
  import opened Events
  import opened Arith
  import opened Calendar
  import opened TimelineView

  /** A grid cell: padding before the first of the month, or a day. */
  datatype Cell = Blank | DayCell(date: Date)

  /** The grid for month `m` of year `y`: one blank per weekday before the
      first, then the days of the month in order. Every day lands in the
      column of its weekday under the Sunday-first header. */
  method BuildMonthGrid(y: int, m: int) returns (cells: seq<Cell>)
    requires 0 <= m < 12
    ensures |cells| == FirstDayOfMonth(y, m) + DaysInMonth(y, m)
    ensures forall k :: 0 <= k < FirstDayOfMonth(y, m) ==> cells[k] == Blank
    ensures forall k :: FirstDayOfMonth(y, m) <= k < |cells| ==>
              cells[k] == DayCell(Date(y, m, k - FirstDayOfMonth(y, m) + 1))
    ensures forall k :: FirstDayOfMonth(y, m) <= k < |cells| ==>
              ValidDate(cells[k].date) && Weekday(DateNumber(cells[k].date)) == k % 7
  {
    var f := FirstDayOfMonth(y, m);
    var dim := DaysInMonth(y, m);
    cells := [];
    var i := 0;
    while i < f
      invariant 0 <= i <= f
      invariant |cells| == i
      invariant forall k :: 0 <= k < i ==> cells[k] == Blank
    {
      cells := cells + [Blank];
      i := i + 1;
    }
    var day := 1;
    while day <= dim
      invariant 1 <= day <= dim + 1
      invariant |cells| == f + day - 1
      invariant forall k :: 0 <= k < f ==> cells[k] == Blank
      invariant forall k :: f <= k < |cells| ==> cells[k] == DayCell(Date(y, m, k - f + 1))
    {
      cells := cells + [DayCell(Date(y, m, day))];
      day := day + 1;
    }
    forall k | f <= k < |cells|
      ensures Weekday(DateNumber(cells[k].date)) == k % 7
    {
      WeekdayColumn(y, m, k);
    }
  }

  /** Day `k - first + 1` of the month falls on weekday `k mod 7`. */
  lemma WeekdayColumn(y: int, m: int, k: int)
    requires 0 <= m < 12 && FirstDayOfMonth(y, m) <= k
    ensures Weekday(DayNumber(y, m, k - FirstDayOfMonth(y, m) + 1)) == k % 7
  {
    var f := FirstDayOfMonth(y, m);
    var n := DayNumber(y, m, 1);
    var q := (n + 1) / 7;
    assert n + 1 == 7 * q + f;
    assert DayNumber(y, m, k - f + 1) + 1 == 7 * q + k;
    ModShift(k, q);
  }

  lemma ModShift(k: int, q: int)
    ensures (7 * q + k) % 7 == k % 7
  {
    DivUnique(7 * q + k, 7, q + k / 7, k % 7);
  }

  /** `getEventsForDate`: the filtered events due on `date`, in filtered order. */
  function EventsForDate(events: seq<Event>, selected: seq<Category>, date: Date): (r: seq<Event>)
    requires 0 <= date.month < 12
    ensures forall i :: 0 <= i < |r| ==> r[i] in FilterEvents(events, selected) && r[i].deadline == DateNumber(date)
    ensures forall e :: e in FilterEvents(events, selected) && e.deadline == DateNumber(date) ==> e in r
  {
    var r := Filter(FilterEvents(events, selected), HasDeadline(DateNumber(date)));
    assert forall e :: e in FilterEvents(events, selected) && e.deadline == DateNumber(date) ==> e in r by {
      forall e | e in FilterEvents(events, selected) && e.deadline == DateNumber(date)
        ensures e in r
      {
        var s := FilterEvents(events, selected);
        var i :| 0 <= i < |s| && s[i] == e;
        assert HasDeadline(DateNumber(date))(s[i]);
      }
    }
    r
  }

  /** The buckets of two different days share no event. */
  lemma BucketsDisjoint(events: seq<Event>, selected: seq<Category>, d1: Date, d2: Date, e: Event)
    requires 0 <= d1.month < 12 && 0 <= d2.month < 12
    requires DateNumber(d1) != DateNumber(d2)
    ensures !(e in EventsForDate(events, selected, d1) && e in EventsForDate(events, selected, d2))
  {
    var r1 := EventsForDate(events, selected, d1);
    if e in r1 {
      var i :| 0 <= i < |r1| && r1[i] == e;
      assert e.deadline == DateNumber(d1);
    }
  }

  /** A bucket keeps the order of the filtered list. */
  lemma EventsForDateKeepsOrder(events: seq<Event>, selected: seq<Category>, date: Date)
    requires 0 <= date.month < 12
    ensures IsSubseq(EventsForDate(events, selected, date), FilterEvents(events, selected))
  {
    FilterIsSubseq(FilterEvents(events, selected), HasDeadline(DateNumber(date)));
  }

  /** The markers of one day cell: at most two event bars, and the number of
      further events when there are more than two. */
  datatype Markers = Markers(bars: seq<Event>, more: Option<nat>)

  function DayMarkers(dayEvents: seq<Event>): (r: Markers)
    ensures r.bars <= dayEvents
    ensures |r.bars| == if |dayEvents| < 2 then |dayEvents| else 2
    ensures r.more.Some? <==> |dayEvents| > 2
    ensures |r.bars| + r.more.GetOr(0) == |dayEvents|
  {
    Markers(Take(dayEvents, 2), if |dayEvents| > 2 then Some(|dayEvents| - 2) else None)
  }

  /** A day cell's markers describe that day's bucket: the bars are its
      first events in filtered order, every bar is a shown event due that
      day, and the bars and the "+n" together count every such event. */
  lemma DayCellMarkers(events: seq<Event>, selected: seq<Category>, date: Date)
    requires 0 <= date.month < 12
    ensures var bucket := EventsForDate(events, selected, date);
            var m := DayMarkers(bucket);
            && IsSubseq(m.bars, FilterEvents(events, selected))
            && (forall i :: 0 <= i < |m.bars| ==> m.bars[i].deadline == DateNumber(date))
            && |m.bars| + m.more.GetOr(0) == |bucket|
  {
    var bucket := EventsForDate(events, selected, date);
    var m := DayMarkers(bucket);
    EventsForDateKeepsOrder(events, selected, date);
    PrefixIsSubseq(m.bars, bucket);
    SubseqTrans(m.bars, bucket, FilterEvents(events, selected));
    forall i | 0 <= i < |m.bars|
      ensures m.bars[i].deadline == DateNumber(date)
    {
      assert m.bars[i] == bucket[i];
    }
  }

  /** The highlight of a day cell: today wins over the selected day, which
      wins over a day that merely has events. */
  datatype Highlight = TodayCell | SelectedCell | BusyCell | PlainCell

  function CellHighlight(date: Date, today: Date, selected: Option<Date>, hasEvents: bool): (h: Highlight)
    ensures h == TodayCell <==> date == today
    ensures h == SelectedCell <==> date != today && selected == Some(date)
    ensures h == BusyCell <==> date != today && selected != Some(date) && hasEvents
  {
    if date == today then TodayCell
    else if selected.Some? && selected.value == date then SelectedCell
    else if hasEvents then BusyCell
    else PlainCell
  }

  /** The view state: the date whose month is shown, and the picked day. */
  datatype CalendarState = CalendarState(current: Date, selected: Option<Date>)

  /** The month `dir` months away from month `m` of year `y`, with the year
      rolling over in either direction. */
  function ShiftMonth(y: int, m: int, dir: int): (r: (int, int))
    requires 0 <= m < 12
    ensures 0 <= r.1 < 12
    ensures 12 * r.0 + r.1 == 12 * y + m + dir
  {
    var total := 12 * y + m + dir;
    (total / 12, total % 12)
  }

  /** `navigateMonth` as written: `setMonth(getMonth() + dir)` keeps the day
      of the month, and a day past the end of the target month spills into
      the month after it, as the `Date` constructor does. The picked day is
      cleared. */
  function NavigateMonthAsWritten(s: CalendarState, dir: int): (r: CalendarState)
    requires ValidDate(s.current)
    ensures ValidDate(r.current) && r.selected == None
    ensures DateNumber(r.current)
            == DayNumber(ShiftMonth(s.current.year, s.current.month, dir).0,
                         ShiftMonth(s.current.year, s.current.month, dir).1, s.current.day)
  {
    var (ty, tm) := ShiftMonth(s.current.year, s.current.month, dir);
    var dim := DaysInMonth(ty, tm);
    if s.current.day <= dim then
      CalendarState(Date(ty, tm, s.current.day), None)
    else
      var (ny, nm) := NextMonth(ty, tm);
      NextMonthStart(ty, tm);
      CalendarState(Date(ny, nm, s.current.day - dim), None)
  }

  /** Moving forward one month from 31 January 2025 shows March, not February. */
  lemma NavigateSkipsShortMonth()
    ensures NavigateMonthAsWritten(CalendarState(Date(2025, 0, 31), None), 1).current == Date(2025, 2, 3)
  {
    assert ShiftMonth(2025, 0, 1) == (2025, 1);
    assert !IsLeapYear(2025);
    assert DaysInMonth(2025, 1) == 28;
    assert NextMonth(2025, 1) == (2025, 2);
  }

  /** `navigateMonth` with the day clamped to the end of the target month:
      the view always moves by exactly `dir` months. */
  function NavigateMonth(s: CalendarState, dir: int): (r: CalendarState)
    requires ValidDate(s.current)
    ensures ValidDate(r.current) && r.selected == None
    ensures 12 * r.current.year + r.current.month == 12 * s.current.year + s.current.month + dir
    ensures r.current.day == if s.current.day <= DaysInMonth(r.current.year, r.current.month)
                             then s.current.day else DaysInMonth(r.current.year, r.current.month)
  {
    var (ty, tm) := ShiftMonth(s.current.year, s.current.month, dir);
    var dim := DaysInMonth(ty, tm);
    CalendarState(Date(ty, tm, if s.current.day <= dim then s.current.day else dim), None)
  }

  /** Both versions agree whenever the day exists in the target month. */
  lemma NavigateVersionsAgree(s: CalendarState, dir: int)
    requires ValidDate(s.current)
    requires s.current.day <= DaysInMonth(ShiftMonth(s.current.year, s.current.month, dir).0,
                                          ShiftMonth(s.current.year, s.current.month, dir).1)
    ensures NavigateMonth(s, dir) == NavigateMonthAsWritten(s, dir)
  {
  }

  /** Forward then back returns to the same month, and to the same day when
      that day exists in both months; the selection is cleared. */
  lemma NavigateRoundTrip(s: CalendarState, dir: int)
    requires ValidDate(s.current)
    ensures var back := NavigateMonth(NavigateMonth(s, dir), -dir).current;
            back.year == s.current.year && back.month == s.current.month && back.day <= s.current.day
    ensures s.current.day <= 28 ==> NavigateMonth(NavigateMonth(s, dir), -dir) == CalendarState(s.current, None)
  {
    var r := NavigateMonth(s, dir).current;
    var back := NavigateMonth(NavigateMonth(s, dir), -dir).current;
    MonthIndexInjective(back.year, back.month, s.current.year, s.current.month);
  }

  lemma MonthIndexInjective(y1: int, m1: int, y2: int, m2: int)
    requires 0 <= m1 < 12 && 0 <= m2 < 12
    requires 12 * y1 + m1 == 12 * y2 + m2
    ensures y1 == y2 && m1 == m2
  {
    DivUnique(12 * y1 + m1, 12, y1, m1);
    DivUnique(12 * y2 + m2, 12, y2, m2);
  }

  /** Year rollover in both directions. */
  lemma NavigateAcrossYears()
    ensures NavigateMonth(CalendarState(Date(2024, 11, 15), None), 1).current == Date(2025, 0, 15)
    ensures NavigateMonth(CalendarState(Date(2024, 0, 15), Some(Date(2024, 0, 3))), -1).current == Date(2023, 11, 15)
  {
  }

  /** `goToToday`: show today's month and pick today. */
  function GoToToday(today: Date): (r: CalendarState)
    ensures r.current == today && r.selected == Some(today)
  {
    CalendarState(today, Some(today))
  }

  /** `selectedDateEvents`: the picked day's bucket, or nothing. */
  function SelectedEvents(s: CalendarState, events: seq<Event>, selected: seq<Category>): (r: seq<Event>)
    requires s.selected.Some? ==> 0 <= s.selected.value.month < 12
    ensures s.selected.None? ==> r == []
    ensures s.selected.Some? ==> r == EventsForDate(events, selected, s.selected.value)
  {
    if s.selected.Some? then EventsForDate(events, selected, s.selected.value) else []
  }

  /** After "Today" the side panel lists exactly the filtered events due today. */
  lemma GoToTodayShowsToday(today: Date, events: seq<Event>, selected: seq<Category>, e: Event)
    requires ValidDate(today)
    ensures e in SelectedEvents(GoToToday(today), events, selected)
            <==> e in FilterEvents(events, selected) && e.deadline == DateNumber(today)
  {
    var r := SelectedEvents(GoToToday(today), events, selected);
    if e in r {
      var i :| 0 <= i < |r| && r[i] == e;
    }
  }

  /** Navigating clears the panel. */
  lemma NavigateClearsPanel(s: CalendarState, dir: int, events: seq<Event>, selected: seq<Category>)
    requires ValidDate(s.current)
    ensures SelectedEvents(NavigateMonth(s, dir), events, selected) == []
  {
  }
}
