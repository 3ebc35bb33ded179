/**
 The calendar of the booking widget: a 7-column grid (Sunday first) that starts
 with blank cells up to today's weekday column and then shows the 30 days from
 today on. Dates are abstract day numbers; the markup is not modelled, only the
 sequence of cells and the click test that decides which cells select a date.
 */
module Calendar {
  import opened Wrappers

  /** A calendar day, counted in days since 1970-01-01 (which was a Thursday). */
  type Day = int

  /** Number of days the calendar shows, today included. */
  const WindowDays: nat := 30

  /** Columns of the grid, one per weekday. */
  const Columns: nat := 7

  /** Weekday of a day, numbered as the widget numbers them: 0 is Sunday, 6 is Saturday. */
  function Weekday(d: Day): (w: nat)
    ensures w < Columns
  {
    (d + 4) % 7
  }

  /** A grid cell: a blank padding cell (CSS `empty`) or a day cell (CSS `available`). */
  datatype Cell = EmptyCell | DayCell(date: Day)

  /** The click handler's test: only a cell with the `available` class selects a date. */
  function ClickedDate(c: Cell): (r: Option<Day>)
    ensures r.Some? <==> c.DayCell?
    ensures c.DayCell? ==> r == Some(c.date)
  {
    match c
    case EmptyCell => None
    case DayCell(d) => Some(d)
  }

  /**
   The layout of the grid rendered on day `today`: `Weekday(today)` blank cells,
   then the days today, today + 1, ..., today + 29 in that order, and nothing else.
   */
  ghost predicate CalendarLayout(today: Day, cells: seq<Cell>)
  {
    && |cells| == Weekday(today) + WindowDays
    && (forall k :: 0 <= k < Weekday(today) ==> cells[k] == EmptyCell)
    && (forall k :: Weekday(today) <= k < |cells| ==> cells[k] == DayCell(today + (k - Weekday(today))))
  }

  /**
   Builds the cells of the calendar. The padding is emitted inside the day loop,
   before the first day only, and its length is the weekday of that first day.
   */
  method RenderCalendar(today: Day) returns (cells: seq<Cell>)
    ensures CalendarLayout(today, cells)
  {
    cells := [];
    for i := 0 to WindowDays
      invariant i == 0 ==> cells == []
      invariant i > 0 ==> |cells| == Weekday(today) + i
      invariant i > 0 ==> forall k :: 0 <= k < Weekday(today) ==> cells[k] == EmptyCell
      invariant i > 0 ==> forall k :: Weekday(today) <= k < |cells| ==> cells[k] == DayCell(today + (k - Weekday(today)))
    {
      var date := today + i;
      var dayOfWeek := Weekday(date);
      if i == 0 {
        for j := 0 to dayOfWeek
          invariant |cells| == j
          invariant forall k :: 0 <= k < j ==> cells[k] == EmptyCell
        {
          cells := cells + [EmptyCell];
        }
      }
      cells := cells + [DayCell(date)];
    }
  }

  /** In the rendered grid every day cell stands in the column of its own weekday. */
  lemma DayInWeekdayColumn(today: Day, cells: seq<Cell>, k: nat)
    requires CalendarLayout(today, cells)
    requires k < |cells| && cells[k].DayCell?
    ensures k % Columns == Weekday(cells[k].date)
  {
  }

  /**
   The click test over the rendered grid: a blank cell never selects anything,
   and the cell at position `k` past the padding selects day today + (k - padding),
   whatever its weekday.
   */
  lemma ClickSelectsDayOfCell(today: Day, cells: seq<Cell>, k: nat)
    requires CalendarLayout(today, cells)
    requires k < |cells|
    ensures k < Weekday(today) ==> ClickedDate(cells[k]) == None
    ensures k >= Weekday(today) ==> ClickedDate(cells[k]) == Some(today + (k - Weekday(today)))
  {
  }

  /** A day can be selected from the grid exactly when it is one of the 30 days of the window. */
  lemma SelectableDaysAreWindow(today: Day, cells: seq<Cell>, d: Day)
    requires CalendarLayout(today, cells)
    ensures (exists k :: 0 <= k < |cells| && ClickedDate(cells[k]) == Some(d)) <==> today <= d < today + WindowDays
  {
    if today <= d < today + WindowDays {
      var k := Weekday(today) + (d - today);
      assert cells[k] == DayCell(d);
      assert ClickedDate(cells[k]) == Some(d);
    }
    if exists k :: 0 <= k < |cells| && ClickedDate(cells[k]) == Some(d) {
      var k :| 0 <= k < |cells| && ClickedDate(cells[k]) == Some(d);
      ClickSelectsDayOfCell(today, cells, k);
    }
  }

  /** The layout fixes the grid completely: two renderings on the same day are equal. */
  lemma LayoutIsUnique(today: Day, a: seq<Cell>, b: seq<Cell>)
    requires CalendarLayout(today, a) && CalendarLayout(today, b)
    ensures a == b
  {
    forall k | 0 <= k < |a|
      ensures a[k] == b[k]
    {
    }
  }
}
