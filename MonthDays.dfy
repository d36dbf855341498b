/** The `MonthDays` board: the day-column board of `DayBuckets` for a month
    picked by index. Its reference date is "now" moved to that month, and its
    number of days is the length of the reference date's month. */
module MonthDays {
  import opened Calendar
  import opened Todos
  import opened DayBuckets

  /** The reference date as the component computes it: `new Date()` followed
      by `Date.prototype.setMonth(month)`, which keeps the day of the month
      and lets it roll over into the next month. */
  function ReferenceDateAsWritten(now: Date, month: Month): (d: Date)
    requires now.Valid()
    ensures d.Valid() && d.time == now.time
  {
    SetMonthRolling(now, month)
  }

  /** As written, the reference date lies in the picked month exactly when
      today's day of the month exists in that month. */
  lemma AsWrittenInMonthIff(now: Date, month: Month)
    requires now.Valid()
    ensures var d := ReferenceDateAsWritten(now, month);
      (d.year == now.year && d.month == month) <==> now.day <= DaysInMonth(now.year, month)
  {
    var d := ReferenceDateAsWritten(now, month);
    if now.day > DaysInMonth(now.year, month) {
      assert MonthAfter(d.year, d.month, now.year, month);
    }
  }

  /** On 31 January 2025, picking February (month 1) yields 3 March 2025:
      the board is titled and laid out as March, with 31 day columns
      instead of February's 28. */
  lemma AsWrittenJanuary31(time: nat)
    ensures ReferenceDateAsWritten(Date(2025, 0, 31, time), 1) == Date(2025, 2, 3, time)
    ensures DaysInMonth(2025, ReferenceDateAsWritten(Date(2025, 0, 31, time), 1).month) == 31
    ensures DaysInMonth(2025, 1) == 28
  {
    assert !IsLeapYear(2025);
    assert Roll(2025, 1, 31, time) == Roll(2025, 2, 3, time);
  }

  /** The reference date with the day clamped to the picked month, as
      date-fns `setMonth` computes it: always in the picked month of the
      current year. */
  function ReferenceDate(now: Date, month: Month): (d: Date)
    ensures d.Valid() && d.year == now.year && d.month == month && d.time == now.time
    ensures now.Valid() && now.day <= DaysInMonth(now.year, month) ==> d == ReferenceDateAsWritten(now, month)
  {
    SetMonthClamped(now, month)
  }

  /** `days`: the length of the reference date's month. */
  function Days(now: Date, month: Month): (n: nat)
    ensures n == DaysInMonth(now.year, month)
  {
    var d := ReferenceDate(now, month);
    DaysInMonth(d.year, d.month)
  }

  /** Every day column of the picked month is dated that month of the
      current year, on the day its key names, at the time of day of "now". */
  lemma ColumnsInPickedMonth(now: Date, month: Month, todos: seq<Todo>, d: nat)
    requires d in Bucketing(Days(now, month), todos, ReferenceDate(now, month))
    ensures Bucketing(Days(now, month), todos, ReferenceDate(now, month))[d].date == Date(now.year, month, d, now.time)
  {
    BucketDates(Days(now, month), todos, ReferenceDate(now, month), d);
  }

  /** Mounting the component as written: the board is laid out for the
      month the rolled-over reference date lands in, which is the picked
      month only when today's day of the month exists in it. */
  method OpenAsWritten(now: Date, month: Month, todos: seq<Todo>) returns (board: DayBoard)
    requires now.Valid()
    ensures fresh(board)
    ensures board.todos == todos && board.date == ReferenceDateAsWritten(now, month)
    ensures board.days == DaysInMonth(board.date.year, board.date.month)
    ensures board.droppables == Bucketing(board.days, todos, board.date)
    ensures now.day > DaysInMonth(now.year, month) ==> board.date.month != month || board.date.year != now.year
    ensures board.activeDraggableId.None?
  {
    AsWrittenInMonthIff(now, month);
    board := new DayBoard(todos, ReferenceDateAsWritten(now, month));
  }

  /** Mounting the component, corrected: a day-column board for the picked
      month, with no drag in progress. */
  method Open(now: Date, month: Month, todos: seq<Todo>) returns (board: DayBoard)
    ensures fresh(board)
    ensures board.todos == todos && board.date == ReferenceDate(now, month)
    ensures board.days == Days(now, month)
    ensures board.droppables == Bucketing(Days(now, month), todos, ReferenceDate(now, month))
    ensures board.activeDraggableId.None?
  {
    board := new DayBoard(todos, ReferenceDate(now, month));
  }
}
