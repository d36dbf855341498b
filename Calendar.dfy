/** The calendar arithmetic the components borrow from JavaScript's `Date`
    and from date-fns: the length of a month, `getDate`, `setDate` and
    `Date.prototype.setMonth`.

    A date is a local calendar day plus an opaque time of day. Months are
    numbered 0..11, as `Date.prototype.getMonth` and the month ids of the
    month picker number them. Time zones and ISO-8601 strings are outside
    the model. */
module Calendar {

  /** A month index, January = 0 ... December = 11. */
  type Month = m: nat | m < 12

  /** The Gregorian leap-year rule. */
  predicate IsLeapYear(year: int) {
    year % 4 == 0 && (year % 100 != 0 || year % 400 == 0)
  }

  /** `getDaysInMonth`: the number of days of `month` in `year`. */
  function DaysInMonth(year: int, month: Month): (n: nat)
    ensures 28 <= n <= 31
    ensures n == 29 <==> month == 1 && IsLeapYear(year)
    ensures n == 28 <==> month == 1 && !IsLeapYear(year)
    ensures n == 30 <==> month in {3, 5, 8, 10}
  {
    if month == 1 then (if IsLeapYear(year) then 29 else 28)
    else if month in {3, 5, 8, 10} then 30
    else 31
  }

  /** A point in local time: calendar day and the milliseconds since midnight. */
  datatype Date = Date(year: int, month: Month, day: nat, time: nat) {
    /** The day exists in its month. */
    predicate Valid() {
      1 <= day <= DaysInMonth(year, month)
    }
  }

  /** A calendar day without time of day, as the `yyyy-MM-dd` date input yields. */
  datatype CalendarDay = CalendarDay(year: int, month: Month, day: nat)

  /** The calendar day a date falls on. */
  function DayOf(d: Date): CalendarDay {
    CalendarDay(d.year, d.month, d.day)
  }

  /** `new Date(\`${day}T00:00:00.000\`)`: local midnight of a calendar day. */
  function Midnight(c: CalendarDay): (d: Date)
    ensures DayOf(d) == c && d.time == 0
  {
    Date(c.year, c.month, c.day, 0)
  }

  /** `getDate`: the day of the month. */
  function GetDate(d: Date): (r: nat)
    ensures d.Valid() ==> 1 <= r <= DaysInMonth(d.year, d.month)
    ensures DayOf(d).day == r
  {
    d.day
  }

  /** The month after `month` of `year`, carrying into the next year. */
  function NextMonth(year: int, month: Month): (int, Month) {
    if month == 11 then (year + 1, 0) else (year, month + 1)
  }

  /** The month before `month` of `year`, borrowing from the previous year. */
  function PreviousMonth(year: int, month: Month): (int, Month) {
    if month == 0 then (year - 1, 11) else (year, month - 1)
  }

  /** Whether (year, month) comes after (year0, month0). */
  predicate MonthAfter(year: int, month: Month, year0: int, month0: Month) {
    year > year0 || (year == year0 && month > month0)
  }

  /** Day `k` (k >= 1) counted from the first of `month`, as `Date` computes
      it: a day past the end of the month rolls over into the following
      months. */
  function Roll(year: int, month: Month, k: nat, time: nat): (d: Date)
    requires k >= 1
    ensures d.Valid() && d.time == time
    ensures k > DaysInMonth(year, month) ==> MonthAfter(d.year, d.month, year, month)
    ensures d.day <= k
    decreases k
  {
    if k <= DaysInMonth(year, month) then Date(year, month, k, time)
    else
      var (y, m) := NextMonth(year, month);
      Roll(y, m, k - DaysInMonth(year, month), time)
  }

  /** `setDate(d, k)` for a non-negative `k`: day `k` of the date's month,
      rolling over past the month's end; day 0 is the last day of the
      previous month. Time of day is kept. */
  function SetDate(d: Date, k: nat): (r: Date)
    ensures r.Valid() && r.time == d.time
    ensures k == 0 ==> NextMonth(r.year, r.month) == (d.year, d.month) && r.day == DaysInMonth(r.year, r.month)
  {
    if k == 0 then
      var (y, m) := PreviousMonth(d.year, d.month);
      Date(y, m, DaysInMonth(y, m), d.time)
    else Roll(d.year, d.month, k, d.time)
  }

  /** Within the month, `setDate` replaces the day and nothing else. */
  lemma SetDateInMonth(d: Date, k: nat)
    requires 1 <= k <= DaysInMonth(d.year, d.month)
    ensures SetDate(d, k) == d.(day := k)
    ensures GetDate(SetDate(d, k)) == k
  {
  }

  /** The same, stated for every `k`: within the month the day is replaced. */
  lemma SetDateInRange(d: Date, k: nat)
    ensures 1 <= k <= DaysInMonth(d.year, d.month) ==> SetDate(d, k) == d.(day := k)
  {
    if 1 <= k <= DaysInMonth(d.year, d.month) {
      SetDateInMonth(d, k);
    }
  }

  /** Counting past the end of a month into the next one: day `k` of a
      month is day `k - n` of the following month, `n` being the month's
      length. */
  lemma RollOneOver(year: int, month: Month, k: nat, time: nat)
    requires DaysInMonth(year, month) < k <= DaysInMonth(year, month) + DaysInMonth(NextMonth(year, month).0, NextMonth(year, month).1)
    ensures Roll(year, month, k, time) == Date(NextMonth(year, month).0, NextMonth(year, month).1, k - DaysInMonth(year, month), time)
  {
  }

  /** The date `setDate(d, k)` names for any day `k` up to the end of the
      following month: `d` with day `k` inside the month, else day
      `k - n` of the next month (`n` the month's length). Bucket keys are at
      most 31, so this covers every call the boards make. */
  lemma SetDateValue(d: Date, k: nat)
    requires 1 <= k <= DaysInMonth(d.year, d.month) + DaysInMonth(NextMonth(d.year, d.month).0, NextMonth(d.year, d.month).1)
    ensures SetDate(d, k) == if k <= DaysInMonth(d.year, d.month) then d.(day := k)
      else Date(NextMonth(d.year, d.month).0, NextMonth(d.year, d.month).1, k - DaysInMonth(d.year, d.month), d.time)
  {
    if k > DaysInMonth(d.year, d.month) {
      RollOneOver(d.year, d.month, k, d.time);
    }
  }

  /** Beyond the month's length, `setDate` leaves the month: the result lies
      in a later month than `d`. */
  lemma SetDateRollsOver(d: Date, k: nat)
    requires k > DaysInMonth(d.year, d.month)
    ensures MonthAfter(SetDate(d, k).year, SetDate(d, k).month, d.year, d.month)
  {
  }

  /** Setting the day a valid date already has changes nothing. */
  lemma SetDateOwnDay(d: Date)
    requires d.Valid()
    ensures SetDate(d, GetDate(d)) == d
  {
  }

  /** `Date.prototype.setMonth(month)` on a valid date: the day of the month
      is kept and, when the new month is shorter, rolls over into the next
      month. */
  function SetMonthRolling(d: Date, month: Month): (r: Date)
    requires d.Valid()
    ensures r.Valid() && r.time == d.time
    ensures d.day <= DaysInMonth(d.year, month) ==> r == d.(month := month)
    ensures d.day > DaysInMonth(d.year, month) ==>
      r == Date(NextMonth(d.year, month).0, NextMonth(d.year, month).1, d.day - DaysInMonth(d.year, month), d.time)
  {
    if d.day > DaysInMonth(d.year, month) then
      RollOneOver(d.year, month, d.day, d.time);
      Roll(d.year, month, d.day, d.time)
    else Roll(d.year, month, d.day, d.time)
  }

  /** date-fns `setMonth`: the day of the month is clamped to the new
      month's length, so the result always lies in `month`. */
  function SetMonthClamped(d: Date, month: Month): (r: Date)
    ensures r.Valid() && r.year == d.year && r.month == month && r.time == d.time
    ensures d.day >= 1 ==> r.day == if d.day <= DaysInMonth(d.year, month) then d.day else DaysInMonth(d.year, month)
  {
    var n := DaysInMonth(d.year, month);
    Date(d.year, month, if 1 <= d.day <= n then d.day else if d.day == 0 then 1 else n, d.time)
  }
}
