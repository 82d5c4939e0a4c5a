/** The scheduling window: from the current-or-next Monday at midnight up to,
    but not including, the Saturday five days later. */
module WeekWindow {
  import opened Gregorian

  /** Days from a day whose `getDay()` is `day` to the current-or-next Monday.
      JavaScript's `%` truncates, but `8 - day` is positive here, so it agrees
      with Dafny's `%`. */
  function MondayDelta(day: int): (delta: int)
    requires 0 <= day <= 6
    ensures 0 <= delta <= 6
    ensures WeekdayAfter(day, delta) == 1
    ensures forall k :: 0 <= k < delta ==> WeekdayAfter(day, k) != 1
    ensures delta == 0 <==> day == 1
    ensures day == 0 ==> delta == 1
    ensures day == 2 ==> delta == 6
  {
    (8 - day) % 7
  }

  /** The `getDay()` value `k` days after a day whose value is `day`. */
  function WeekdayAfter(day: int, k: int): int {
    (day + k) % 7
  }

  /** `getNextMonday`: the day number of the Monday on or after the day of `now`;
      the window starts at its midnight. */
  function NextMonday(now: Instant): (monday: int)
    ensures DayOfWeek(monday) == 1
    ensures DayOf(now) <= monday <= DayOf(now) + 6
    ensures forall d :: DayOf(now) <= d < monday ==> DayOfWeek(d) != 1
  {
    var today := DayOf(now);
    var delta := MondayDelta(DayOfWeek(today));
    DayOfWeekShift(today, delta);
    forall d | today <= d < today + delta
      ensures DayOfWeek(d) != 1
    {
      DayOfWeekShift(today, d - today);
      assert WeekdayAfter(DayOfWeek(today), d - today) != 1;
    }
    today + delta
  }

  /** The days `[start, end)` one run schedules. */
  datatype Window = Window(start: int, end: int)

  /** A window that starts on a Monday and spans five days. */
  predicate IsWorkWeek(w: Window) {
    DayOfWeek(w.start) == 1 && w.end == w.start + 5
  }

  /** The window set up by `scheduleWeeklyEvents` for a run at `now`. */
  function WindowAt(now: Instant): (w: Window)
    ensures IsWorkWeek(w)
    ensures DayOf(now) <= w.start <= DayOf(now) + 6
    ensures DayOfWeek(DayOf(now)) == 1 ==> w.start == DayOf(now)
  {
    var monday := NextMonday(now);
    Window(monday, monday + 5)
  }

  /** The date a template weekday (1 = Monday ... 7 = Sunday) lands on in the
      week starting on `weekStart`: in a week starting on a Monday, the day
      whose `getDay()` is the weekday modulo 7. */
  function InstanceDate(weekStart: int, weekday: int): (date: int)
    ensures DayOfWeek(weekStart) == 1 ==> DayOfWeek(date) == weekday % 7
  {
    DayOfWeekShift(weekStart, weekday - 1);
    weekStart + (weekday - 1)
  }

  /** A weekday lands on the day whose `getDay()` is that weekday modulo 7
      (so 7, Sunday, lands on `getDay() == 0`), and exactly the weekdays 1
      through 5 land inside the window. */
  lemma InstanceDateInWindow(w: Window, weekday: int)
    requires IsWorkWeek(w)
    ensures DayOfWeek(InstanceDate(w.start, weekday)) == weekday % 7
    ensures w.start <= InstanceDate(w.start, weekday) < w.end <==> 1 <= weekday <= 5
  {
    DayOfWeekShift(w.start, weekday - 1);
  }

  /** Each day of the window is the date of exactly one weekday 1..5: the one
      equal to its `getDay()`. */
  lemma WindowDayHasOneWeekday(w: Window, d: int, weekday: int)
    requires IsWorkWeek(w) && w.start <= d < w.end
    requires 1 <= weekday <= 5
    ensures 1 <= DayOfWeek(d) <= 5
    ensures InstanceDate(w.start, weekday) == d <==> weekday == DayOfWeek(d)
  {
    DayOfWeekShift(w.start, d - w.start);
    DayOfWeekShift(w.start, weekday - 1);
  }
}
