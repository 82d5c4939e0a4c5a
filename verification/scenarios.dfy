/** End-to-end runs of the scheduler on a one-template configuration, stated
    for every date they can happen on rather than for one calendar day. */
module Scenarios {
  import opened Outcomes
  import opened Gregorian
  import opened IsoDate
  import opened Text
  import opened Config
  import opened WeekWindow
  import opened Holidays
  import opened Cleanup
  import opened Expansion
  import opened Scheduler

  const SyncDescription: string := Marker + " Daily stand-up"

  /** "Daily Sync", Monday to Friday at 09:00 for 30 minutes, with the given
      reminder override. */
  function DailySync(reminder: Option<int>): Template {
    Template("Daily Sync", [1, 2, 3, 4, 5], TimeOfDay(9, 0), 30, reminder, SyncDescription)
  }

  /** Retention 30 days, default reminder 3 minutes, one template. */
  function SyncSettings(reminder: Option<int>): Settings {
    Settings("holidays", 30, 3, Marker, [DailySync(reminder)])
  }

  /** The Daily Sync event expected on day `d`. */
  function SyncOn(d: int, reminderMinutes: int): Instance {
    Instance("Daily Sync", StartOfDay(d) + 540, StartOfDay(d) + 570, SyncDescription, reminderMinutes)
  }

  /** Run on a Wednesday: the window is the following Monday to Friday. */
  lemma WednesdayWindow(now: Instant)
    requires DayOfWeek(DayOf(now)) == 3
    ensures WindowAt(now) == Window(DayOf(now) + 5, DayOf(now) + 10)
  {
  }

  /** The holiday set of a window whose Thursday is the one holiday holds
      Thursday's key and no other weekday's. */
  lemma ThursdayOnlyKey(monday: int)
    requires InFourDigitYears(monday) && InFourDigitYears(monday + 4)
    ensures
      var keys := HolidayKeys([HolidayEvent(monday + 3, monday + 4)], monday, monday + 5);
      && IsoKey(monday + 3) in keys
      && IsoKey(monday) !in keys && IsoKey(monday + 1) !in keys
      && IsoKey(monday + 2) !in keys && IsoKey(monday + 4) !in keys
  {
    var h := HolidayEvent(monday + 3, monday + 4);
    var keys := HolidayKeys([h], monday, monday + 5);
    assert [h][0] == h && Overlaps(h, monday, monday + 5);
    forall k | k in keys
      ensures k == IsoKey(monday + 3)
    {
    }
    if IsoKey(monday) == IsoKey(monday + 3) { KeyInjective(monday, monday + 3); }
    if IsoKey(monday + 1) == IsoKey(monday + 3) { KeyInjective(monday + 1, monday + 3); }
    if IsoKey(monday + 2) == IsoKey(monday + 3) { KeyInjective(monday + 2, monday + 3); }
    if IsoKey(monday + 4) == IsoKey(monday + 3) { KeyInjective(monday + 4, monday + 3); }
  }

  /** A weekday of Daily Sync that is not skipped yields the 09:00 event. */
  lemma SyncDay(reminder: Option<int>, wk: Week, weekday: int)
    requires wk.defaultReminder == 3 && !Skipped(wk, weekday)
    ensures DayInstances(DailySync(reminder), wk, weekday)
              == [SyncOn(wk.start + weekday - 1, reminder.ValueOr(3))]
  {
  }

  /** Expanding Daily Sync over a week whose Thursday alone is skipped. */
  lemma SyncExpansion(reminder: Option<int>, wk: Week)
    requires wk.defaultReminder == 3
    requires Skipped(wk, 4)
    requires !Skipped(wk, 1) && !Skipped(wk, 2) && !Skipped(wk, 3) && !Skipped(wk, 5)
    ensures
      var r := reminder.ValueOr(3);
      Expand([DailySync(reminder)], wk)
        == [SyncOn(wk.start, r), SyncOn(wk.start + 1, r), SyncOn(wk.start + 2, r), SyncOn(wk.start + 4, r)]
  {
    var t := DailySync(reminder);
    var r := reminder.ValueOr(3);
    SyncDay(reminder, wk, 1);
    SyncDay(reminder, wk, 2);
    SyncDay(reminder, wk, 3);
    assert DayInstances(t, wk, 4) == [];
    SyncDay(reminder, wk, 5);
    ExpandDaysStep(t, wk, [1, 2, 3, 4, 5]);
    ExpandDaysStep(t, wk, [2, 3, 4, 5]);
    ExpandDaysStep(t, wk, [3, 4, 5]);
    ExpandDaysStep(t, wk, [4, 5]);
    ExpandDaysStep(t, wk, [5]);
    assert Expand([t], wk) == ExpandDays(t, wk, [1, 2, 3, 4, 5]);
  }

  /** A run on a Wednesday with the next Thursday a holiday creates the Daily
      Sync on Monday, Tuesday, Wednesday and Friday, in that order, each from
      09:00 to 09:30 with the template's reminder, or the 3-minute default
      when the template defines none. */
  lemma WednesdayRunSkipsThursdayHoliday(now: Instant, reminder: Option<int>, workEvents: seq<CalendarEvent>)
    requires DayOfWeek(DayOf(now)) == 3
    requires InFourDigitYears(DayOf(now)) && InFourDigitYears(DayOf(now) + 10)
    ensures
      var monday := DayOf(now) + 5;
      var r := reminder.ValueOr(3);
      var run := ScheduleWeeklyEvents(SyncSettings(reminder), now, workEvents,
                                      Some([HolidayEvent(monday + 3, monday + 4)]));
      && run.Completed?
      && run.window == Window(monday, monday + 5)
      && run.created == [SyncOn(monday, r), SyncOn(monday + 1, r), SyncOn(monday + 2, r), SyncOn(monday + 4, r)]
  {
    var monday := DayOf(now) + 5;
    WednesdayWindow(now);
    var keys := HolidayKeys([HolidayEvent(monday + 3, monday + 4)], monday, monday + 5);
    var wk := Week(monday, keys, IsoKey, 3);
    ThursdayOnlyKey(monday);
    SyncExpansion(reminder, wk);
  }

  /** Retention: two "Daily Sync" events 40 days old, one carrying the marker
      and one not. With a 30-day retention the first is deleted and the
      second, created by hand, is kept. */
  lemma OldEventKeptWithoutMarker(now: Instant, reminder: Option<int>, manualDescription: string)
    requires now - 40 * MinutesPerDay > 0
    requires !Includes(manualDescription, Marker)
    ensures
      var start := now - 40 * MinutesPerDay;
      var owned := CalendarEvent("Daily Sync", SyncDescription, start, start + 30);
      var manual := CalendarEvent("Daily Sync", manualDescription, start, start + 30);
      var deleted := ScheduleWeeklyEvents(SyncSettings(reminder), now, [owned, manual], None).deleted;
      owned in deleted && manual !in deleted
  {
  }
}
