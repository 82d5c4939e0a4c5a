/** `scheduleWeeklyEvents`: one run of the scheduler. It first deletes the
    old owned events, then computes the week window, then fetches the holiday
    set (throwing when the holiday calendar is missing), then creates one event
    per (template, weekday) pair whose date is not a holiday. Calendar access
    is abstracted: the work calendar is its list of events, the holiday
    calendar is its list of all-day events or `None` when its id resolves to
    nothing, and the run's effect is the list of deleted and created events. */
module Scheduler {
  import opened Outcomes
  import opened Gregorian
  import opened IsoDate
  import opened Config
  import opened WeekWindow
  import opened Holidays
  import opened Cleanup
  import opened Expansion

  /** The effect of one run. A run aborted by the missing holiday calendar has
      already performed its deletions. */
  datatype Run =
    | Completed(deleted: seq<CalendarEvent>, window: Window, created: seq<Instance>)
    | Aborted(deleted: seq<CalendarEvent>, error: Error)

  /** The event the work calendar holds once `x` has been created. */
  function AsEvent(x: Instance): CalendarEvent {
    CalendarEvent(x.title, x.description, x.start, x.end)
  }

  function ScheduleWeeklyEvents(cfg: Settings, now: Instant, workEvents: seq<CalendarEvent>,
                                holidayCalendar: Option<seq<HolidayEvent>>): (run: Run)
    ensures run.Aborted? <==> holidayCalendar.None?
    ensures run.Aborted? ==> run.error == HolidayCalendarNotFound(cfg.holidayCalId)
    ensures forall ev :: ev in run.deleted <==>
      ev in workEvents && Deletable(ev, cfg.events, cfg.marker, Cutoff(now, cfg.retentionDays))
    ensures run.Completed? ==> IsWorkWeek(run.window) && DayOf(now) <= run.window.start <= DayOf(now) + 6
  {
    var deleted := CleanupOldEvents(workEvents, cfg, now);
    var w := WindowAt(now);
    match GetHolidayDates(holidayCalendar, cfg.holidayCalId, w.start, w.end)
    case Failure(e) => Aborted(deleted, e)
    case Success(holidays) =>
      Completed(deleted, w, Expand(cfg.events, Week(w.start, holidays, IsoKey, cfg.defaultReminderMinutes)))
  }

  /** Whatever the existing events, a run creates the same events: there is no
      check for an instance created by an earlier run of the same week. */
  lemma CreationIgnoresExistingEvents(cfg: Settings, now: Instant, before: seq<CalendarEvent>,
                                      after: seq<CalendarEvent>, holidays: seq<HolidayEvent>)
    ensures ScheduleWeeklyEvents(cfg, now, before, Some(holidays)).created
         == ScheduleWeeklyEvents(cfg, now, after, Some(holidays)).created
  {
  }

  /** In a completed run, a (template, weekday) pair whose date is in years 0
      through 9999 is created exactly once when no fetched holiday starts on
      that date, and not at all when one does. */
  lemma CreatedUnlessHoliday(cfg: Settings, now: Instant, workEvents: seq<CalendarEvent>,
                             holidays: seq<HolidayEvent>, i: int, j: int)
    requires 0 <= i < |cfg.events| && 0 <= j < |cfg.events[i].days|
    requires UniqueNames(cfg.events) && DistinctDays(cfg.events[i])
    requires InFourDigitYears(InstanceDate(WindowAt(now).start, cfg.events[i].days[j]))
    ensures
      var w := WindowAt(now);
      var date := InstanceDate(w.start, cfg.events[i].days[j]);
      multiset(ScheduleWeeklyEvents(cfg, now, workEvents, Some(holidays)).created)
        [MakeInstance(cfg.events[i], date, cfg.defaultReminderMinutes)]
      == if HolidayStartsOn(holidays, w.start, w.end, date) then 0 else 1
  {
    var w := WindowAt(now);
    var ts := cfg.events;
    var date := InstanceDate(w.start, ts[i].days[j]);
    var keys := HolidayKeys(holidays, w.start, w.end);
    var wk := Week(w.start, keys, IsoKey, cfg.defaultReminderMinutes);
    assert ScheduleWeeklyEvents(cfg, now, workEvents, Some(holidays)).created == Expand(ts, wk);
    IsHolidayIffHolidayStarts(holidays, w.start, w.end, date);
    assert Skipped(wk, ts[i].days[j]) <==> IsoKey(date) in keys;
    if Skipped(wk, ts[i].days[j]) {
      HolidayPairCreatesNothing(ts, wk, i, j);
    } else {
      PairCreatedOnce(ts, wk, i, j);
    }
  }

  /** With working-day templates at valid times, every created event starts
      inside the window, on a day whose weekday its template lists. */
  lemma CreatedWithinWindow(cfg: Settings, now: Instant, workEvents: seq<CalendarEvent>,
                            holidays: seq<HolidayEvent>, x: Instance)
    requires WorkdaysOnly(cfg.events) && ValidTimes(cfg.events)
    requires x in ScheduleWeeklyEvents(cfg, now, workEvents, Some(holidays)).created
    ensures
      var w := WindowAt(now);
      w.start <= DayOf(x.start) < w.end
      && exists i, j :: 0 <= i < |cfg.events| && 0 <= j < |cfg.events[i].days|
           && cfg.events[i].name == x.title && DayOfWeek(DayOf(x.start)) == cfg.events[i].days[j]
  {
    var w := WindowAt(now);
    var ts := cfg.events;
    var wk := Week(w.start, HolidayKeys(holidays, w.start, w.end), IsoKey, cfg.defaultReminderMinutes);
    assert x in Expand(ts, wk);
    CreatedOnListedWeekday(ts, wk, x);
  }

  /** An event the scheduler created is one it owns, provided every template
      description carries the marker. */
  lemma CreatedEventsAreOwned(cfg: Settings, now: Instant, workEvents: seq<CalendarEvent>,
                              holidays: seq<HolidayEvent>, x: Instance)
    requires MarkedDescriptions(cfg.events, cfg.marker)
    requires x in ScheduleWeeklyEvents(cfg, now, workEvents, Some(holidays)).created
    ensures IsOwned(AsEvent(x), cfg.events, cfg.marker)
  {
    var w := WindowAt(now);
    var ts := cfg.events;
    var wk := Week(w.start, HolidayKeys(holidays, w.start, w.end), IsoKey, cfg.defaultReminderMinutes);
    var i, j :| 0 <= i < |ts| && 0 <= j < |ts[i].days| && Produces(ts[i], wk, ts[i].days[j], x);
  }

  /** Creation and cleanup fit together: an event a run created is deleted by a
      later run exactly once it starts before that run's cutoff. */
  lemma CreatedEventsRetireAtCutoff(cfg: Settings, now: Instant, workEvents: seq<CalendarEvent>,
                                    holidays: seq<HolidayEvent>, x: Instance,
                                    later: Instant, laterEvents: seq<CalendarEvent>)
    requires MarkedDescriptions(cfg.events, cfg.marker)
    requires x in ScheduleWeeklyEvents(cfg, now, workEvents, Some(holidays)).created
    requires AsEvent(x) in laterEvents
    ensures AsEvent(x) in ScheduleWeeklyEvents(cfg, later, laterEvents, Some(holidays)).deleted
            <==> x.start < Cutoff(later, cfg.retentionDays) && 0 < x.end
  {
    CreatedEventsAreOwned(cfg, now, workEvents, holidays, x);
  }
}
