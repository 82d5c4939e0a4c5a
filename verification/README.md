# Weekly events scheduler — a Dafny model

The scheduler is a Google Apps Script that keeps a set of recurring weekly
events on a work calendar. One run (`scheduleWeeklyEvents`) does three things:

1. **Cleanup** — deletes past events that the scheduler owns. An event is
   deleted when it starts before the cutoff `now - retentionDays` (calendar
   days, same time of day) and ends after the epoch, its title equals some
   template's name, and its description contains the auto-schedule marker.
   An event that starts before the cutoff and ends after it is deleted too,
   because the calendar query returns every event overlapping the range. Events created by hand never
   carry the marker, so they are never deleted, even when their titles match.
2. **Week window** — finds the current-or-next Monday with
   `delta = (8 - getDay()) % 7`, at local midnight. The window runs from that
   Monday up to, but not including, the Saturday five days later.
3. **Expansion** — each template is crossed with each of its weekdays. The
   date is `Monday + (weekday - 1)` days. The pair is skipped when the date's
   key (`toISOString().slice(0, 10)`) is in the holiday set. Otherwise one
   event is created. It starts at the template's `hour:minute` that day and
   ends `durationMinutes` later. Its popup reminder is the template's
   `reminderMinutes` when defined and the default otherwise.

The holiday set holds the start-day keys of the events the holiday calendar
returns for the window, that is, every event overlapping it. The code reads
each one's all-day start date and applies no filter. If the holiday calendar
id resolves to no calendar, the run throws.

## How the model represents it

- **Dates and times.** A day is an integer day number, with day 0 being
  1970-01-01, a Thursday. An instant is an integer count of minutes since
  1970-01-01 00:00 local time (`Gregorian`).
- **Date keys.** The key is modelled exactly. `Gregorian` converts day
  numbers to proleptic Gregorian dates and back. `IsoDate` writes the year the
  way ECMAScript's `toISOString` does: four digits for years 0 through 9999,
  otherwise a sign and six digits. It then keeps the first ten characters. For
  years 0 through 9999 the key reads back to its date, so it identifies the
  day. From year 10000 on, the ten characters stop at the month, so two days
  can share a key.
- **Calendars.** The work calendar is a list of events. The holiday calendar
  is a list of all-day events, or `None` when the id resolves to nothing.
  `getEvents(a, b)` returns the events that overlap `[a, b)`.
- **Effects.** A run produces the list of events it deletes plus either the
  list of events it creates or the error it throws (`Scheduler.Run`).
- **Configuration.** A template's description builder ignores its date
  argument, so it is modelled as a fixed text (`Config`).

Modules follow the script's parts: `Config` (the configuration object),
`Text` (`String.prototype.includes`), `Gregorian` and `IsoDate` (the parts of
`Date` the script relies on), `WeekWindow` (`getNextMonday` and the window),
`Holidays` (`getHolidayDates`), `Cleanup` (`cleanupOldEvents`), `Expansion`
(the nested `forEach`), `Scheduler` (`scheduleWeeklyEvents`) and `Scenarios`
(whole runs on a one-template configuration).

Behaviour of the code the model keeps:

- A run deletes old events before it fetches holidays. A missing holiday
  calendar therefore ends the run after the deletions;
  `Scheduler.Run.Aborted` carries them.
- Nothing checks the configuration: template names may repeat, and weekdays,
  times and markers are taken as written. These conventions
  (`Config.WellFormed`) are hypotheses of the lemmas that need them, and
  `Config.SourceSettingsWellFormed` proves that the shipped configuration
  meets them.
- Only the start date of each holiday event is kept, so a holiday spanning
  several days skips only its first day.
- Weekdays 6 and 7 land after the window (`WeekWindow.InstanceDateInWindow`),
  on days for which no holidays were fetched.

## Model

| member | source | states |
|---|---|---|
| `WeekWindow.MondayDelta` | src/scheduler.js:109-110 | for every `getDay()` value 0..6, the delta lies in 0..6, lands on a Monday, is the smallest offset that does, and is 0 exactly on a Monday (so 1 on Sunday and 6 on Tuesday) |
| `WeekWindow.NextMonday` | src/scheduler.js:107-115 | the result is a Monday within six days on or after today, and no Monday lies between today and it |
| `WeekWindow.WindowAt` | src/scheduler.js:128-130 | the window starts on a Monday at most six days ahead, ends exactly five days later, and starts today when today is a Monday |
| `WeekWindow.InstanceDate` | src/scheduler.js:138-139 | in a week starting on a Monday, a weekday's date is the day whose `getDay()` is the weekday modulo 7 |
| `WeekWindow.InstanceDateInWindow` | src/scheduler.js:138-139 | a weekday lands on the day whose `getDay()` equals it modulo 7, and the weekdays landing inside the window are exactly 1 through 5 |
| `WeekWindow.WindowDayHasOneWeekday` | src/scheduler.js:128-139 | each window day is the date of exactly one weekday 1..5, the one equal to its `getDay()` |
| `Gregorian.DayOfWeek` | src/scheduler.js:109 | `getDay()` lies in 0..6, and 1970-01-01 and every seventh day from it is a Thursday (4) |
| `Gregorian.DayOfWeekShift` | src/scheduler.js:109-112 | `k` days after a day, `getDay()` has advanced by `k` modulo 7 |
| `Gregorian.StartOfDay` | src/scheduler.js:113 | midnight of a day falls on that day |
| `Gregorian.DayOfTimeOfDay` | src/scheduler.js:147-148 | a time of day between 00:00 and 23:59 stays on its date |
| `Gregorian.FromDayNumber` | src/scheduler.js:140 | the calendar date of a day number is a valid date, and converting it back gives the same day number |
| `IsoDate.FixedDigits` | src/scheduler.js:140 | zero-padded decimal text has exactly the requested width, consists of digits, and reads back to the number when the number fits |
| `IsoDate.IsoKey` | src/scheduler.js:140 | `toISOString().slice(0, 10)` of a day is always ten characters; its meaning is stated by the lemmas below |
| `IsoDate.FourDigitLayout` | src/scheduler.js:140 | in years 0 through 9999 the date text is `YYYY-MM-DD`: ten characters, dashes at positions 4 and 7, zero-padded fields between |
| `IsoDate.DateTextReadsBack` | src/scheduler.js:140 | in years 0 through 9999 the three fields of the date text read back to the date's year, month and day |
| `IsoDate.KeyRoundTrip` | src/scheduler.js:140 | for years 0 through 9999 the key is `YYYY-MM-DD` and reads back to the day's date |
| `IsoDate.KeyLeadsWithDigit` | src/scheduler.js:140 | a key starts with a digit exactly for years 0 through 9999; otherwise with `+` after year 9999 and `-` before year 0 |
| `IsoDate.KeyInjective` | src/scheduler.js:140 | a day of years 0 through 9999 shares its key with no other day |
| `IsoDate.LongYearKey` | src/scheduler.js:140 | after year 9999 the key is the signed six-digit year, a dash and the month, with no day |
| `IsoDate.KeyCollidesAfterYear9999` | src/scheduler.js:140 | the first two days of year 10000 have the same key, so the year bound above is needed |
| `Text.Includes` | src/scheduler.js:89 | `includes` is true exactly when the needle occurs at some position; an empty needle always occurs |
| `Text.IncludesFrom` | src/scheduler.js:89 | the scan from a position finds an occurrence exactly when one starts at or after that position |
| `Text.IncludesEmbedded` | src/scheduler.js:35 | a text built around the marker includes the marker |
| `Config.SourceSettingsWellFormed` | src/scheduler.js:13-70 | the shipped configuration has unique names, no repeated weekday, only weekdays 1..5, valid times, and the marker in every description |
| `Holidays.Overlaps` | src/scheduler.js:102 | `getEvents(start, end)` returns a holiday that starts inside the window and none lying wholly before or after it |
| `Holidays.StartKeys` | src/scheduler.js:102-103 | under any day key, a key is in the set exactly when some event overlapping the window starts on a day with that key |
| `Holidays.HolidayKeys` | src/scheduler.js:102-103 | a key is in the holiday set exactly when some event overlapping the window starts on a day with that key |
| `Holidays.GetHolidayDates` | src/scheduler.js:97-104 | fails with "holiday calendar not found" exactly when the calendar is missing; otherwise returns the start-day keys of the overlapping events |
| `Holidays.IsHolidayIffHolidayStarts` | src/scheduler.js:140-141 | for a date in years 0 through 9999, its key is in the holiday set exactly when a fetched holiday starts on that date |
| `Cleanup.Cutoff` | src/scheduler.js:81-83 | the cutoff falls `retentionDays` days before now, at the same time of day |
| `Cleanup.MatchesTemplateName` | src/scheduler.js:88 | true exactly when some template's name equals the title |
| `Cleanup.FetchedBefore` | src/scheduler.js:86 | `getEvents(new Date(0), cutoff)` returns an event starting between the epoch and the cutoff, and none starting at or after the cutoff or ending by the epoch |
| `Cleanup.IsOwned` | src/scheduler.js:88-89 | an event is owned exactly when some template's name equals its title and the marker occurs in its description |
| `Cleanup.OldEvents` | src/scheduler.js:86-90 | keeps every occurrence of each event that was fetched before the cutoff and is owned, and nothing else |
| `Cleanup.CleanupOldEvents` | src/scheduler.js:80-92 | an event is deleted exactly when it is fetched before the cutoff, its title is a template name and its description has the marker; nothing starting on or after the cutoff and nothing without the marker is deleted |
| `Expansion.MakeInstance` | src/scheduler.js:147-162 | the event has the template's name and description, lasts `durationMinutes`, starts at `hour:minute` on the date itself for a clock time, and takes the template's reminder or else the default |
| `Expansion.DayInstances` | src/scheduler.js:140-155 | one (template, weekday) pair yields at most one event, and yields it exactly when its date is not a holiday |
| `Expansion.ExpandDays` | src/scheduler.js:137-164 | an event comes from one template's weekdays exactly when some listed weekday is not skipped and yields it |
| `Expansion.Expand` | src/scheduler.js:136-165 | an event is created exactly when some (template, weekday) pair is not skipped and yields it |
| `Expansion.MakeInstanceInjective` | src/scheduler.js:147-150 | a template's events on two days differ |
| `Expansion.CreatedInstanceTiming` | src/scheduler.js:147-162 | every created event has its template's name and description, starts at `hour:minute` on a non-holiday date of the template, ends `durationMinutes` later, and has the template's reminder or else the default |
| `Expansion.CreatedOnListedWeekday` | src/scheduler.js:137-148 | with working-day templates at valid times, every created event starts within the five window days, on a weekday its template lists |
| `Expansion.HolidayPairCreatesNothing` | src/scheduler.js:140-144 | with unique names, a pair whose date key is a holiday creates no event |
| `Expansion.DayCreatedOnce` | src/scheduler.js:137-155 | with distinct weekdays, a non-holiday weekday's event occurs exactly once among one template's events |
| `Expansion.PairCreatedOnce` | src/scheduler.js:136-155 | with unique names and distinct weekdays, every non-holiday pair's event is created exactly once |
| `Scheduler.ScheduleWeeklyEvents` | src/scheduler.js:121-165 | a run aborts exactly when the holiday calendar is missing, with that error; it deletes exactly the owned events fetched before the cutoff, whether it aborts or not; a completed run's window is a Monday-to-Saturday week at most six days ahead |
| `Scheduler.CreationIgnoresExistingEvents` | src/scheduler.js:136-155 | the created events do not depend on the events already on the calendar: no existence check is made |
| `Scheduler.CreatedUnlessHoliday` | src/scheduler.js:133-155 | with unique template names and no weekday listed twice in the pair's template, a pair in years 0 through 9999 is created once when no fetched holiday starts on its date, and not at all when one does |
| `Scheduler.CreatedWithinWindow` | src/scheduler.js:128-148 | with working-day templates at valid times, every created event starts inside the window on a weekday its template lists |
| `Scheduler.CreatedEventsAreOwned` | src/scheduler.js:153-155 | when every description carries the marker, an event the scheduler created satisfies the ownership rule of cleanup |
| `Scheduler.CreatedEventsRetireAtCutoff` | src/scheduler.js:80-92 | when every template description carries the marker, an event a run created that is still on the calendar at a later run is deleted by that run exactly when it starts before that run's cutoff and ends after the epoch |
| `Scenarios.WednesdayWindow` | src/scheduler.js:107-130 | a run on a Wednesday schedules the next Monday through Friday |
| `Scenarios.WednesdayRunSkipsThursdayHoliday` | src/scheduler.js:121-165 | on a Wednesday with the next Thursday a holiday, Daily Sync is created Monday, Tuesday, Wednesday and Friday, 09:00 to 09:30, with reminder 5 or the default 3 |
| `Scenarios.OldEventKeptWithoutMarker` | src/scheduler.js:80-92 | of two 40-day-old "Daily Sync" events under a 30-day retention, the one with the marker is deleted and the one without it is kept |

## Left out

- Calendar I/O: `getWorkCalendar` and its fall-back to the default calendar, `getCalendarById`, `getEvents`, `createEvent`, `addPopupReminder`, `deleteEvent`. These are calls into the hosting platform. The work calendar is an input list, and the run's deletions and creations are output lists.
- `Logger` messages. They are informational only.
- Failures of individual calendar calls. They happen inside the platform. In the code, such a failure throws and ends the run, because there is no `try`/`catch`.
- JavaScript `Date` details. The date is built in local time while `toISOString` uses UTC. Holiday keys and instance keys go through the same conversion, so a fixed zone offset shifts both alike. Instant 0 is taken as local midnight of 1970-01-01, while the cleanup query's lower bound `new Date(0)` is the UTC epoch; the two differ by the zone offset. Daylight-saving shifts and precision below one minute are also left out.
- Timed events on the holiday calendar. The code calls `getAllDayStartDate()` on every event the holiday calendar returns, and that call throws on a timed event, ending the run after the deletions. The model's holiday calendar holds only all-day events: a holiday calendar is expected to list whole days, and the failure happens inside the platform call.
- The two `new Date()` calls in one run (cleanup and `getNextMonday`) are one `now`. The gap between them is not modelled.
- Years outside what a JavaScript `Date` can hold (beyond ±275760). For those, the six-digit year text keeps only the low six digits.
- The description builders' date argument, which the source's builders ignore.
- `IsoDate.KeyInjective`: only days in years 0 through 9999, because later keys collide (`IsoDate.KeyCollidesAfterYear9999`).
- `Holidays.IsHolidayIffHolidayStarts`: only dates in years 0 through 9999, for the same reason.
- `Scheduler.CreatedUnlessHoliday`: only dates in years 0 through 9999, for the same reason.
- `Scenarios.WednesdayRunSkipsThursdayHoliday`: only windows in years 0 through 9999, for the same reason.
