/** `getHolidayDates`: the day keys of the holiday calendar's events that
    overlap the scheduling window. */
module Holidays {
  import opened Outcomes
  import opened Gregorian
  import opened IsoDate

  /** An all-day event of the holiday calendar covering days `[startDay, endDay)`. */
  datatype HolidayEvent = HolidayEvent(startDay: int, endDay: int)

  /** The calendar's `getEvents(start, end)` returns every event that overlaps
      the range `[start, end)`: one starting inside the range is returned, one
      lying wholly before or wholly after it is not. */
  predicate Overlaps(h: HolidayEvent, start: int, end: int): (b: bool)
    ensures start <= h.startDay < end && h.startDay < h.endDay ==> b
    ensures h.endDay <= start || end <= h.startDay ==> !b
  {
    h.startDay < end && start < h.endDay
  }

  datatype Error = HolidayCalendarNotFound(id: string)

  /** The start-day keys, written with the day key `key`, of the events
      overlapping `[start, end)`. */
  function StartKeys(events: seq<HolidayEvent>, start: int, end: int, key: int -> string)
    : (keys: set<string>)
    ensures forall k :: k in keys <==>
      exists i :: 0 <= i < |events| && Overlaps(events[i], start, end) && key(events[i].startDay) == k
  {
    if |events| == 0 then {}
    else
      var rest := StartKeys(events[1..], start, end, key);
      assert forall i :: 1 <= i < |events| ==> events[i] == events[1..][i - 1];
      if Overlaps(events[0], start, end) then {key(events[0].startDay)} + rest else rest
  }

  /** The set of start-day keys of the events overlapping `[start, end)`. */
  function HolidayKeys(events: seq<HolidayEvent>, start: int, end: int): (keys: set<string>)
    ensures forall k :: k in keys <==>
      exists i :: 0 <= i < |events| && Overlaps(events[i], start, end) && IsoKey(events[i].startDay) == k
  {
    StartKeys(events, start, end, IsoKey)
  }

  /** The holiday set, or the error thrown when the holiday calendar id
      resolves to no calendar (`calendar` is `None`). */
  function GetHolidayDates(calendar: Option<seq<HolidayEvent>>, id: string, start: int, end: int)
    : (r: Result<set<string>, Error>)
    ensures calendar.None? <==> r.Failure?
    ensures r.Failure? ==> r.error == HolidayCalendarNotFound(id)
    ensures r.Success? ==> forall k :: k in r.value <==>
      exists i :: 0 <= i < |calendar.value| && Overlaps(calendar.value[i], start, end)
                  && IsoKey(calendar.value[i].startDay) == k
  {
    match calendar
    case None => Failure(HolidayCalendarNotFound(id))
    case Some(events) => Success(HolidayKeys(events, start, end))
  }

  /** Some holiday fetched for `[start, end)` starts on day `d`. */
  predicate HolidayStartsOn(events: seq<HolidayEvent>, start: int, end: int, d: int) {
    exists i :: 0 <= i < |events| && Overlaps(events[i], start, end) && events[i].startDay == d
  }

  /** For a day of years 0 through 9999, its key is in the holiday set exactly
      when some fetched holiday starts on that very day. A holiday spanning
      several days marks only its first. */
  lemma IsHolidayIffHolidayStarts(events: seq<HolidayEvent>, start: int, end: int, d: int)
    requires InFourDigitYears(d)
    ensures IsoKey(d) in HolidayKeys(events, start, end) <==> HolidayStartsOn(events, start, end, d)
  {
    if IsoKey(d) in HolidayKeys(events, start, end) {
      var i :| 0 <= i < |events| && Overlaps(events[i], start, end) && IsoKey(events[i].startDay) == IsoKey(d);
      KeyInjective(d, events[i].startDay);
    }
  }
}
