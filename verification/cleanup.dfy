/** `cleanupOldEvents`: which events of the work calendar a run deletes. An
    event is deleted only when it lies before the retention cutoff AND it is
    owned by the scheduler: its title is some template's name and its
    description carries the marker. */
module Cleanup {
  import opened Gregorian
  import opened Text
  import opened Config

  datatype CalendarEvent = CalendarEvent(title: string, description: string, start: Instant, end: Instant)

  /** `now` moved back `retentionDays` calendar days, keeping its time of day. */
  function Cutoff(now: Instant, retentionDays: int): (cutoff: Instant)
    ensures DayOf(cutoff) == DayOf(now) - retentionDays
    ensures cutoff - StartOfDay(DayOf(cutoff)) == now - StartOfDay(DayOf(now))
  {
    now - retentionDays * MinutesPerDay
  }

  /** `CONFIG.events.some(e => title === e.name)`. */
  function MatchesTemplateName(title: string, ts: seq<Template>): (b: bool)
    ensures b <==> exists i :: 0 <= i < |ts| && ts[i].name == title
  {
    if |ts| == 0 then false
    else
      assert forall i :: 1 <= i < |ts| ==> ts[i] == ts[1..][i - 1];
      ts[0].name == title || MatchesTemplateName(title, ts[1..])
  }

  /** The ownership rule: a template's title and the marker in the description. */
  predicate IsOwned(ev: CalendarEvent, ts: seq<Template>, marker: string): (b: bool)
    ensures b <==> (exists i :: 0 <= i < |ts| && ts[i].name == ev.title)
                   && (exists p :: OccursAt(ev.description, marker, p))
  {
    MatchesTemplateName(ev.title, ts) && Includes(ev.description, marker)
  }

  /** Returned by `getEvents(new Date(0), cutoff)`: overlaps `[epoch, cutoff)`.
      An event starting between the epoch and the cutoff is returned; one
      starting at or after the cutoff, or ending by the epoch, is not. */
  predicate FetchedBefore(ev: CalendarEvent, cutoff: Instant): (b: bool)
    ensures 0 <= ev.start < ev.end && ev.start < cutoff ==> b
    ensures cutoff <= ev.start || ev.end <= 0 ==> !b
  {
    ev.start < cutoff && 0 < ev.end
  }

  predicate Deletable(ev: CalendarEvent, ts: seq<Template>, marker: string, cutoff: Instant) {
    FetchedBefore(ev, cutoff) && IsOwned(ev, ts, marker)
  }

  /** The fetched-and-filtered list, in calendar order. Every occurrence of a
      deletable event is kept and nothing else. */
  function OldEvents(events: seq<CalendarEvent>, ts: seq<Template>, marker: string, cutoff: Instant)
    : (r: seq<CalendarEvent>)
    ensures forall ev :: multiset(r)[ev] == if Deletable(ev, ts, marker, cutoff) then multiset(events)[ev] else 0
    ensures |r| <= |events|
  {
    if |events| == 0 then []
    else
      var rest := OldEvents(events[1..], ts, marker, cutoff);
      assert events == [events[0]] + events[1..];
      if Deletable(events[0], ts, marker, cutoff) then [events[0]] + rest else rest
  }

  /** The events one run of `cleanupOldEvents` at `now` deletes. */
  function CleanupOldEvents(events: seq<CalendarEvent>, cfg: Settings, now: Instant)
    : (deleted: seq<CalendarEvent>)
    ensures forall ev :: ev in deleted <==>
      ev in events && Deletable(ev, cfg.events, cfg.marker, Cutoff(now, cfg.retentionDays))
    ensures forall ev :: ev in deleted ==>
      && ev.start < Cutoff(now, cfg.retentionDays)
      && Includes(ev.description, cfg.marker)
      && exists i :: 0 <= i < |cfg.events| && cfg.events[i].name == ev.title
    ensures forall ev :: ev in events && Deletable(ev, cfg.events, cfg.marker, Cutoff(now, cfg.retentionDays)) ==>
      multiset(deleted)[ev] == multiset(events)[ev]
  {
    var r := OldEvents(events, cfg.events, cfg.marker, Cutoff(now, cfg.retentionDays));
    assert forall ev :: ev in r <==> multiset(r)[ev] > 0;
    r
  }
}
