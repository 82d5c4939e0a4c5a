/** The nested `forEach` of `scheduleWeeklyEvents`: every template crossed
    with each of its weekdays gives a date in the week; dates whose key is in
    the holiday set are skipped, every other one yields one event to create. */
module Expansion {
  import opened Gregorian
  import opened Config
  import opened WeekWindow

  /** An event to create: title, start and end, description and the lead time
      of its single popup reminder. */
  datatype Instance = Instance(
    title: string,
    start: Instant,
    end: Instant,
    description: string,
    reminderMinutes: int)

  /** The instance template `t` yields on `date`: it starts at the template's
      `hour:minute` that day, lasts `durationMinutes`, and takes the template's
      reminder when defined, the default otherwise. A start at a clock time
      stays on `date`. */
  function MakeInstance(t: Template, date: int, defaultReminder: int): (x: Instance)
    ensures x.title == t.name && x.description == t.description
    ensures x.end - x.start == t.durationMinutes
    ensures 0 <= t.time.hour <= 23 && 0 <= t.time.minute <= 59 ==>
              DayOf(x.start) == date && x.start - StartOfDay(date) == t.time.hour * 60 + t.time.minute
    ensures x.reminderMinutes == (if t.reminderMinutes.Some? then t.reminderMinutes.value else defaultReminder)
  {
    var start := StartOfDay(date) + t.time.hour * 60 + t.time.minute;
    Instance(t.name, start, start + t.durationMinutes, t.description,
             t.reminderMinutes.ValueOr(defaultReminder))
  }

  /** What one run expands templates against: the Monday the window starts
      on, the holiday set, the day key the holiday set is written in (for the
      scheduler, `IsoKey`) and the default reminder. */
  datatype Week = Week(start: int, holidays: set<string>, key: int -> string, defaultReminder: int)

  /** The date of `weekday` has its key in the holiday set. */
  predicate Skipped(wk: Week, weekday: int) {
    wk.key(InstanceDate(wk.start, weekday)) in wk.holidays
  }

  /** The instance template `t` yields for `weekday` in the week. */
  function Scheduled(t: Template, wk: Week, weekday: int): Instance {
    MakeInstance(t, InstanceDate(wk.start, weekday), wk.defaultReminder)
  }

  /** The pair (template `t`, `weekday`) is not skipped and yields `x`. */
  predicate Produces(t: Template, wk: Week, weekday: int, x: Instance) {
    !Skipped(wk, weekday) && x == Scheduled(t, wk, weekday)
  }

  /** What one (template, weekday) pair contributes: nothing on a holiday,
      else its one instance. */
  function DayInstances(t: Template, wk: Week, weekday: int): (r: seq<Instance>)
    ensures forall x :: x in r <==> Produces(t, wk, weekday, x)
    ensures |r| <= 1
  {
    if Skipped(wk, weekday) then [] else [Scheduled(t, wk, weekday)]
  }

  /** `evt.days.forEach(...)` for one template, over the weekdays `days`. */
  function ExpandDays(t: Template, wk: Week, days: seq<int>): (r: seq<Instance>)
    ensures forall x :: x in r <==> exists j :: 0 <= j < |days| && Produces(t, wk, days[j], x)
    ensures |r| <= |days|
  {
    if |days| == 0 then []
    else
      assert forall j :: 1 <= j < |days| ==> days[j] == days[1..][j - 1];
      DayInstances(t, wk, days[0]) + ExpandDays(t, wk, days[1..])
  }

  /** One step of `ExpandDays`: the first weekday's instances come first. */
  lemma ExpandDaysStep(t: Template, wk: Week, days: seq<int>)
    requires |days| > 0
    ensures ExpandDays(t, wk, days) == DayInstances(t, wk, days[0]) + ExpandDays(t, wk, days[1..])
  {
  }

  /** `CONFIG.events.forEach(...)`: the instances of all templates, template by
      template, each in the order of its weekdays. */
  function Expand(ts: seq<Template>, wk: Week): (r: seq<Instance>)
    ensures forall x :: x in r <==>
      exists i, j :: 0 <= i < |ts| && 0 <= j < |ts[i].days| && Produces(ts[i], wk, ts[i].days[j], x)
  {
    if |ts| == 0 then []
    else
      var rest := Expand(ts[1..], wk);
      forall x | x in rest
        ensures exists i, j :: 0 <= i < |ts| && 0 <= j < |ts[i].days| && Produces(ts[i], wk, ts[i].days[j], x)
      {
        var i, j :| 0 <= i < |ts[1..]| && 0 <= j < |ts[1..][i].days| && Produces(ts[1..][i], wk, ts[1..][i].days[j], x);
        assert ts[1..][i] == ts[i + 1];
      }
      ExpandDays(ts[0], wk, ts[0].days) + rest
  }

  /** A template's instances on two days are different events. */
  lemma MakeInstanceInjective(t: Template, d1: int, d2: int, defaultReminder: int)
    requires MakeInstance(t, d1, defaultReminder) == MakeInstance(t, d2, defaultReminder)
    ensures d1 == d2
  {
  }

  /** Every created instance starts at its template's `hour:minute` on the date
      of one of the template's weekdays that is not a holiday, ends
      `durationMinutes` later, is titled with the template's name, carries the
      template's description, and has the template's reminder when defined and
      the default otherwise. */
  lemma CreatedInstanceTiming(ts: seq<Template>, wk: Week, x: Instance)
    requires x in Expand(ts, wk)
    ensures exists i, j ::
              && 0 <= i < |ts| && 0 <= j < |ts[i].days|
              && !Skipped(wk, ts[i].days[j])
              && x.title == ts[i].name
              && x.start == StartOfDay(InstanceDate(wk.start, ts[i].days[j]))
                            + ts[i].time.hour * 60 + ts[i].time.minute
              && x.end == x.start + ts[i].durationMinutes
              && x.description == ts[i].description
              && (ts[i].reminderMinutes.Some? ==> x.reminderMinutes == ts[i].reminderMinutes.value)
              && (ts[i].reminderMinutes.None? ==> x.reminderMinutes == wk.defaultReminder)
  {
  }

  /** A working-day pair of a template at a clock time, in a week starting on
      a Monday, yields an instance within the five days from that Monday, on
      the day whose weekday is the pair's. */
  lemma ProducedOnWeekday(t: Template, wk: Week, weekday: int, x: Instance)
    requires 1 <= weekday <= 5 && DayOfWeek(wk.start) == 1
    requires 0 <= t.time.hour <= 23 && 0 <= t.time.minute <= 59
    requires Produces(t, wk, weekday, x)
    ensures wk.start <= DayOf(x.start) < wk.start + 5
    ensures DayOfWeek(DayOf(x.start)) == weekday
  {
    var date := InstanceDate(wk.start, weekday);
    InstanceDateInWindow(Window(wk.start, wk.start + 5), weekday);
    assert x.start == StartOfDay(date) + (t.time.hour * 60 + t.time.minute);
    DayOfTimeOfDay(date, t.time.hour * 60 + t.time.minute);
  }

  /** With working-day templates at valid times, every instance expanded for a
      week starting on a Monday starts within the five days from that Monday,
      on a day whose weekday its template lists. */
  lemma CreatedOnListedWeekday(ts: seq<Template>, wk: Week, x: Instance)
    requires WorkdaysOnly(ts) && ValidTimes(ts) && DayOfWeek(wk.start) == 1
    requires x in Expand(ts, wk)
    ensures wk.start <= DayOf(x.start) < wk.start + 5
    ensures exists i, j :: 0 <= i < |ts| && 0 <= j < |ts[i].days|
              && ts[i].name == x.title && DayOfWeek(DayOf(x.start)) == ts[i].days[j]
  {
    var i, j :| 0 <= i < |ts| && 0 <= j < |ts[i].days| && Produces(ts[i], wk, ts[i].days[j], x);
    ProducedOnWeekday(ts[i], wk, ts[i].days[j], x);
  }

  /** With unique template names, a (template, weekday) pair whose date is a
      holiday yields no instance: nothing else produces the same event. */
  lemma HolidayPairCreatesNothing(ts: seq<Template>, wk: Week, i: int, j: int)
    requires 0 <= i < |ts| && 0 <= j < |ts[i].days|
    requires UniqueNames(ts)
    requires Skipped(wk, ts[i].days[j])
    ensures Scheduled(ts[i], wk, ts[i].days[j]) !in Expand(ts, wk)
  {
  }

  /** A template's instance on `date` is not among its instances on other dates. */
  lemma NotCreatedOnOtherDates(t: Template, wk: Week, days: seq<int>, date: int)
    requires forall k :: 0 <= k < |days| ==> InstanceDate(wk.start, days[k]) != date
    ensures MakeInstance(t, date, wk.defaultReminder) !in ExpandDays(t, wk, days)
  {
  }

  /** A template's instances all carry its name. */
  lemma TitleAbsentFromDays(t: Template, wk: Week, days: seq<int>, x: Instance)
    requires t.name != x.title
    ensures x !in ExpandDays(t, wk, days)
  {
  }

  /** Only templates' names title created instances. */
  lemma TitleAbsent(ts: seq<Template>, wk: Week, x: Instance)
    requires forall k :: 0 <= k < |ts| ==> ts[k].name != x.title
    ensures x !in Expand(ts, wk)
  {
  }

  lemma {:induction false} DayCreatedOnce(t: Template, wk: Week, days: seq<int>, j: int)
    requires forall a, b :: 0 <= a < b < |days| ==> days[a] != days[b]
    requires 0 <= j < |days| && !Skipped(wk, days[j])
    ensures multiset(ExpandDays(t, wk, days))[Scheduled(t, wk, days[j])] == 1
  {
    var date := InstanceDate(wk.start, days[j]);
    var x := Scheduled(t, wk, days[j]);
    var head := DayInstances(t, wk, days[0]);
    var rest := ExpandDays(t, wk, days[1..]);
    assert multiset(head + rest)[x] == multiset(head)[x] + multiset(rest)[x];
    if j == 0 {
      assert head == [x];
      NotCreatedOnOtherDates(t, wk, days[1..], date);
    } else {
      assert x !in head by {
        if x in head {
          MakeInstanceInjective(t, InstanceDate(wk.start, days[0]), date, wk.defaultReminder);
          assert false;
        }
      }
      assert days[1..][j - 1] == days[j];
      DayCreatedOnce(t, wk, days[1..], j - 1);
    }
  }

  /** With unique names, the first template's title is absent from the
      instances of the templates after it. */
  lemma FirstTitleAbsentLater(ts: seq<Template>, wk: Week, x: Instance)
    requires |ts| > 0 && UniqueNames(ts) && x.title == ts[0].name
    ensures x !in Expand(ts[1..], wk)
  {
    forall k | 0 <= k < |ts[1..]|
      ensures ts[1..][k].name != x.title
    {
      assert ts[1..][k] == ts[k + 1];
    }
    TitleAbsent(ts[1..], wk, x);
  }

  /** With unique template names and no weekday listed twice in a template,
      every (template, weekday) pair whose date is not a holiday yields its
      instance exactly once. */
  lemma {:induction false} PairCreatedOnce(ts: seq<Template>, wk: Week, i: int, j: int)
    requires 0 <= i < |ts| && 0 <= j < |ts[i].days|
    requires UniqueNames(ts) && DistinctDays(ts[i])
    requires !Skipped(wk, ts[i].days[j])
    ensures multiset(Expand(ts, wk))[Scheduled(ts[i], wk, ts[i].days[j])] == 1
  {
    var x := Scheduled(ts[i], wk, ts[i].days[j]);
    var first := ExpandDays(ts[0], wk, ts[0].days);
    var rest := Expand(ts[1..], wk);
    assert Expand(ts, wk) == first + rest;
    assert multiset(first + rest)[x] == multiset(first)[x] + multiset(rest)[x];
    if i == 0 {
      DayCreatedOnce(ts[0], wk, ts[0].days, j);
      FirstTitleAbsentLater(ts, wk, x);
    } else {
      TitleAbsentFromDays(ts[0], wk, ts[0].days, x);
      assert ts[1..][i - 1] == ts[i];
      assert UniqueNames(ts[1..]);
      PairCreatedOnce(ts[1..], wk, i - 1, j);
    }
  }
}
