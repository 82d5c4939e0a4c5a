/** The scheduler's configuration: the event templates and the process-wide
    settings they fall back on. Each template's description builder ignores
    its date argument in the source, so it is modelled as its fixed text. */
module Config {
  import opened Outcomes
  import opened Text

  datatype TimeOfDay = TimeOfDay(hour: int, minute: int)

  /** One recurring event type. `days` uses 1 = Monday ... 7 = Sunday;
      `reminderMinutes` is `None` when the template leaves it undefined. */
  datatype Template = Template(
    name: string,
    days: seq<int>,
    time: TimeOfDay,
    durationMinutes: int,
    reminderMinutes: Option<int>,
    description: string)

  datatype Settings = Settings(
    holidayCalId: string,
    retentionDays: int,
    defaultReminderMinutes: int,
    marker: string,
    events: seq<Template>)

  /** No two templates share a name (names are the deletion-matching key). */
  predicate UniqueNames(ts: seq<Template>) {
    forall i, k :: 0 <= i < k < |ts| ==> ts[i].name != ts[k].name
  }

  /** No weekday is listed twice in one template. */
  predicate DistinctDays(t: Template) {
    forall j, k :: 0 <= j < k < |t.days| ==> t.days[j] != t.days[k]
  }

  /** Every template only lists working days, Monday through Friday. */
  predicate WorkdaysOnly(ts: seq<Template>) {
    forall i, j :: 0 <= i < |ts| && 0 <= j < |ts[i].days| ==> 1 <= ts[i].days[j] <= 5
  }

  /** Every template starts at a time of day on the clock and lasts a while. */
  predicate ValidTimes(ts: seq<Template>) {
    forall i :: 0 <= i < |ts| ==>
      && 0 <= ts[i].time.hour <= 23 && 0 <= ts[i].time.minute <= 59
      && ts[i].durationMinutes > 0
  }

  /** Every template's description carries the ownership marker. */
  predicate MarkedDescriptions(ts: seq<Template>, marker: string) {
    forall i :: 0 <= i < |ts| ==> Includes(ts[i].description, marker)
  }

  /** The conventions a configuration is expected to follow; the scheduler
      itself validates none of them. */
  predicate WellFormed(cfg: Settings) {
    && UniqueNames(cfg.events)
    && (forall i :: 0 <= i < |cfg.events| ==> DistinctDays(cfg.events[i]))
    && WorkdaysOnly(cfg.events)
    && ValidTimes(cfg.events)
    && MarkedDescriptions(cfg.events, cfg.marker)
  }

  const Marker: string := "[Auto-Scheduled]"

  /** The configuration the scheduler ships with. */
  const SourceSettings: Settings := Settings(
    "your-holiday-calendar-id@group.v.calendar.google.com",
    30,
    3,
    Marker,
    [ Template("Monday Morning Event", [1], TimeOfDay(11, 0), 60, Some(5),
               Marker + " Conference ID: 123 456 789"),
      Template("Regular Morning Event", [2, 3, 4, 5], TimeOfDay(10, 15), 60, None,
               Marker + " Conference ID: 123 456 789"),
      Template("Mon-Wed Evening Event", [1, 2, 3], TimeOfDay(16, 0), 60, Some(10),
               Marker + " Conference ID: 987 654 321"),
      Template("Friday Evening Event", [5], TimeOfDay(17, 0), 60, Some(15),
               Marker + " Conference ID: 987 654 321"),
      Template("Weekly Progress Review", [4], TimeOfDay(16, 0), 60, Some(5),
               Marker + " Conference ID: 123 456 789") ])

  lemma SourceNamesUnique()
    ensures UniqueNames(SourceSettings.events)
  {
  }

  lemma SourceDescriptionsMarked()
    ensures MarkedDescriptions(SourceSettings.events, Marker)
  {
  }

  lemma SourceDaysAndTimes()
    ensures forall i :: 0 <= i < |SourceSettings.events| ==> DistinctDays(SourceSettings.events[i])
    ensures WorkdaysOnly(SourceSettings.events)
    ensures ValidTimes(SourceSettings.events)
  {
  }

  /** The shipped configuration follows every convention above. */
  lemma SourceSettingsWellFormed()
    ensures WellFormed(SourceSettings)
  {
    SourceNamesUnique();
    SourceDaysAndTimes();
    SourceDescriptionsMarked();
  }
}
