/** `AthanScheduler`: records one task per prayer for the day it was last given. */
module Scheduler {
  import opened Wrappers
  import opened PyObjects
  import opened Dates

  /** `day.isoformat() if day else "unspecified"`. */
  function DayLabel(day: Option<CalendarDate>): string
  {
    if day.Some? then IsoFormat(day.value) else "unspecified"
  }

  /** A task key: `"<label>:<name>"`. */
  function TaskKey(dayLabel: string, name: string): string
  {
    dayLabel + ":" + name
  }

  lemma TaskKeyInjective(dayLabel: string, a: string, b: string)
    requires TaskKey(dayLabel, a) == TaskKey(dayLabel, b)
    ensures a == b
  {
    assert a == TaskKey(dayLabel, a)[|dayLabel| + 1..];
    assert b == TaskKey(dayLabel, b)[|dayLabel| + 1..];
  }

  /** The tasks `schedule_day` records for `schedule` under the day label `dayLabel`. */
  function Tasks(schedule: map<string, string>, dayLabel: string): map<string, string>
  {
    assert forall a, b :: a in schedule && b in schedule && TaskKey(dayLabel, a) == TaskKey(dayLabel, b) ==> a == b by {
      forall a, b | a in schedule && b in schedule && TaskKey(dayLabel, a) == TaskKey(dayLabel, b)
        ensures a == b
      {
        TaskKeyInjective(dayLabel, a, b);
      }
    }
    map name | name in schedule :: TaskKey(dayLabel, name) := schedule[name]
  }

  /**
   * Every task key is `dayLabel + ":" + name` for a name of the schedule, holding
   * that name's time, and every name of the schedule has its task.
   */
  lemma TasksContents(schedule: map<string, string>, dayLabel: string)
    ensures forall name :: name in schedule ==>
              TaskKey(dayLabel, name) in Tasks(schedule, dayLabel) && Tasks(schedule, dayLabel)[TaskKey(dayLabel, name)] == schedule[name]
    ensures forall k :: k in Tasks(schedule, dayLabel) ==> exists name :: name in schedule && k == TaskKey(dayLabel, name)
  {
    var t := Tasks(schedule, dayLabel);
    forall name | name in schedule
      ensures TaskKey(dayLabel, name) in t && t[TaskKey(dayLabel, name)] == schedule[name]
    {
      forall other | other in schedule && TaskKey(dayLabel, other) == TaskKey(dayLabel, name)
        ensures other == name
      {
        TaskKeyInjective(dayLabel, other, name);
      }
    }
  }

  /** An injective image of a set is as large as the set. */
  lemma {:induction false} InjectiveImageSize(s: set<string>, dayLabel: string)
    ensures |set name | name in s :: TaskKey(dayLabel, name)| == |s|
    decreases |s|
  {
    if s != {} {
      var x :| x in s;
      var rest := s - {x};
      InjectiveImageSize(rest, dayLabel);
      var image := set name | name in s :: TaskKey(dayLabel, name);
      var restImage := set name | name in rest :: TaskKey(dayLabel, name);
      assert image == restImage + {TaskKey(dayLabel, x)};
      if TaskKey(dayLabel, x) in restImage {
        var y :| y in rest && TaskKey(dayLabel, y) == TaskKey(dayLabel, x);
        TaskKeyInjective(dayLabel, y, x);
      }
    }
  }

  /** There are exactly as many tasks as the schedule has prayers. */
  lemma TasksCount(schedule: map<string, string>, dayLabel: string)
    ensures |Tasks(schedule, dayLabel)| == |schedule|
  {
    var t := Tasks(schedule, dayLabel);
    TasksContents(schedule, dayLabel);
    assert t.Keys == set name | name in schedule.Keys :: TaskKey(dayLabel, name);
    InjectiveImageSize(schedule.Keys, dayLabel);
  }

  /**
   * A day's label is its ten-character ISO form, which reads back as the day;
   * no day gives "unspecified", which reads as no date at all.
   */
  lemma DayLabelReadsBack(day: Option<CalendarDate>)
    ensures day.Some? ==> |DayLabel(day)| == 10 && ParseIso(DayLabel(day)) == Some(day.value)
    ensures day.None? ==> DayLabel(day) == "unspecified" && ParseIso(DayLabel(day)) == None
  {
    if day.Some? {
      IsoFormatRoundTrip(day.value);
    } else {
      assert "unspecified"[4] != '-';
    }
  }

  class AthanScheduler {
    var configuration: map<string, Json>
    var tasks: map<string, string>

    /** `AthanScheduler(timezone)`. */
    constructor (timezone: Json)
      ensures configuration == map["timezone" := timezone]
      ensures tasks == map[]
    {
      configuration := map["timezone" := timezone];
      tasks := map[];
    }

    /** `configure(settings)`: `configuration.update(settings)`. */
    method Configure(settings: map<string, Json>)
      modifies this
      ensures configuration.Keys == old(configuration).Keys + settings.Keys
      ensures forall k :: k in settings ==> configuration[k] == settings[k]
      ensures forall k :: k in old(configuration) && k !in settings ==> configuration[k] == old(configuration)[k]
      ensures tasks == old(tasks)
    {
      configuration := configuration + settings;
    }

    /** `schedule_day(schedule, day)`: the recorded tasks are replaced wholesale. */
    method ScheduleDay(schedule: map<string, string>, day: Option<CalendarDate>)
      modifies this
      ensures tasks == Tasks(schedule, DayLabel(day))
      ensures configuration == old(configuration)
    {
      tasks := Tasks(schedule, DayLabel(day));
    }
  }
}
