/**
 * `AthanManager`: owns the configuration, the API client and the scheduler,
 * and keeps the last fetched schedule with the date it is for. The network,
 * the configuration file and today's date are parameters.
 */
module Manager {
  import opened Wrappers
  import opened PyObjects
  import opened Dates
  import opened PrayerApi
  import opened Config
  import opened Scheduler

  /** `int(x)` for the values it converts here: ints, and booleans as 0 and 1. */
  function PyInt(j: Json): int
    requires j.JNum? || j.JBool?
  {
    if j.JNum? then j.n else if j.b then 1 else 0
  }

  /** `config.get(name, {})` is a dict. */
  predicate SectionIsDict(cfg: Fields, name: string)
  {
    GetOr(cfg, name, JObj([])).JObj?
  }

  /** The items of `config.get(name, {})`. */
  function Section(cfg: Fields, name: string): Fields
    requires SectionIsDict(cfg, name)
  {
    GetOr(cfg, name, JObj([])).fields
  }

  /**
   * The configurations for which the constructor does not raise: the three
   * sections are dicts, `base_url` is a string and `timeout` an int or bool.
   */
  predicate Bootable(cfg: Fields)
  {
    && SectionIsDict(cfg, "location") && SectionIsDict(cfg, "api") && SectionIsDict(cfg, "ui")
    && Get(Section(cfg, "api"), "base_url").JStr?
    && var timeout := GetOr(Section(cfg, "api"), "timeout", JNum(10));
       timeout.JNum? || timeout.JBool?
  }

  /**
   * The client the constructor builds: `base_url` and `timeout` from the `api`
   * section, `city_id` from the `location` section, with their defaults.
   */
  function ClientFor(cfg: Fields): PrayerAPI
    requires Bootable(cfg)
  {
    var location := Section(cfg, "location");
    var apiConfig := Section(cfg, "api");
    NewPrayerAPI(Get(apiConfig, "base_url").s, GetOr(location, "city_id", JNum(1)),
                 PyInt(GetOr(apiConfig, "timeout", JNum(10))))
  }

  /** `location.get("timezone", "Asia/Dubai")`. */
  function TimezoneFor(cfg: Fields): Json
    requires SectionIsDict(cfg, "location")
  {
    GetOr(Section(cfg, "location"), "timezone", JStr("Asia/Dubai"))
  }

  /** `config.get("ui", {}).get("theme", "desert")`. */
  function ThemeFor(cfg: Fields): Json
    requires SectionIsDict(cfg, "ui")
  {
    GetOr(Section(cfg, "ui"), "theme", JStr("desert"))
  }

  /** The built-in defaults boot, and give the values the constructor reads from them. */
  lemma DefaultsBoot()
    ensures Bootable(DefaultConfig())
    ensures ClientFor(DefaultConfig()) == NewPrayerAPI(DefaultBaseUrl(), JNum(1), 10)
    ensures TimezoneFor(DefaultConfig()) == JStr("Asia/Dubai")
    ensures ThemeFor(DefaultConfig()) == JStr("desert")
  {
    var d := DefaultConfig();
    assert d[..2][..1] == [d[0]];
    assert Lookup(d, "api") == Some(d[0].1);
    assert Lookup(d, "location") == Some(d[1].1);
    assert Lookup(d, "ui") == Some(d[2].1);
    var api := d[0].1.fields;
    assert api[..1] == [api[0]];
    assert Lookup(api, "base_url") == Some(api[0].1);
    var location := d[1].1.fields;
    assert location[..1] == [location[0]];
    assert Lookup(location, "city_id") == Some(location[0].1);
  }

  /** The request for May 2024 with the default base URL and city. */
  lemma DefaultRequestUrl(timeout: int)
    ensures NewPrayerAPI(DefaultBaseUrl(), JNum(1), timeout).BuildUrl(5, 2024) ==
            DefaultBaseUrl() + "?month=5&year=2024&cityid=1"
  {
    var base := DefaultBaseUrl();
    assert base[|base| - 1] != '?';
    assert RStripQuestion(base) == base;
    assert Decimal(5) == "5";
    assert Decimal(2024) == "2024" by {
      assert Decimal(2) == "2";
      assert Decimal(20) == "20";
      assert Decimal(202) == "202";
    }
    assert Decimal(1) == "1";
  }

  class AthanManager {
    const config: Fields
    const api: PrayerAPI
    const scheduler: AthanScheduler
    var settings: map<string, Json>
    var cachedSchedule: Schedule
    var cachedDate: Option<CalendarDate>
    /** How many times the API has been asked for a schedule. */
    ghost var fetches: nat

    /**
     * A schedule is cached exactly when a date is, and the scheduler holds the
     * tasks of the cached schedule for the cached date.
     */
    ghost predicate Valid()
      reads this, scheduler
    {
      && (cachedDate.Some? <==> cachedSchedule != map[])
      && scheduler.tasks == if cachedDate.Some? then Tasks(cachedSchedule, DayLabel(cachedDate)) else map[]
    }

    /** `AthanManager(config_path)`, with the outcome of reading that path as the parameter. */
    constructor (file: ConfigFile)
      requires file.Loaded? ==> file.content.JObj?
      requires Bootable(LoadedConfig(file))
      ensures Valid() && fresh(scheduler)
      ensures config == LoadedConfig(file)
      ensures api == ClientFor(config)
      ensures scheduler.configuration == map["timezone" := TimezoneFor(config)]
      ensures settings == map["theme" := ThemeFor(config)]
      ensures scheduler.tasks == map[]
      ensures cachedSchedule == map[] && cachedDate == None && fetches == 0
    {
      var loaded := LoadConfig(file);
      config := loaded;
      api := ClientFor(loaded);
      scheduler := new AthanScheduler(TimezoneFor(loaded));
      settings := map["theme" := ThemeFor(loaded)];
      cachedSchedule := map[];
      cachedDate := None;
      fetches := 0;
    }

    /** The test at the head of `get_prayer_schedule`: nothing cached, or another date asked for. */
    predicate NeedsRefresh(targetDate: Option<CalendarDate>)
      reads this
    {
      cachedSchedule == map[] || (targetDate.Some? && targetDate != cachedDate)
    }

    /**
     * `refresh_schedule(target_date)`: always fetches, and replaces the cache and
     * the tasks. The clock is read twice: `today` is what the fetch reads before
     * its request, `todayAfterFetch` what the manager reads once the fetch has
     * returned; without a target date the two may differ, and the schedule is
     * then cached under the later day.
     */
    method RefreshSchedule(targetDate: Option<CalendarDate>, today: CalendarDate, todayAfterFetch: CalendarDate,
                           network: string -> FetchOutcome)
      returns (schedule: Schedule)
      requires Valid()
      modifies this, scheduler
      ensures Valid()
      ensures schedule == api.FetchDailySchedule(network, targetDate, today) && schedule != map[]
      ensures cachedDate == Some(targetDate.GetOr(todayAfterFetch)) && cachedSchedule == schedule
      ensures scheduler.tasks == Tasks(schedule, IsoFormat(targetDate.GetOr(todayAfterFetch)))
      ensures scheduler.configuration == old(scheduler.configuration) && settings == old(settings)
      ensures fetches == old(fetches) + 1
    {
      schedule := api.FetchDailySchedule(network, targetDate, today);
      fetches := fetches + 1;
      cachedDate := Some(targetDate.GetOr(todayAfterFetch));
      cachedSchedule := schedule;
      scheduler.ScheduleDay(schedule, cachedDate);
    }

    /**
     * `get_prayer_schedule(target_date)`: fetches exactly when nothing is cached
     * or a date other than the cached one is asked for; otherwise returns the
     * cache without fetching. The two clock readings are those of
     * `RefreshSchedule`.
     */
    method GetPrayerSchedule(targetDate: Option<CalendarDate>, today: CalendarDate, todayAfterFetch: CalendarDate,
                             network: string -> FetchOutcome)
      returns (schedule: Schedule)
      requires Valid()
      modifies this, scheduler
      ensures Valid()
      ensures schedule == cachedSchedule && schedule != map[]
      ensures old(NeedsRefresh(targetDate)) ==>
                && schedule == api.FetchDailySchedule(network, targetDate, today)
                && cachedDate == Some(targetDate.GetOr(todayAfterFetch))
                && scheduler.tasks == Tasks(schedule, IsoFormat(targetDate.GetOr(todayAfterFetch)))
                && fetches == old(fetches) + 1
      ensures !old(NeedsRefresh(targetDate)) ==>
                && schedule == old(cachedSchedule) && cachedDate == old(cachedDate)
                && scheduler.tasks == old(scheduler.tasks)
                && fetches == old(fetches)
      ensures targetDate.Some? ==> cachedDate == targetDate
      ensures scheduler.configuration == old(scheduler.configuration) && settings == old(settings)
    {
      if NeedsRefresh(targetDate) {
        schedule := RefreshSchedule(targetDate, today, todayAfterFetch, network);
        return;
      }
      schedule := cachedSchedule;
    }

    /** `get_timezone()`: the scheduler's timezone setting as a string, "Asia/Dubai" when unset. */
    function GetTimezone(): string
      reads scheduler
    {
      PyStr(if "timezone" in scheduler.configuration then scheduler.configuration["timezone"] else JStr("Asia/Dubai"))
    }

    /** `get_cached_date()`: the cached date, today when there is none. */
    function GetCachedDate(today: CalendarDate): CalendarDate
      reads this
    {
      cachedDate.GetOr(today)
    }

    /** `apply_settings(settings)`: the pairs go into the settings and into the scheduler's configuration. */
    method ApplySettings(given: map<string, Json>)
      requires Valid()
      modifies this, scheduler
      ensures Valid()
      ensures settings == old(settings) + given
      ensures scheduler.configuration.Keys == old(scheduler.configuration).Keys + given.Keys
      ensures forall k :: k in given ==> scheduler.configuration[k] == given[k]
      ensures forall k :: k in old(scheduler.configuration) && k !in given ==>
                scheduler.configuration[k] == old(scheduler.configuration)[k]
      ensures "timezone" in given ==> GetTimezone() == PyStr(given["timezone"])
      ensures "timezone" !in given ==> GetTimezone() == old(GetTimezone())
      ensures cachedSchedule == old(cachedSchedule) && cachedDate == old(cachedDate)
      ensures scheduler.tasks == old(scheduler.tasks) && fetches == old(fetches)
    {
      settings := settings + given;
      scheduler.Configure(given);
    }
  }

  /**
   * Two calls without a date fetch at most once, and the second returns what
   * the first did.
   */
  method TwoUndatedCalls(m: AthanManager, today1: CalendarDate, after1: CalendarDate,
                         today2: CalendarDate, after2: CalendarDate,
                         first: string -> FetchOutcome, second: string -> FetchOutcome)
    returns (r1: Schedule, r2: Schedule)
    requires m.Valid()
    modifies m, m.scheduler
    ensures m.Valid()
    ensures m.fetches <= old(m.fetches) + 1
    ensures r2 == r1
    ensures old(m.cachedSchedule) != map[] ==> m.fetches == old(m.fetches) && r1 == old(m.cachedSchedule)
  {
    r1 := m.GetPrayerSchedule(None, today1, after1, first);
    r2 := m.GetPrayerSchedule(None, today2, after2, second);
  }

  /**
   * A dated call for a day other than the cached one fetches once more and
   * moves the cached date to that day, whatever the clock reads.
   */
  method RequestAnotherDay(m: AthanManager, today: CalendarDate, todayAfterFetch: CalendarDate,
                           day: CalendarDate, network: string -> FetchOutcome)
    returns (r: Schedule)
    requires m.Valid() && m.cachedDate != Some(day)
    modifies m, m.scheduler
    ensures m.fetches == old(m.fetches) + 1
    ensures m.GetCachedDate(todayAfterFetch) == day
    ensures r == m.api.FetchDailySchedule(network, Some(day), today)
  {
    r := m.GetPrayerSchedule(Some(day), today, todayAfterFetch, network);
  }

  /** A manager built without a configuration file uses the built-in defaults throughout. */
  method FreshManagerDefaults(today: CalendarDate) returns (m: AthanManager)
    ensures m.Valid() && m.fetches == 0
    ensures m.GetTimezone() == "Asia/Dubai"
    ensures m.settings == map["theme" := JStr("desert")]
    ensures m.GetCachedDate(today) == today
    ensures m.api.BuildUrl(5, 2024) ==
            DefaultBaseUrl() + "?month=5&year=2024&cityid=1"
  {
    DefaultsBoot();
    assert LoadedConfig(Absent) == DefaultConfig();
    m := new AthanManager(Absent);
    assert m.api == NewPrayerAPI(DefaultBaseUrl(), JNum(1), 10);
    DefaultRequestUrl(10);
  }
}
