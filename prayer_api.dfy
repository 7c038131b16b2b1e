/**
 * The prayer-time API client: the request URL, the parser that copes with the
 * several shapes the upstream service answers with, and the fallback policy.
 * The network itself is a parameter: a function from the request URL to what
 * the request produced.
 */
module PrayerApi {
  import opened Wrappers
  import opened PyObjects
  import opened Dates

  /** A prayer schedule: prayer name to time-of-day string. */
  type Schedule = map<string, string>

  /** `_prayer_keys()`: the five daily prayers. */
  function PrayerKeys(): seq<string>
  {
    ["fajr", "dhuhr", "asr", "maghrib", "isha"]
  }

  /** The placeholder schedule returned when no usable live data arrives. */
  function Fallback(): Schedule
  {
    map["fajr" := "05:00", "dhuhr" := "12:10", "asr" := "15:30", "maghrib" := "17:45", "isha" := "19:15"]
  }

  /** Every key is already lower-case, as normalization leaves them. */
  predicate IsNormalized(m: Schedule)
  {
    forall k :: k in m ==> Lower(k) == k
  }

  /** The fallback names all five prayers and nothing else, in lower case. */
  lemma FallbackHasEveryPrayer()
    ensures Fallback().Keys == set k | k in PrayerKeys()
    ensures |Fallback()| == 5
    ensures IsNormalized(Fallback())
  {
    assert Lower("fajr") == "fajr";
    assert Lower("dhuhr") == "dhuhr";
    assert Lower("asr") == "asr";
    assert Lower("maghrib") == "maghrib";
    assert Lower("isha") == "isha";
    assert Fallback().Keys == {"fajr", "dhuhr", "asr", "maghrib", "isha"};
  }

  // ---------------------------------------------------------------------------
  // _normalize_prayer_map
  // ---------------------------------------------------------------------------

  /**
   * The map `_normalize_prayer_map` has built once it has gone through the
   * items `f` in order: string values kept under their lower-cased key, a later
   * item overwriting an earlier one whose key lowercases the same.
   */
  function NormalizeFields(f: Fields): Schedule
  {
    if f == [] then map[]
    else
      var m := NormalizeFields(f[..|f| - 1]);
      var (key, value) := f[|f| - 1];
      if value.JStr? then m[Lower(key) := value.s] else m
  }

  /** `_normalize_prayer_map(raw)`: anything but a dict gives the empty map. */
  function Normalize(raw: Json): Schedule
  {
    if raw.JObj? then NormalizeFields(raw.fields) else map[]
  }

  /** `_normalize_prayer_map`, as the loop the source runs. */
  method NormalizePrayerMap(raw: Json) returns (normalized: Schedule)
    ensures normalized == Normalize(raw)
    ensures !raw.JObj? ==> normalized == map[]
  {
    if !raw.JObj? {
      return map[];
    }
    var items := raw.fields;
    normalized := map[];
    for i := 0 to |items|
      invariant normalized == NormalizeFields(items[..i])
    {
      assert items[..i + 1][..i] == items[..i];
      var (key, value) := items[i];
      if !value.JStr? {
        continue;
      }
      normalized := normalized[Lower(key) := value.s];
    }
    assert items[..|items|] == items;
  }

  /** Item `i` of `f` has a string value and a key that lowercases to `k`. */
  predicate StringItemFor(f: Fields, i: int, k: string)
  {
    0 <= i < |f| && f[i].1.JStr? && Lower(f[i].0) == k
  }

  /** The keys of the normalized map are exactly the lowercased keys of string-valued items. */
  lemma {:induction false} NormalizeKeys(f: Fields, k: string)
    ensures k in NormalizeFields(f) <==> exists i :: StringItemFor(f, i, k)
    decreases |f|
  {
    if f != [] {
      var init := f[..|f| - 1];
      var (key, value) := f[|f| - 1];
      if value.JStr? && Lower(key) == k {
        assert StringItemFor(f, |f| - 1, k);
      } else {
        assert k in NormalizeFields(f) <==> k in NormalizeFields(init);
        NormalizeKeys(init, k);
        if exists i :: StringItemFor(init, i, k) {
          var i :| StringItemFor(init, i, k);
          assert StringItemFor(f, i, k);
        }
        if exists i :: StringItemFor(f, i, k) {
          var i :| StringItemFor(f, i, k);
          assert i < |f| - 1;
          assert StringItemFor(init, i, k);
        }
      }
    }
  }

  /**
   * A string-valued item that no later string-valued item collides with (after
   * lowercasing) gives the value stored under its key: later entries win.
   */
  lemma {:induction false} NormalizeLastWins(f: Fields, i: int)
    requires 0 <= i < |f| && f[i].1.JStr?
    requires forall j :: i < j < |f| ==> !StringItemFor(f, j, Lower(f[i].0))
    ensures Lower(f[i].0) in NormalizeFields(f)
    ensures NormalizeFields(f)[Lower(f[i].0)] == f[i].1.s
    decreases |f|
  {
    if i < |f| - 1 {
      var init := f[..|f| - 1];
      assert init[i] == f[i];
      forall j | i < j < |init|
        ensures !StringItemFor(init, j, Lower(init[i].0))
      {
        assert init[j] == f[j];
        assert !StringItemFor(f, j, Lower(f[i].0));
      }
      NormalizeLastWins(init, i);
      assert !StringItemFor(f, |f| - 1, Lower(f[i].0));
    }
  }

  /** Every stored value comes from a string-valued item whose key lowercases to its key. */
  lemma {:induction false} NormalizeValueOrigin(f: Fields, k: string)
    requires k in NormalizeFields(f)
    ensures exists i :: StringItemFor(f, i, k) && f[i].1.s == NormalizeFields(f)[k]
    decreases |f|
  {
    var init := f[..|f| - 1];
    var (key, value) := f[|f| - 1];
    if value.JStr? && Lower(key) == k {
      assert StringItemFor(f, |f| - 1, k);
    } else {
      NormalizeValueOrigin(init, k);
      var i :| StringItemFor(init, i, k) && init[i].1.s == NormalizeFields(init)[k];
      assert StringItemFor(f, i, k);
    }
  }

  /** Normalization only ever stores lower-case keys. */
  lemma {:induction false} NormalizeIsNormalized(raw: Json)
    ensures IsNormalized(Normalize(raw))
  {
    if raw.JObj? {
      forall k | k in Normalize(raw)
        ensures Lower(k) == k
      {
        NormalizeKeys(raw.fields, k);
        var i :| StringItemFor(raw.fields, i, k);
        LowerIdempotent(raw.fields[i].0);
      }
    }
  }

  /** `g` lists exactly the entries of `m`, each as a string value, in some order. */
  predicate ListsSchedule(g: Fields, m: Schedule)
  {
    && (forall i :: 0 <= i < |g| ==> g[i].0 in m && g[i].1 == JStr(m[g[i].0]))
    && (forall k :: k in m ==> exists i :: 0 <= i < |g| && g[i].0 == k)
  }

  /**
   * Normalization is idempotent: a dict holding the entries of a normalized map,
   * in any order, normalizes back to that same map.
   */
  lemma NormalizeIdempotent(raw: Json, g: Fields)
    requires ListsSchedule(g, Normalize(raw))
    ensures Normalize(JObj(g)) == Normalize(raw)
  {
    var m := Normalize(raw);
    var n := NormalizeFields(g);
    NormalizeIsNormalized(raw);
    forall k | k in m
      ensures k in n && n[k] == m[k]
    {
      var i :| 0 <= i < |g| && g[i].0 == k;
      assert StringItemFor(g, i, k);
      NormalizeKeys(g, k);
      NormalizeValueOrigin(g, k);
      var j :| StringItemFor(g, j, k) && g[j].1.s == n[k];
      assert Lower(g[j].0) == g[j].0;
    }
    forall k | k in n
      ensures k in m
    {
      NormalizeKeys(g, k);
      var i :| StringItemFor(g, i, k);
      assert Lower(g[i].0) == g[i].0;
    }
    assert n == m;
  }

  /** `{"FAJR":"05:00","extra":5}`: a non-string value is dropped and a key is lower-cased. */
  lemma NormalizeExample()
    ensures Normalize(JObj([("FAJR", JStr("05:00")), ("extra", JNum(5))])) == map["fajr" := "05:00"]
  {
    var f := [("FAJR", JStr("05:00")), ("extra", JNum(5))];
    assert f[..1] == [("FAJR", JStr("05:00"))];
    assert f[..1][..0] == [];
    assert Lower("FAJR") == "fajr";
    assert NormalizeFields(f[..1]) == map["fajr" := "05:00"];
    assert NormalizeFields(f) == NormalizeFields(f[..1]);
  }

  // ---------------------------------------------------------------------------
  // _find_schedule_in_iterable
  // ---------------------------------------------------------------------------

  /** `entry.get("Date") or entry.get("date") or entry.get("prayer_date")`. */
  function DateValue(entry: Fields): Json
  {
    Or(Or(Get(entry, "Date"), Get(entry, "date")), Get(entry, "prayer_date"))
  }

  /**
   * The entry is a dict whose date value is truthy and whose `str()` contains
   * the day of the month in decimal: a plain substring test.
   */
  predicate MatchesDay(entry: Json, day: nat)
  {
    && entry.JObj?
    && Truthy(DateValue(entry.fields))
    && ContainsSubstring(PyStr(DateValue(entry.fields)), Decimal(day))
  }

  /** `{k: v for k, v in entry.items() if k.lower() in _prayer_keys()}`. */
  function PrayerFields(f: Fields): Fields
  {
    if f == [] then []
    else
      var rest := PrayerFields(f[..|f| - 1]);
      if Lower(f[|f| - 1].0) in PrayerKeys() then rest + [f[|f| - 1]] else rest
  }

  /** `entry.get("Prayer") or entry.get("PrayerTiming") or <the prayer-named items>`. */
  function PrayerValues(entry: Fields): Json
  {
    Or(Or(Get(entry, "Prayer"), Get(entry, "PrayerTiming")), JObj(PrayerFields(entry)))
  }

  /** What `_find_schedule_in_iterable` returns for the elements `entries`, in order. */
  function FindInEntries(entries: seq<Json>, day: nat): Schedule
  {
    if entries == [] then map[]
    else if MatchesDay(entries[0], day) then Normalize(PrayerValues(entries[0].fields))
    else FindInEntries(entries[1..], day)
  }

  /** `_find_schedule_in_iterable`, as the loop with an early return the source runs. */
  method FindScheduleInIterable(data: Json, targetDate: CalendarDate) returns (r: Schedule)
    requires IsIterable(data)
    ensures r == FindInEntries(Elements(data), targetDate.day)
  {
    var entries := Elements(data);
    var day := targetDate.day;
    var i := 0;
    while i < |entries|
      invariant 0 <= i <= |entries|
      invariant FindInEntries(entries[i..], day) == FindInEntries(entries, day)
    {
      assert entries[i..][1..] == entries[i + 1..];
      var entry := entries[i];
      if !entry.JObj? {
        i := i + 1;
        continue;
      }
      var dateValue := DateValue(entry.fields);
      if Truthy(dateValue) && ContainsSubstring(PyStr(dateValue), Decimal(day)) {
        var prayerValues := PrayerValues(entry.fields);
        r := NormalizePrayerMap(prayerValues);
        return;
      }
      i := i + 1;
    }
    r := map[];
  }

  /** The first matching entry decides the result, even when what it yields is empty. */
  lemma {:induction false} FindFirstMatch(entries: seq<Json>, day: nat, i: int)
    requires 0 <= i < |entries| && MatchesDay(entries[i], day)
    requires forall j :: 0 <= j < i ==> !MatchesDay(entries[j], day)
    ensures FindInEntries(entries, day) == Normalize(PrayerValues(entries[i].fields))
    decreases i
  {
    if i > 0 {
      assert !MatchesDay(entries[0], day);
      forall j | 0 <= j < i - 1
        ensures !MatchesDay(entries[1..][j], day)
      {
        assert entries[1..][j] == entries[j + 1];
      }
      FindFirstMatch(entries[1..], day, i - 1);
    }
  }

  /** When no entry matches, the search gives the empty map. */
  lemma {:induction false} FindNoMatch(entries: seq<Json>, day: nat)
    requires forall j :: 0 <= j < |entries| ==> !MatchesDay(entries[j], day)
    ensures FindInEntries(entries, day) == map[]
    decreases |entries|
  {
    if entries != [] {
      assert !MatchesDay(entries[0], day);
      forall j | 0 <= j < |entries| - 1
        ensures !MatchesDay(entries[1..][j], day)
      {
        assert entries[1..][j] == entries[j + 1];
      }
      FindNoMatch(entries[1..], day);
    }
  }

  /** The elements that are dicts, in order. */
  function Dicts(entries: seq<Json>): (r: seq<Json>)
    ensures forall j :: 0 <= j < |r| ==> r[j].JObj?
    ensures forall x :: x in r <==> x in entries && x.JObj?
    ensures |r| <= |entries|
  {
    if entries == [] then []
    else if entries[0].JObj? then [entries[0]] + Dicts(entries[1..])
    else Dicts(entries[1..])
  }

  /** Elements that are not dicts are skipped: only the dicts, in order, decide. */
  lemma {:induction false} FindSkipsNonDicts(entries: seq<Json>, day: nat)
    ensures FindInEntries(entries, day) == FindInEntries(Dicts(entries), day)
    decreases |entries|
  {
    if entries != [] {
      FindSkipsNonDicts(entries[1..], day);
      if entries[0].JObj? {
        assert ([entries[0]] + Dicts(entries[1..]))[1..] == Dicts(entries[1..]);
      }
    }
  }

  /** A list of non-dicts (the characters of a string, the keys of a dict) never matches. */
  lemma NoDictsNoSchedule(entries: seq<Json>, day: nat)
    requires forall j :: 0 <= j < |entries| ==> !entries[j].JObj?
    ensures FindInEntries(entries, day) == map[]
  {
    FindNoMatch(entries, day);
  }

  /** `{k: v}` restricted to the keys in `keys`. */
  function Restrict(m: Schedule, keys: seq<string>): Schedule
  {
    map k | k in m && k in keys :: m[k]
  }

  /** Filtering by prayer name, then normalizing, is normalizing, then keeping the prayer names. */
  lemma {:induction false} PrayerFieldsNormalize(f: Fields)
    ensures NormalizeFields(PrayerFields(f)) == Restrict(NormalizeFields(f), PrayerKeys())
    decreases |f|
  {
    if f != [] {
      var init := f[..|f| - 1];
      var last := f[|f| - 1];
      var rest := PrayerFields(init);
      PrayerFieldsNormalize(init);
      if Lower(last.0) in PrayerKeys() {
        var g := rest + [last];
        assert g[..|g| - 1] == rest;
      }
    }
  }

  /**
   * An entry whose `Prayer` and `PrayerTiming` are both falsy yields only its own
   * string items whose lowercased key names one of the five prayers.
   */
  lemma EntryFallsBackToPrayerFields(entry: Fields)
    requires !Truthy(Get(entry, "Prayer")) && !Truthy(Get(entry, "PrayerTiming"))
    ensures Normalize(PrayerValues(entry)) == Restrict(NormalizeFields(entry), PrayerKeys())
    ensures forall k :: k in Normalize(PrayerValues(entry)) ==> k in PrayerKeys()
  {
    PrayerFieldsNormalize(entry);
  }

  // ---------------------------------------------------------------------------
  // _extract_schedule
  // ---------------------------------------------------------------------------

  /** `_extract_schedule(payload, target_date)`. */
  function ExtractSchedule(payload: Json, targetDate: CalendarDate): Schedule
  {
    if !Truthy(payload) then map[]
    else
      var fromDict: Option<Schedule> :=
        if payload.JObj? then
          var data := Get(payload.fields, "data");
          if data.JObj? && "Prayer" in Keys(data.fields) then Some(Normalize(Get(data.fields, "Prayer")))
          else if IsIterable(data) then Some(FindInEntries(Elements(data), targetDate.day))
          else if "Prayer" in Keys(payload.fields) then Some(Normalize(Get(payload.fields, "Prayer")))
          else None
        else None;
      if fromDict.Some? then fromDict.value
      else if IsIterable(payload) then FindInEntries(Elements(payload), targetDate.day)
      else map[]
  }

  /** Every falsy payload (None, False, 0, "", [], {}) gives the empty map. */
  lemma ExtractFalsy(payload: Json, targetDate: CalendarDate)
    requires !Truthy(payload)
    ensures ExtractSchedule(payload, targetDate) == map[]
  {
  }

  /** A `data` dict holding `Prayer` gives the normalization of that value. */
  lemma ExtractDataPrayer(payload: Json, targetDate: CalendarDate)
    requires payload.JObj? && Get(payload.fields, "data").JObj?
    requires "Prayer" in Keys(Get(payload.fields, "data").fields)
    ensures ExtractSchedule(payload, targetDate) == Normalize(Get(Get(payload.fields, "data").fields, "Prayer"))
  {
  }

  /**
   * A `data` value that is a dict without `Prayer`, or a string, is iterated
   * over its keys or characters and gives the empty map.
   */
  lemma ExtractDataWithoutRecords(payload: Json, targetDate: CalendarDate)
    requires payload.JObj?
    requires var data := Get(payload.fields, "data");
      (data.JObj? && "Prayer" !in Keys(data.fields)) || data.JStr?
    ensures ExtractSchedule(payload, targetDate) == map[]
  {
    var data := Get(payload.fields, "data");
    NoDictsNoSchedule(Elements(data), targetDate.day);
  }

  /** A `data` list is searched for the target day. */
  lemma ExtractDataList(payload: Json, targetDate: CalendarDate)
    requires payload.JObj? && Get(payload.fields, "data").JArr?
    ensures ExtractSchedule(payload, targetDate) == FindInEntries(Get(payload.fields, "data").items, targetDate.day)
  {
  }

  /**
   * The top-level `Prayer` is consulted only when `data` is absent or a scalar;
   * a dict with neither is iterated over its keys and gives the empty map.
   */
  lemma ExtractTopLevel(payload: Json, targetDate: CalendarDate)
    requires payload.JObj? && Truthy(payload) && !IsIterable(Get(payload.fields, "data"))
    ensures "Prayer" in Keys(payload.fields) ==>
              ExtractSchedule(payload, targetDate) == Normalize(Get(payload.fields, "Prayer"))
    ensures "Prayer" !in Keys(payload.fields) ==> ExtractSchedule(payload, targetDate) == map[]
  {
    if "Prayer" !in Keys(payload.fields) {
      NoDictsNoSchedule(Elements(payload), targetDate.day);
    }
  }

  /** A top-level list is searched for the target day; a non-empty string or a number gives nothing. */
  lemma ExtractNonDict(payload: Json, targetDate: CalendarDate)
    ensures payload.JArr? ==> ExtractSchedule(payload, targetDate) == FindInEntries(payload.items, targetDate.day)
    ensures payload.JStr? || payload.JNum? || payload.JBool? || payload.JNull? ==>
              ExtractSchedule(payload, targetDate) == map[]
  {
    if payload.JStr? {
      NoDictsNoSchedule(Elements(payload), targetDate.day);
    }
  }

  lemma {:induction false} FindIsNormalized(entries: seq<Json>, day: nat)
    ensures IsNormalized(FindInEntries(entries, day))
    decreases |entries|
  {
    if entries != [] {
      if MatchesDay(entries[0], day) {
        NormalizeIsNormalized(PrayerValues(entries[0].fields));
      } else {
        FindIsNormalized(entries[1..], day);
      }
    }
  }

  /** Whatever the payload, the parsed schedule has lower-case keys only. */
  lemma ExtractIsNormalized(payload: Json, targetDate: CalendarDate)
    ensures IsNormalized(ExtractSchedule(payload, targetDate))
  {
    if payload.JObj? {
      var data := Get(payload.fields, "data");
      if data.JObj? {
        NormalizeIsNormalized(Get(data.fields, "Prayer"));
      }
      if IsIterable(data) {
        FindIsNormalized(Elements(data), targetDate.day);
      }
      NormalizeIsNormalized(Get(payload.fields, "Prayer"));
    }
    if IsIterable(payload) {
      FindIsNormalized(Elements(payload), targetDate.day);
    }
  }

  /** `{"data":{"Prayer":{...}}}`: the nested prayer times are read and their keys lower-cased. */
  lemma ExtractNestedExample(targetDate: CalendarDate)
    ensures ExtractSchedule(
              JObj([("data", JObj([("Prayer", JObj([("Fajr", JStr("05:10")), ("Dhuhr", JStr("12:15"))]))]))]),
              targetDate)
            == map["fajr" := "05:10", "dhuhr" := "12:15"]
  {
    var times := [("Fajr", JStr("05:10")), ("Dhuhr", JStr("12:15"))];
    var data := [("Prayer", JObj(times))];
    var payload := [("data", JObj(data))];
    assert "Prayer" in Keys(data) by {
      assert data[0].0 == "Prayer";
    }
    assert Get(payload, "data") == JObj(data);
    assert Get(data, "Prayer") == JObj(times);
    assert times[..1] == [("Fajr", JStr("05:10"))];
    assert times[..1][..0] == [];
    assert Lower("Fajr") == "fajr";
    assert Lower("Dhuhr") == "dhuhr";
    assert NormalizeFields(times[..1]) == map["fajr" := "05:10"];
    assert NormalizeFields(times) == map["fajr" := "05:10", "dhuhr" := "12:15"];
  }

  /**
   * The day-record example: day 21 finds the record dated "2024-05-21", and so
   * does day 1, because the date test is a substring test.
   */
  lemma ExtractRecordsExample(targetDate: CalendarDate)
    requires targetDate.day == 21 || targetDate.day == 1
    ensures ExtractSchedule(
              JArr([JObj([("Date", JStr("2024-05-21")), ("Prayer", JObj([("Asr", JStr("15:40"))]))])]),
              targetDate)
            == map["asr" := "15:40"]
  {
    var times := [("Asr", JStr("15:40"))];
    var record := [("Date", JStr("2024-05-21")), ("Prayer", JObj(times))];
    var payload := JArr([JObj(record)]);
    RecordMatchesExample(record, targetDate.day);
    RecordScheduleExample(record);
    ExtractNonDict(payload, targetDate);
    assert FindInEntries(payload.items, targetDate.day) == Normalize(PrayerValues(record));
  }

  lemma RecordScheduleExample(record: Fields)
    requires record == [("Date", JStr("2024-05-21")), ("Prayer", JObj([("Asr", JStr("15:40"))]))]
    ensures Normalize(PrayerValues(record)) == map["asr" := "15:40"]
  {
    var times := [("Asr", JStr("15:40"))];
    assert record[..1] == [("Date", JStr("2024-05-21"))];
    assert Get(record, "Prayer") == JObj(times);
    assert PrayerValues(record) == JObj(times);
    assert times[..0] == [];
    assert Lower("Asr") == "asr";
  }

  lemma RecordMatchesExample(record: Fields, day: nat)
    requires record == [("Date", JStr("2024-05-21")), ("Prayer", JObj([("Asr", JStr("15:40"))]))]
    requires day == 21 || day == 1
    ensures MatchesDay(JObj(record), day)
  {
    assert record[..1] == [("Date", JStr("2024-05-21"))];
    assert Lookup(record[..1], "Date") == Some(JStr("2024-05-21"));
    assert record[1].0 != "Date";
    assert Lookup(record, "Date") == Lookup(record[..1], "Date");
    assert Get(record, "Date") == JStr("2024-05-21");
    assert DateValue(record) == JStr("2024-05-21");
    var hay := "2024-05-21";
    var needle := Decimal(day);
    if day == 21 {
      assert needle == "21";
      assert hay[8..10] == [hay[8], hay[9]] == "21";
      assert OccursAt(hay, needle, 8);
    } else {
      assert needle == "1";
      assert hay[9..10] == [hay[9]] == "1";
      assert OccursAt(hay, needle, 9);
    }
    ContainsSubstringIff(hay, needle);
  }

  // ---------------------------------------------------------------------------
  // PrayerAPI: request URL and fetch policy
  // ---------------------------------------------------------------------------

  /** `s.rstrip("?")`. */
  function RStripQuestion(s: string): (r: string)
    ensures |r| <= |s| && s[..|r|] == r
    ensures forall i :: |r| <= i < |s| ==> s[i] == '?'
    ensures r == [] || r[|r| - 1] != '?'
  {
    if s != [] && s[|s| - 1] == '?' then RStripQuestion(s[..|s| - 1]) else s
  }

  /** The errors `fetch_daily_schedule` catches. */
  datatype FetchError = UrlError | HttpError | Timeout | JsonDecodeError

  /** What one GET request produced: a caught error, or the decoded JSON body. */
  datatype FetchOutcome = Failure(error: FetchError) | Payload(data: Document)

  /** A `PrayerAPI` object: its three fields never change after construction. */
  datatype PrayerAPI = PrayerAPI(baseUrl: string, cityId: Json, timeout: int)
  {
    /** `build_url(month, year)`. */
    function BuildUrl(month: int, year: int): string
    {
      baseUrl + "?month=" + IntToString(month) + "&year=" + IntToString(year) + "&cityid=" + PyStr(cityId)
    }

    /**
     * `fetch_daily_schedule(target_date)`: the request goes to the URL for the
     * target date's month and year (today's when none is given); a non-empty
     * parse is returned, anything else gives the fallback. The result is never
     * empty.
     */
    function FetchDailySchedule(network: string -> FetchOutcome, targetDate: Option<CalendarDate>,
                                today: CalendarDate): (r: Schedule)
      ensures r != map[]
    {
      var day := targetDate.GetOr(today);
      assert "fajr" in Fallback();
      match network(BuildUrl(day.month, day.year))
      case Failure(_) => Fallback()
      case Payload(data) =>
        var parsed := ExtractSchedule(data, day);
        if parsed != map[] then parsed else Fallback()
    }
  }

  /** `PrayerAPI(base_url, city_id, timeout)`. */
  function NewPrayerAPI(baseUrl: string, cityId: Json, timeout: int): PrayerAPI
  {
    PrayerAPI(RStripQuestion(baseUrl), cityId, timeout)
  }

  /**
   * The request URL is the base URL without its trailing question marks,
   * then `?month=M&year=Y&cityid=C`, and the month and year read back.
   */
  lemma RequestUrl(baseUrl: string, cityId: Json, timeout: int, month: int, year: int)
    ensures var stem := NewPrayerAPI(baseUrl, cityId, timeout).baseUrl;
      && (stem == [] || stem[|stem| - 1] != '?')
      && baseUrl == stem + seq(|baseUrl| - |stem|, _ => '?')
      && NewPrayerAPI(baseUrl, cityId, timeout).BuildUrl(month, year)
         == stem + "?month=" + IntToString(month) + "&year=" + IntToString(year) + "&cityid=" + PyStr(cityId)
    ensures ParseInt(IntToString(month)) == Some(month) && ParseInt(IntToString(year)) == Some(year)
  {
    var stem := RStripQuestion(baseUrl);
    assert baseUrl == stem + seq(|baseUrl| - |stem|, _ => '?');
    IntToStringRoundTrip(month);
    IntToStringRoundTrip(year);
  }

  /** A query value: the characters of `s` up to its first `&`. */
  function UpToAmp(s: string): (r: string)
    ensures r <= s && (forall i :: 0 <= i < |r| ==> r[i] != '&')
    ensures |r| < |s| ==> s[|r|] == '&'
  {
    if s == [] || s[0] == '&' then [] else [s[0]] + UpToAmp(s[1..])
  }

  lemma {:induction false} UpToAmpPrefix(a: string, rest: string)
    requires forall i :: 0 <= i < |a| ==> a[i] != '&'
    requires |rest| > 0 && rest[0] == '&'
    ensures UpToAmp(a + rest) == a
  {
    if a != [] {
      assert (a + rest)[1..] == a[1..] + rest;
      UpToAmpPrefix(a[1..], rest);
    }
  }

  /** `str(n)` never holds a `&`. */
  lemma IntToStringNoAmp(n: int)
    ensures forall i :: 0 <= i < |IntToString(n)| ==> IntToString(n)[i] != '&'
  {
    if n < 0 {
      assert IntToString(n) == "-" + Decimal(-n);
    }
  }

  /**
   * Reading the request URL back: after the base URL comes `?month=`, the
   * value up to the next `&` parses to the month, then `&year=` follows and
   * the value up to the next `&` parses to the year.
   */
  lemma UrlQueryReadsBack(api: PrayerAPI, month: int, year: int)
    ensures var u := api.BuildUrl(month, year);
      var b := |api.baseUrl|;
      var m := IntToString(month);
      && |u| >= b + 7 + |m| + 6 && u[..b] == api.baseUrl && u[b..b + 7] == "?month="
      && UpToAmp(u[b + 7..]) == m
      && u[b + 7 + |m|..][..6] == "&year=" && UpToAmp(u[b + 7 + |m|..][6..]) == IntToString(year)
    ensures ParseInt(IntToString(month)) == Some(month) && ParseInt(IntToString(year)) == Some(year)
  {
    IntToStringNoAmp(month);
    IntToStringNoAmp(year);
    QuerySplit(api.baseUrl, IntToString(month), IntToString(year), PyStr(api.cityId));
    IntToStringRoundTrip(month);
    IntToStringRoundTrip(year);
  }

  /** A value that follows `pre` and runs up to an `&` is read back whole. */
  lemma ReadValue(pre: string, v: string, rest: string)
    requires forall i :: 0 <= i < |v| ==> v[i] != '&'
    requires |rest| > 0 && rest[0] == '&'
    ensures (pre + v + rest)[..|pre|] == pre
    ensures UpToAmp((pre + v + rest)[|pre|..]) == v
    ensures (pre + v + rest)[|pre| + |v|..] == rest
  {
    assert (pre + v + rest)[|pre|..] == v + rest;
    UpToAmpPrefix(v, rest);
  }

  /** The two values of `base?month=m&year=y&cityid=c` are recovered by reading up to `&`. */
  lemma QuerySplit(base: string, m: string, y: string, c: string)
    requires forall i :: 0 <= i < |m| ==> m[i] != '&'
    requires forall i :: 0 <= i < |y| ==> y[i] != '&'
    ensures var u := base + "?month=" + m + "&year=" + y + "&cityid=" + c;
      var b := |base|;
      && |u| >= b + 7 + |m| + 6 && u[..b] == base && u[b..b + 7] == "?month="
      && UpToAmp(u[b + 7..]) == m
      && u[b + 7 + |m|..][..6] == "&year=" && UpToAmp(u[b + 7 + |m|..][6..]) == y
  {
    var pre := base + "?month=";
    var tail := "&cityid=" + c;
    var yTail := "&year=" + y + tail;
    var u := base + "?month=" + m + "&year=" + y + "&cityid=" + c;
    assert u == pre + m + yTail;
    ReadValue(pre, m, yTail);
    assert u[..|base|] == pre[..|base|] == base;
    assert u[|base|..|base| + 7] == pre[|base|..] == "?month=";
    ReadValue("&year=", y, tail);
  }

  /**
   * The fetch policy: a non-empty parse of the payload is returned as it is;
   * a caught error or an empty parse gives exactly the fallback. Either way the
   * keys are lower-case.
   */
  lemma FetchPolicy(api: PrayerAPI, network: string -> FetchOutcome, targetDate: Option<CalendarDate>,
                    today: CalendarDate)
    ensures var day := targetDate.GetOr(today);
      var outcome := network(api.BuildUrl(day.month, day.year));
      var r := api.FetchDailySchedule(network, targetDate, today);
      && (outcome.Payload? && ExtractSchedule(outcome.data, day) != map[] ==> r == ExtractSchedule(outcome.data, day))
      && (outcome.Failure? || ExtractSchedule(outcome.data, day) == map[] ==> r == Fallback())
      && IsNormalized(r)
  {
    var day := targetDate.GetOr(today);
    var outcome := network(api.BuildUrl(day.month, day.year));
    FallbackHasEveryPrayer();
    if outcome.Payload? {
      ExtractIsNormalized(outcome.data, day);
    }
  }

  /** Only the built URL is requested: networks that agree on it give the same schedule. */
  lemma FetchReadsOnlyItsUrl(api: PrayerAPI, n1: string -> FetchOutcome, n2: string -> FetchOutcome,
                             targetDate: Option<CalendarDate>, today: CalendarDate)
    requires var day := targetDate.GetOr(today);
      n1(api.BuildUrl(day.month, day.year)) == n2(api.BuildUrl(day.month, day.year))
    ensures api.FetchDailySchedule(n1, targetDate, today) == api.FetchDailySchedule(n2, targetDate, today)
  {
  }

  /** A timeout gives exactly the five-entry fallback. */
  lemma FetchTimeout(api: PrayerAPI, targetDate: Option<CalendarDate>, today: CalendarDate)
    ensures api.FetchDailySchedule(_ => Failure(Timeout), targetDate, today) == Fallback()
    ensures |api.FetchDailySchedule(_ => Failure(Timeout), targetDate, today)| == 5
  {
    FallbackHasEveryPrayer();
  }
}
