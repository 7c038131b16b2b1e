# DubaiAthan core in Dafny

A model of the sequential core of the DubaiAthan prayer-time application, with proofs about it:

- **Prayer API** (`PrayerApi`). This is the response parser behind `PrayerAPI`. It covers `_extract_schedule`, `_find_schedule_in_iterable` and `_normalize_prayer_map`. It also covers the fetch decision of `fetch_daily_schedule`: a non-empty parse is returned, and anything else gives the five-entry fallback. It includes the request URL that `build_url` composes after the constructor's `rstrip("?")`.
- **Configuration** (`Config`). This is `DEFAULT_CONFIG` and the loop in `load_config` that merges a loaded object with it, section by section.
- **Scheduler** (`Scheduler`). `AthanScheduler` is a class with the fields `configuration` and `tasks`. Its methods are `configure` and `schedule_day`.
- **Manager** (`Manager`). `AthanManager` is a class that holds the config, the API client, the scheduler, the settings, the cached schedule and the cached date.

Two support modules model the Python behaviour the source relies on:

- `PyObjects` covers:
  - decoded JSON values, with objects kept as ordered key/value lists;
  - truthiness and `or`;
  - what iterating a list, dict or string yields;
  - `dict.get`, item assignment and `{**a, **b}`;
  - `str.lower` on ASCII;
  - `str()` of ints and of decoded values;
  - substring `in`.
- `Dates` covers `datetime.date` and `isoformat()`.

Effects become inputs:

- The network is a function from the request URL to a `FetchOutcome`. That outcome is either a caught error or the decoded JSON body.
- The configuration file is a `ConfigFile`: absent, unreadable, or a loaded JSON object.
- `date.today()` is a parameter. It is read twice on a refresh, so there are two clock parameters. The fetch reads `today` before its request (prayer_api.py line 25). The manager reads `todayAfterFetch` once the fetch has returned (athan_manager.py line 34). Without a target date, a refresh that runs across midnight therefore caches the schedule it fetched for one day under the next day's date.
- A decoded JSON value is a `Document`: no dict in it repeats a key. The network's payload and a loaded configuration file are documents.
- The manager counts its fetches in a ghost field. This lets the model prove when no second fetch happens.

Two details of the code a reader may not expect:

- The constructor's theme is `config.get("ui", {}).get("theme", "desert")`. An empty theme string is therefore kept; it is not replaced by `"desert"`.
- `_extract_schedule` can return `{}`. For example, a `"data"` dict without `"Prayer"` is iterated over its keys. Only `fetch_daily_schedule` turns an empty parse into the fallback.

## Model

| member | source | states |
|---|---|---|
| PyObjects.Or | DubaiAthan/core/prayer_api.py:69-74 | `x or y` is truthy iff one operand is; it is `x` when `x` is truthy, else `y` |
| PyObjects.Lookup | DubaiAthan/core/prayer_api.py:51 | `d[k]` exists exactly when `k` is a key of `d` |
| PyObjects.LookupIsLast | DubaiAthan/core/prayer_api.py:51 | when a key repeats, the last item with that key is what `d[k]` reads |
| PyObjects.GetOr | DubaiAthan/core/athan_manager.py:23 | `d.get(k, default)` is the default for a missing key, and `d[k]` otherwise |
| PyObjects.SetField | DubaiAthan/core/config.py:35-37 | after `d[k] = v` the keys are the old keys plus `k`, `d[k]` is `v`, and every other key reads as before |
| PyObjects.SetFieldUnchanged | DubaiAthan/core/config.py:37 | assigning the value a dict already holds leaves the dict equal to itself |
| PyObjects.Overlay | DubaiAthan/core/config.py:35 | the keys of `{**a, **b}` are the union of the keys of `a` and `b` |
| PyObjects.OverlayLookup | DubaiAthan/core/config.py:35 | in `{**a, **b}` a key of `b` reads its value from `b`, and any other key from `a` |
| PyObjects.OverlaySelf | DubaiAthan/core/config.py:35 | `{**d, **d}` equals `d` |
| PyObjects.LowerIdempotent | DubaiAthan/core/prayer_api.py:86 | lower-casing twice is the same as once |
| PyObjects.Decimal | DubaiAthan/core/prayer_api.py:70 | `str(day)` is a non-empty digit string without a leading zero, and is `"0"` only for 0 |
| PyObjects.DecimalValue | DubaiAthan/core/prayer_api.py:70 | the digits of `str(n)` read back as `n` |
| PyObjects.IntToStringRoundTrip | DubaiAthan/core/prayer_api.py:21 | `int(str(n)) == n` for every integer, negative ones included |
| PyObjects.ContainsSubstringIff | DubaiAthan/core/prayer_api.py:70 | `needle in hay` holds iff `needle` occurs in `hay` at some offset |
| Dates.ZeroPad | DubaiAthan/core/scheduler.py:22 | a zero-padded field has exactly the requested width |
| Dates.ZeroPadValue | DubaiAthan/core/scheduler.py:22 | a zero-padded field reads back as the number it pads |
| Dates.IsoFormatRoundTrip | DubaiAthan/core/scheduler.py:22 | `day.isoformat()` is ten characters `YYYY-MM-DD` and parses back to the same date |
| PrayerApi.FallbackHasEveryPrayer | DubaiAthan/core/prayer_api.py:37-43 | the fallback has exactly the five prayer keys of `_prayer_keys`, with lower-case keys |
| PrayerApi.NormalizePrayerMap | DubaiAthan/core/prayer_api.py:79-87 | the loop builds exactly `Normalize(raw)`; any non-dict gives `{}` |
| PrayerApi.NormalizeKeys | DubaiAthan/core/prayer_api.py:82-87 | a key is in the result iff some item with a string value lower-cases to it |
| PrayerApi.NormalizeLastWins | DubaiAthan/core/prayer_api.py:82-87 | a string item that no later string item collides with decides its key's value (later wins) |
| PrayerApi.NormalizeValueOrigin | DubaiAthan/core/prayer_api.py:82-87 | every value in the result is the string value of an item whose key lower-cases to it |
| PrayerApi.NormalizeIsNormalized | DubaiAthan/core/prayer_api.py:86 | every key of the result is lower-case |
| PrayerApi.NormalizeIdempotent | DubaiAthan/core/prayer_api.py:79-87 | normalizing a dict that lists a normalized schedule gives that schedule back |
| PrayerApi.NormalizeExample | DubaiAthan/core/prayer_api.py:82-87 | `{"FAJR":"05:00","extra":5}` normalizes to `{"fajr":"05:00"}` |
| PrayerApi.FindScheduleInIterable | DubaiAthan/core/prayer_api.py:64-77 | the loop with its early return computes `FindInEntries` over the iterated elements |
| PrayerApi.FindFirstMatch | DubaiAthan/core/prayer_api.py:66-76 | the first matching entry decides the result, even when its normalization is empty |
| PrayerApi.FindNoMatch | DubaiAthan/core/prayer_api.py:77 | when no entry matches the day the result is `{}` |
| PrayerApi.Dicts | DubaiAthan/core/prayer_api.py:67-68 | the result holds only dicts; a value is in it iff it is an entry and a dict; it is never longer than the entries |
| PrayerApi.FindSkipsNonDicts | DubaiAthan/core/prayer_api.py:67-68 | non-dict entries are ignored: the search over the dict entries alone gives the same result |
| PrayerApi.NoDictsNoSchedule | DubaiAthan/core/prayer_api.py:66-77 | with no dict entries (for example a string's characters) the search gives `{}` |
| PrayerApi.PrayerFieldsNormalize | DubaiAthan/core/prayer_api.py:74 | normalizing the prayer-named items equals normalizing all items restricted to the five prayer keys |
| PrayerApi.EntryFallsBackToPrayerFields | DubaiAthan/core/prayer_api.py:71-76 | with `Prayer` and `PrayerTiming` falsy the schedule holds only the entry's own prayer-named string fields |
| PrayerApi.ExtractFalsy | DubaiAthan/core/prayer_api.py:47-48 | a falsy payload extracts to `{}` |
| PrayerApi.ExtractDataPrayer | DubaiAthan/core/prayer_api.py:50-53 | a `data` dict containing `Prayer` extracts to the normalization of that value |
| PrayerApi.ExtractDataWithoutRecords | DubaiAthan/core/prayer_api.py:52-55 | a `data` dict without `Prayer`, or a `data` string, is iterated and gives `{}`, whatever a top-level `Prayer` holds |
| PrayerApi.ExtractDataList | DubaiAthan/core/prayer_api.py:54-55 | a `data` list is searched for the day |
| PrayerApi.ExtractTopLevel | DubaiAthan/core/prayer_api.py:56-61 | without an iterable `data`, a top-level `Prayer` is normalized; otherwise the dict is iterated over its keys and gives `{}` |
| PrayerApi.ExtractNonDict | DubaiAthan/core/prayer_api.py:60-62 | a list payload is searched for the day; a string gives `{}`, and so does a number, bool or null |
| PrayerApi.FindIsNormalized | DubaiAthan/core/prayer_api.py:64-77 | every key the search returns is lower-case |
| PrayerApi.ExtractIsNormalized | DubaiAthan/core/prayer_api.py:45-62 | every extracted key is lower-case |
| PrayerApi.ExtractNestedExample | DubaiAthan/core/prayer_api.py:50-53 | `{"data":{"Prayer":{"Fajr":"05:10","Dhuhr":"12:15"}}}` gives `{"fajr":"05:10","dhuhr":"12:15"}` |
| PrayerApi.ExtractRecordsExample | DubaiAthan/core/prayer_api.py:60-76 | a record dated `"2024-05-21"` is found for day 21, and also for day 1; the date test is a substring test |
| PrayerApi.RStripQuestion | DubaiAthan/core/prayer_api.py:15 | the result is a prefix of the input, only `?` was removed, and it does not end in `?` |
| PrayerApi.PrayerAPI.FetchDailySchedule | DubaiAthan/core/prayer_api.py:23-43 | the fetch never returns an empty schedule |
| PrayerApi.RequestUrl | DubaiAthan/core/prayer_api.py:14-21 | the URL is the base with every trailing `?` removed, then `?month=M&year=Y&cityid=C`; month and year are written as decimal digits that read back |
| PrayerApi.UrlQueryReadsBack | DubaiAthan/core/prayer_api.py:21 | in the built URL, the text after `?month=` up to the next `&` is the month's digits, `&year=` follows, and the text after it up to the next `&` is the year's digits; both parse back |
| PrayerApi.FetchPolicy | DubaiAthan/core/prayer_api.py:25-43 | a non-empty parse of the payload is returned as is; a caught error or an empty parse gives exactly the fallback; keys are lower-case |
| PrayerApi.FetchReadsOnlyItsUrl | DubaiAthan/core/prayer_api.py:25-28 | only the URL for the target date's month and year is requested |
| PrayerApi.FetchTimeout | DubaiAthan/core/prayer_api.py:34-43 | a timeout gives exactly the five-entry fallback |
| Config.LoadConfig | DubaiAthan/core/config.py:19-38 | the loop computes the merge of the loaded object onto the defaults; no file or an unreadable one gives the defaults |
| Config.MergeKeys | DubaiAthan/core/config.py:32-37 | the merged keys are the default keys together with the loaded keys |
| Config.MergeLookup | DubaiAthan/core/config.py:32-37 | each merged section is the merged value of the loaded item when the file has the key, else the default section |
| Config.MergeKeepsMissingSections | DubaiAthan/core/config.py:32 | a default section whose key the file lacks is kept unchanged |
| Config.MergeOverlaysSections | DubaiAthan/core/config.py:34-35 | when both values are dicts, the section has both key sets; loaded keys win and sibling defaults are kept |
| Config.MergeReplacesWholesale | DubaiAthan/core/config.py:36-37 | when either side is not a dict, the loaded value replaces the section verbatim |
| Config.LoadFallsBackToDefaults | DubaiAthan/core/config.py:21-29 | an absent or unreadable file, or an empty object, gives exactly the defaults |
| Config.MergeSelf | DubaiAthan/core/config.py:32-38 | merging a configuration onto itself gives it back |
| Config.DefaultsWellFormed | DubaiAthan/core/config.py:9-16 | the defaults are a document: no dict in them repeats a key |
| Config.MergeDefaults | DubaiAthan/core/config.py:32-38 | a file holding exactly the defaults merges to the defaults |
| Scheduler.TaskKeyInjective | DubaiAthan/core/scheduler.py:23 | distinct prayer names give distinct `label:name` keys for one label |
| Scheduler.TasksContents | DubaiAthan/core/scheduler.py:22-23 | every schedule name has the task `label:name` holding its time, and every task key is of that form |
| Scheduler.TasksCount | DubaiAthan/core/scheduler.py:23 | there are as many tasks as schedule entries |
| Scheduler.DayLabelReadsBack | DubaiAthan/core/scheduler.py:22 | the label is the day's ISO form, which parses back to the day, or `"unspecified"` without a day |
| Scheduler.AthanScheduler.constructor | DubaiAthan/core/scheduler.py:12-14 | configuration is `{"timezone": tz}` and there are no tasks |
| Scheduler.AthanScheduler.Configure | DubaiAthan/core/scheduler.py:16-18 | every given key takes its new value, other keys are unchanged, and tasks are untouched |
| Scheduler.AthanScheduler.ScheduleDay | DubaiAthan/core/scheduler.py:20-23 | tasks are replaced wholesale by the tasks of the schedule for the day's label; configuration is unchanged |
| Manager.DefaultsBoot | DubaiAthan/core/config.py:9-16 | the defaults boot; they give the default URL, city 1 with timeout 10, `Asia/Dubai` and `desert` |
| Manager.DefaultRequestUrl | DubaiAthan/core/prayer_api.py:19-21 | with the default URL and city, the May 2024 request is `<default url>?month=5&year=2024&cityid=1` |
| Manager.AthanManager.constructor | DubaiAthan/core/athan_manager.py:16-29 | config is the loaded config; client, timezone and theme come from it with their defaults; cache and date are empty |
| Manager.AthanManager.RefreshSchedule | DubaiAthan/core/athan_manager.py:31-37 | fetches once, for the target or the date read before the request; the cached date is the target or the date read after the fetch; cache and tasks hold the fetched non-empty schedule |
| Manager.AthanManager.GetPrayerSchedule | DubaiAthan/core/athan_manager.py:39-47 | fetches iff the cache is empty or another date is given, and then caches as `refresh_schedule` does; else returns the cache without fetching; a given date becomes the cached date |
| Manager.AthanManager.ApplySettings | DubaiAthan/core/athan_manager.py:49-60 | pairs go into settings and scheduler configuration, other keys unchanged; `get_timezone` shows a new timezone |
| Manager.TwoUndatedCalls | DubaiAthan/core/athan_manager.py:39-47 | two calls without a date fetch at most once, whatever the clock reads, and the second returns what the first did |
| Manager.RequestAnotherDay | DubaiAthan/core/athan_manager.py:39-55 | a dated call for a day other than the cached one fetches once more, and `get_cached_date` then returns that day |
| Manager.FreshManagerDefaults | DubaiAthan/core/athan_manager.py:16-29 | with no config file: timezone `Asia/Dubai`, theme `desert`, cached date today, default request URL |
| PyObjects.WellFormed | DubaiAthan/core/prayer_api.py:30 | defines a decoded document: every dict, at any depth, holds each key once |
| PyObjects.Truthy | DubaiAthan/core/prayer_api.py:47 | defines `bool(x)`: None, False, 0, `""`, `[]` and `{}` are falsy |
| PyObjects.Elements | DubaiAthan/core/prayer_api.py:54-55 | defines what `for x in j` visits: a list's items, a string's characters, a dict's keys |
| PyObjects.IsIterable | DubaiAthan/core/prayer_api.py:54-60 | defines `isinstance(x, Iterable)` for a decoded value: strings, lists and dicts are iterable |
| PyObjects.Get | DubaiAthan/core/prayer_api.py:69-73 | defines `d.get(k)`, with a missing key read as None; also used at lines 51, 53 and 58 |
| PyObjects.Keys | DubaiAthan/core/prayer_api.py:52-57 | defines `k in d` (lines 52 and 57) as membership in the set of item keys |
| PyObjects.Lower | DubaiAthan/core/prayer_api.py:86 | defines `str.lower()` on ASCII letters |
| PyObjects.IntToString | DubaiAthan/core/prayer_api.py:21 | defines `str()` of an int, with a sign for negatives |
| PyObjects.PyStr | DubaiAthan/core/prayer_api.py:70 | defines `str()` of a decoded value, with `repr` of strings inside lists and dicts |
| PyObjects.ContainsSubstring | DubaiAthan/core/prayer_api.py:70 | defines `needle in hay` for strings |
| Wrappers.Option.GetOr | DubaiAthan/core/athan_manager.py:34 | defines `target_date or date.today()`: the given date when there is one, else today |
| PrayerApi.PrayerKeys | DubaiAthan/core/prayer_api.py:89-91 | defines `_prayer_keys()`: the five prayer names |
| PrayerApi.Fallback | DubaiAthan/core/prayer_api.py:37-43 | defines the fallback schedule |
| PrayerApi.NormalizeFields | DubaiAthan/core/prayer_api.py:82-87 | defines the map `_normalize_prayer_map` builds from a dict's items, in order |
| PrayerApi.Normalize | DubaiAthan/core/prayer_api.py:79-87 | defines `_normalize_prayer_map`: a non-dict gives `{}` |
| PrayerApi.DateValue | DubaiAthan/core/prayer_api.py:69 | defines the first truthy of `Date`, `date` and `prayer_date` |
| PrayerApi.MatchesDay | DubaiAthan/core/prayer_api.py:67-70 | defines the entry test: a dict whose date value is truthy and contains `str(day)` |
| PrayerApi.PrayerFields | DubaiAthan/core/prayer_api.py:74 | defines the entry's prayer-named items, in order |
| PrayerApi.PrayerValues | DubaiAthan/core/prayer_api.py:71-75 | defines `Prayer or PrayerTiming or <prayer-named items>` |
| PrayerApi.FindInEntries | DubaiAthan/core/prayer_api.py:64-77 | defines the search: the first matching entry's normalized prayer values, or `{}` |
| PrayerApi.ExtractSchedule | DubaiAthan/core/prayer_api.py:45-62 | defines `_extract_schedule`'s branching |
| PrayerApi.PrayerAPI.BuildUrl | DubaiAthan/core/prayer_api.py:19-21 | defines `build_url` |
| PrayerApi.NewPrayerAPI | DubaiAthan/core/prayer_api.py:14-17 | defines the constructor: the base URL without trailing `?`, city and timeout kept |
| Config.DefaultConfig | DubaiAthan/core/config.py:9-16 | defines `DEFAULT_CONFIG` |
| Config.MergedValue | DubaiAthan/core/config.py:34-37 | defines the value the merge stores for one loaded item |
| Config.MergeFields | DubaiAthan/core/config.py:32-37 | defines `merged` after the loop has gone through the given items |
| Config.LoadedConfig | DubaiAthan/core/config.py:19-38 | defines `load_config` for each file outcome |
| Dates.IsoFormat | DubaiAthan/core/scheduler.py:22 | defines `date.isoformat()`: four-digit year, two-digit month and day, joined by `-` |
| Scheduler.DayLabel | DubaiAthan/core/scheduler.py:22 | defines `day.isoformat() if day else "unspecified"` |
| Scheduler.TaskKey | DubaiAthan/core/scheduler.py:23 | defines a task key `"<label>:<name>"` |
| Scheduler.Tasks | DubaiAthan/core/scheduler.py:23 | defines the task map `schedule_day` builds |
| Manager.PyInt | DubaiAthan/core/athan_manager.py:24 | defines `int(...)` of the timeout for an int or a bool |
| Manager.Section | DubaiAthan/core/athan_manager.py:18-19 | defines the items of `config.get(name, {})` when that value is a dict; also used at line 27 |
| Manager.ClientFor | DubaiAthan/core/athan_manager.py:18-25 | defines the client the constructor builds from the config |
| Manager.TimezoneFor | DubaiAthan/core/athan_manager.py:26 | defines `location.get("timezone", "Asia/Dubai")` |
| Manager.ThemeFor | DubaiAthan/core/athan_manager.py:27 | defines `config.get("ui", {}).get("theme", "desert")` |
| Manager.AthanManager.NeedsRefresh | DubaiAthan/core/athan_manager.py:41-45 | defines the refresh test: nothing cached, or a date given that is not the cached one |
| Manager.AthanManager.GetTimezone | DubaiAthan/core/athan_manager.py:49-51 | defines `get_timezone()`; ApplySettings and FreshManagerDefaults state what it returns |
| Manager.AthanManager.GetCachedDate | DubaiAthan/core/athan_manager.py:53-55 | defines `get_cached_date()`; RequestAnotherDay and FreshManagerDefaults state what it returns |

## Left out

- The network: `urlopen`, reading the response and UTF-8/JSON decoding are one input function from URL to outcome.
- Exceptions that escape are not modelled. In the fetch, that is any exception other than the four caught at prayer_api.py line 34. Examples are a `ValueError` from `urlopen` for a `base_url` without a scheme, `http.client` errors or `ConnectionResetError` while reading, and a `UnicodeDecodeError`. In `load_config`, it is any exception other than `JSONDecodeError` and `OSError` (config.py line 28), such as a `UnicodeDecodeError` from `json.load`. `FetchDailySchedule` returns a schedule in all of these cases, where the source raises.
- `json.loads` folds a key that an object repeats into one dict entry. The model does not decode text: a `Document` never repeats a key, so that folding is not modelled.
- The timeout value is carried in the client but has no effect. Whether a request times out is part of the outcome input.
- File-system access in `load_config`: the default path, `exists`, `open` and `json.load` become a `ConfigFile` input.
- `LoadConfig`: requires a loaded file to hold a JSON object. Any other top-level value makes `loaded.items()` raise, and that path is not modelled.
- `Manager.AthanManager.constructor`: requires a configuration where `__init__` does not raise. The `location`, `api` and `ui` sections must be dicts, `base_url` a string, and `timeout` an int or bool. `int()` of a string or float timeout is not modelled.
- `date.today()` is a parameter, not a clock. Each of its two readings in a refresh is a separate parameter.
- Floats are left out. JSON numbers are integers, so `str()` of a float date value is not modelled.
- `str.lower` is ASCII-only.
- `repr` escapes only backslash, the quote, newline, carriage return and tab. Other non-printable characters are not escaped.
- Dates run from year 1 to 9999, as `datetime.date` does.
- Aliasing: `DEFAULT_CONFIG.copy()` is shallow, so merged sections that are not overwritten share their nested dicts with the defaults. Nothing in the core mutates them. Under value semantics the sharing cannot be seen and is not modelled.
- The UI files (`ui/dashboard.py`, `ui/settings.py`) and `main.py` are display and wiring, and are not part of this model.
