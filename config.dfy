/** `load_config`: the built-in defaults, shallowly merged with what the configuration file holds. */
module Config {
  import opened Wrappers
  import opened PyObjects

  /** The default `api.base_url`. */
  function DefaultBaseUrl(): string
  {
    "https://api-crm.iacad.gov.ae/api//prayertime/getprayerfromlink"
  }

  /** `DEFAULT_CONFIG`. */
  function DefaultConfig(): Fields
  {
    [ ("api", JObj([("base_url", JStr(DefaultBaseUrl())),
                    ("timeout", JNum(10))])),
      ("location", JObj([("city_id", JNum(1)), ("timezone", JStr("Asia/Dubai"))])),
      ("ui", JObj([("theme", JStr("desert"))])) ]
  }

  /** What looking for and reading the configuration file gave. */
  datatype ConfigFile =
    | Absent               // the path does not exist
    | Unreadable           // opening raised OSError, or decoding raised JSONDecodeError
    | Loaded(content: Document)

  /**
   * The value the merge stores under `key` for the loaded `value`: the default
   * section overlaid with it when both are dicts, otherwise the loaded value
   * as it is.
   */
  function MergedValue(defaults: Fields, key: string, value: Json): Json
  {
    var default := Get(defaults, key);
    if value.JObj? && default.JObj? then JObj(Overlay(default.fields, value.fields)) else value
  }

  /** `merged` once the loop has gone through the loaded items `loaded`, in order. */
  function MergeFields(defaults: Fields, loaded: Fields): Fields
  {
    if loaded == [] then defaults
    else
      var (key, value) := loaded[|loaded| - 1];
      SetField(MergeFields(defaults, loaded[..|loaded| - 1]), key, MergedValue(defaults, key, value))
  }

  /** `load_config` for a file that is absent, unreadable, or holds a JSON object. */
  function LoadedConfig(file: ConfigFile): Fields
    requires file.Loaded? ==> file.content.JObj?
  {
    match file
    case Absent => DefaultConfig()
    case Unreadable => DefaultConfig()
    case Loaded(content) => MergeFields(DefaultConfig(), content.fields)
  }

  /** `load_config`, as the loop the source runs over `loaded.items()`. */
  method LoadConfig(file: ConfigFile) returns (merged: Fields)
    requires file.Loaded? ==> file.content.JObj?
    ensures merged == LoadedConfig(file)
  {
    if !file.Loaded? {
      return DefaultConfig();
    }
    var loaded := file.content.fields;
    merged := DefaultConfig();
    for i := 0 to |loaded|
      invariant merged == MergeFields(DefaultConfig(), loaded[..i])
    {
      assert loaded[..i + 1][..i] == loaded[..i];
      var (key, value) := loaded[i];
      var default := Get(DefaultConfig(), key);
      if value.JObj? && default.JObj? {
        merged := SetField(merged, key, JObj(Overlay(default.fields, value.fields)));
      } else {
        merged := SetField(merged, key, value);
      }
    }
    assert loaded[..|loaded|] == loaded;
  }

  /** The merged keys are the default keys together with the loaded keys. */
  lemma {:induction false} MergeKeys(defaults: Fields, loaded: Fields)
    ensures Keys(MergeFields(defaults, loaded)) == Keys(defaults) + Keys(loaded)
    decreases |loaded|
  {
    if loaded != [] {
      var init := loaded[..|loaded| - 1];
      MergeKeys(defaults, init);
      assert loaded == init + [loaded[|loaded| - 1]];
      KeysSnoc(init, loaded[|loaded| - 1]);
    }
  }

  /**
   * A merged section is the merged value of the loaded item when the file has
   * the key, and the default section when it has not.
   */
  lemma {:induction false} MergeLookup(defaults: Fields, loaded: Fields, k: string)
    ensures Lookup(MergeFields(defaults, loaded), k) ==
            if k in Keys(loaded) then Some(MergedValue(defaults, k, Lookup(loaded, k).value))
            else Lookup(defaults, k)
    decreases |loaded|
  {
    if loaded != [] {
      var init := loaded[..|loaded| - 1];
      var last := loaded[|loaded| - 1];
      MergeLookup(defaults, init, k);
      assert Keys(loaded) == Keys(init) + {last.0} by {
        assert loaded == init + [last];
        KeysSnoc(init, last);
      }
      var m := MergeFields(defaults, init);
      var v := MergedValue(defaults, last.0, last.1);
      assert MergeFields(defaults, loaded) == SetField(m, last.0, v);
      if k == last.0 {
        assert k in Keys(loaded);
        assert Lookup(loaded, k) == Some(last.1);
        assert Lookup(SetField(m, last.0, v), k) == Some(v);
        assert v == MergedValue(defaults, k, Lookup(loaded, k).value);
      } else {
        assert (k in Keys(loaded)) == (k in Keys(init));
        assert Lookup(loaded, k) == Lookup(init, k);
        assert Lookup(SetField(m, last.0, v), k) == Lookup(m, k);
      }
    }
  }

  /** A default section whose key the file does not have is kept unchanged. */
  lemma MergeKeepsMissingSections(file: ConfigFile, k: string)
    requires file.Loaded? && file.content.JObj?
    requires k !in Keys(file.content.fields)
    ensures Lookup(LoadedConfig(file), k) == Lookup(DefaultConfig(), k)
  {
    MergeLookup(DefaultConfig(), file.content.fields, k);
  }

  /**
   * When both the loaded and the default value are dicts, the merged section
   * has the keys of both; a key the file sets takes the loaded value, and
   * every sibling default key keeps its default value.
   */
  lemma MergeOverlaysSections(file: ConfigFile, k: string)
    requires file.Loaded? && file.content.JObj?
    requires Lookup(file.content.fields, k).Some? && Lookup(file.content.fields, k).value.JObj?
    requires Get(DefaultConfig(), k).JObj?
    ensures var section := Lookup(LoadedConfig(file), k);
      var given := Lookup(file.content.fields, k).value.fields;
      var default := Get(DefaultConfig(), k).fields;
      && section.Some? && section.value.JObj?
      && Keys(section.value.fields) == Keys(default) + Keys(given)
      && forall k' :: Lookup(section.value.fields, k') ==
                      if k' in Keys(given) then Lookup(given, k') else Lookup(default, k')
  {
    var loaded := file.content.fields;
    MergeLookup(DefaultConfig(), loaded, k);
    var given := Lookup(loaded, k).value.fields;
    var default := Get(DefaultConfig(), k).fields;
    forall k' ensures Lookup(Overlay(default, given), k') ==
                      if k' in Keys(given) then Lookup(given, k') else Lookup(default, k') {
      OverlayLookup(default, given, k');
    }
  }

  /**
   * When either side is not a dict (a key the defaults do not know among them),
   * the loaded value is taken verbatim and replaces the default wholesale.
   */
  lemma MergeReplacesWholesale(file: ConfigFile, k: string)
    requires file.Loaded? && file.content.JObj?
    requires Lookup(file.content.fields, k).Some?
    requires !Lookup(file.content.fields, k).value.JObj? || !Get(DefaultConfig(), k).JObj?
    ensures Lookup(LoadedConfig(file), k) == Lookup(file.content.fields, k)
  {
    MergeLookup(DefaultConfig(), file.content.fields, k);
  }

  /** An absent or unreadable file, or an empty object, gives exactly the defaults. */
  lemma LoadFallsBackToDefaults(file: ConfigFile)
    requires file.Absent? || file.Unreadable? || file == Loaded(JObj([]))
    ensures LoadedConfig(file) == DefaultConfig()
  {
  }

  /** Every section that is a dict has distinct keys, as every dict does. */
  predicate SectionsDistinct(d: Fields)
  {
    forall i :: 0 <= i < |d| && d[i].1.JObj? ==> DistinctKeys(d[i].1.fields)
  }

  lemma {:induction false} MergeSelfPrefix(d: Fields, n: nat)
    requires DistinctKeys(d) && SectionsDistinct(d)
    requires n <= |d|
    ensures MergeFields(d, d[..n]) == d
  {
    if n > 0 {
      MergeSelfPrefix(d, n - 1);
      assert d[..n][..n - 1] == d[..n - 1];
      var (key, value) := d[n - 1];
      DistinctLookup(d, n - 1);
      if value.JObj? {
        OverlaySelf(value.fields);
      }
      assert MergedValue(d, key, value) == value;
      SetFieldUnchanged(d, key, value);
    }
  }

  /** Merging a config with itself gives it back. */
  lemma MergeSelf(d: Fields)
    requires DistinctKeys(d) && SectionsDistinct(d)
    ensures MergeFields(d, d) == d
  {
    MergeSelfPrefix(d, |d|);
    assert d[..|d|] == d;
  }

  /** The defaults are a document: no dict in them repeats a key. */
  lemma DefaultsWellFormed()
    ensures WellFormed(JObj(DefaultConfig()))
  {
    var d := DefaultConfig();
    assert DistinctKeys(d);
    forall i | 0 <= i < |d|
      ensures WellFormed(d[i].1)
    {
      var section := d[i].1.fields;
      assert DistinctKeys(section);
      assert forall j :: 0 <= j < |section| ==> WellFormed(section[j].1);
    }
  }

  /** A file that holds exactly the defaults merges to the defaults. */
  lemma MergeDefaults()
    ensures WellFormed(JObj(DefaultConfig()))
    ensures LoadedConfig(Loaded(JObj(DefaultConfig()))) == DefaultConfig()
  {
    DefaultsWellFormed();
    var d := DefaultConfig();
    assert DistinctKeys(d);
    assert SectionsDistinct(d);
    MergeSelf(d);
  }
}
