/** The centralised configuration: a YAML document (or the built-in
    default when the file is missing or malformed) read through dotted key
    paths, and the process-wide instance built on first use. */
module ConfigLoader {
  import opened Wrappers
  import opened Text
  import opened Assoc
  import opened JsonValue

  // ------------------------------------------------------ built-in default

  const LlmDefaults: Fields := [
    ("model", JStr("gpt-5-mini")),
    ("temperature_extraction", JFloat(0.1)),
    ("temperature_reranking", JFloat(0.2)),
    ("timeout", JInt(30000)),
    ("max_retries", JInt(3))]

  const RomeDefaults: Fields := [
    ("enabled", JBool(false)),
    ("base_url", JStr("https://api.francetravail.io/rome/v1")),
    ("timeout", JInt(10000)),
    ("max_retries", JInt(3))]

  const PathDefaults: Fields := [
    ("cv_input_folder", JStr("cv_input")),
    ("offres_folder", JStr("offres")),
    ("output_folder", JStr("output")),
    ("logs_folder", JStr("logs")),
    ("cache_folder", JStr("cache"))]

  const ScoringDefaults: Fields := [
    ("top_k", JInt(50)),
    ("top_rerank", JInt(10)),
    ("min_similarity", JFloat(0.3)),
    ("nice_have_malus_factor", JFloat(0.9)),
    ("bonus_experience_exacte", JFloat(0.15)),
    ("bonus_experience_tres_proche", JFloat(0.10)),
    ("bonus_experience_proche", JFloat(0.05)),
    ("score_min", JFloat(0.0)),
    ("score_max", JFloat(1.0))]

  /** `_default_config`. */
  const DefaultConfig: Json :=
    JObj([("llm", JObj(LlmDefaults)), ("rome", JObj(RomeDefaults)), ("paths", JObj(PathDefaults)), ("scoring", JObj(ScoringDefaults))])

  /** What reading the YAML file gave: a parsed document (`None` for an
      empty file), no file, or a YAML syntax error. */
  datatype YamlOutcome = Parsed(document: Json) | NotFound | Malformed

  /** `_load_yaml_config`: the parsed document, or the built-in default
      when the file is missing or malformed. */
  function LoadYamlConfig(outcome: YamlOutcome): (r: Json)
    ensures outcome.Parsed? ==> r == outcome.document
    ensures !outcome.Parsed? ==> r == DefaultConfig
  {
    if outcome.Parsed? then outcome.document else DefaultConfig
  }

  const DirectoryKeys: seq<string> := ["cv_input_folder", "offres_folder", "output_folder", "logs_folder", "cache_folder"]
  const DirectoryDefaults: seq<string> := ["cv_input", "offres", "output", "logs", "cache"]

  /** The directory entries `_create_directories` reads, with their
      defaults, `None` ones dropped. */
  function DirectoryEntries(paths: Json, i: nat): (ds: seq<Json>)
    requires paths.JObj? && i <= |DirectoryKeys|
    ensures forall d :: d in ds ==> d != JNull
    decreases |DirectoryKeys| - i
  {
    if i == |DirectoryKeys| then []
    else
      var d := Get(paths, DirectoryKeys[i], JStr(DirectoryDefaults[i]));
      (if d == JNull then [] else [d]) + DirectoryEntries(paths, i + 1)
  }

  /** `_create_directories` without the file system: the directories to
      create. The configuration and its `paths` entry must be dicts
      (`AttributeError` otherwise, so an empty YAML file makes the
      constructor fail), and every entry kept must be a string
      (`TypeError` from `Path` otherwise). */
  function Directories(config: Json): (r: Result<seq<string>>)
    ensures r.Ok? ==> config.JObj? && Get(config, "paths", JObj([])).JObj?
    ensures !config.JObj? ==> r == Err("AttributeError")
    ensures r.Ok? ==> |r.value| <= |DirectoryKeys|
  {
    if !config.JObj? then Err("AttributeError")
    else
      var paths := Get(config, "paths", JObj([]));
      if !paths.JObj? then Err("AttributeError")
      else
        var ds := DirectoryEntries(paths, 0);
        DirectoryEntriesLength(paths, 0);
        if forall d :: d in ds ==> d.JStr? then Ok(seq(|ds|, i requires 0 <= i < |ds| => ds[i].s))
        else Err("TypeError")
  }

  lemma {:induction false} DirectoryEntriesLength(paths: Json, i: nat)
    requires paths.JObj? && i <= |DirectoryKeys|
    ensures |DirectoryEntries(paths, i)| <= |DirectoryKeys| - i
    decreases |DirectoryKeys| - i
  {
    if i < |DirectoryKeys| {
      DirectoryEntriesLength(paths, i + 1);
    }
  }

  /** With the built-in default every directory has its default name. */
  lemma DefaultDirectories()
    ensures Directories(DefaultConfig) == Ok(DirectoryDefaults)
  {
    DefaultPaths();
    DefaultPathsDirectories(DefaultConfig);
  }

  /** Any configuration whose `paths` section is the default one gives the
      default names. */
  lemma DefaultPathsDirectories(config: Json)
    requires config.JObj? && Get(config, "paths", JObj([])) == JObj(PathDefaults)
    ensures Directories(config) == Ok(DirectoryDefaults)
  {
    PathDefaultsNamed();
    NamedEntries(JObj(PathDefaults), 0);
    var ds := DirectoryEntries(JObj(PathDefaults), 0);
    NamesOf(ds, DirectoryDefaults);
  }

  lemma DefaultPaths()
    ensures Get(DefaultConfig, "paths", JObj([])) == JObj(PathDefaults)
  {
    var fs := DefaultConfig.fields;
    assert fs[0].0 != "paths" by { assert fs[0].0[0] != "paths"[0]; }
    assert fs[1].0 != "paths" by { assert fs[1].0[0] != "paths"[0]; }
    assert Lookup(fs, "paths") == Lookup(fs[1..], "paths") == Lookup(fs[2..], "paths");
  }

  /** A `paths` section where every directory entry reads as its default. */
  predicate DefaultNamed(paths: Json) {
    paths.JObj? &&
    forall k :: 0 <= k < |DirectoryKeys| ==> Get(paths, DirectoryKeys[k], JStr(DirectoryDefaults[k])) == JStr(DirectoryDefaults[k])
  }

  lemma PathDefaultsNamed()
    ensures DefaultNamed(JObj(PathDefaults))
  {
    forall k | 0 <= k < |DirectoryKeys|
      ensures Get(JObj(PathDefaults), DirectoryKeys[k], JStr(DirectoryDefaults[k])) == JStr(DirectoryDefaults[k])
    {
      DefaultEntry(k);
    }
  }

  /** From entry `i` on, such a section gives the default names. */
  lemma {:induction false} NamedEntries(paths: Json, i: nat)
    requires DefaultNamed(paths) && i <= |DirectoryKeys|
    ensures var ds := DirectoryEntries(paths, i);
      |ds| == |DirectoryKeys| - i && forall k :: 0 <= k < |ds| ==> ds[k] == JStr(DirectoryDefaults[i + k])
    decreases |DirectoryKeys| - i
  {
    if i < |DirectoryKeys| {
      NamedEntries(paths, i + 1);
    }
  }

  /** The texts of a list of strings. */
  lemma NamesOf(ds: seq<Json>, xs: seq<string>)
    requires |ds| == |xs| && forall k :: 0 <= k < |ds| ==> ds[k] == JStr(xs[k])
    ensures forall d :: d in ds ==> d.JStr?
    ensures seq(|ds|, i requires 0 <= i < |ds| => ds[i].s) == xs
  {
  }

  lemma DefaultEntry(i: nat)
    requires i < |DirectoryKeys|
    ensures Get(JObj(PathDefaults), DirectoryKeys[i], JStr(DirectoryDefaults[i])) == JStr(DirectoryDefaults[i])
  {
    assert PathDefaults[i] == (DirectoryKeys[i], JStr(DirectoryDefaults[i]));
    forall j | 0 <= j < i ensures PathDefaults[j].0 != PathDefaults[i].0 {
      assert PathDefaults[j].0[1] != PathDefaults[i].0[1];
    }
    LookupFirstAt(PathDefaults, i);
  }

  /** The entry at `i` is the one read when no earlier entry has its key. */
  lemma {:induction false} LookupFirstAt(fs: Fields, i: nat)
    requires i < |fs|
    requires forall j :: 0 <= j < i ==> fs[j].0 != fs[i].0
    ensures Lookup(fs, fs[i].0) == Some(fs[i].1)
    decreases i
  {
    if i > 0 {
      LookupFirstAt(fs[1..], i - 1);
    }
  }

  // ------------------------------------------------------------ dotted keys

  /** One step of the walk: a key that is missing or maps to `None` stops it. */
  function Step(fields: Fields, key: string): (r: Option<Json>)
    ensures r.Some? <==> HasKey(fields, key) && Lookup(fields, key).value != JNull
    ensures r.Some? ==> r == Lookup(fields, key)
  {
    match Lookup(fields, key)
    case None => None
    case Some(v) => if v == JNull then None else Some(v)
  }

  /** The loop of `Config.get` over the key segments, front to back: a
      non-dict, a missing key or a `None` gives the default. */
  function Walk(value: Json, keys: seq<string>, default: Json): Json
    decreases |keys|
  {
    if keys == [] then value
    else if !value.JObj? then default
    else match Step(value.fields, keys[0])
      case None => default
      case Some(v) => Walk(v, keys[1..], default)
  }

  /** The value a key path reaches, defined from the last segment back:
      the path's prefix must reach a dict holding the last segment with a
      value other than `None`. */
  function Reach(value: Json, keys: seq<string>): (r: Option<Json>)
    ensures r.Some? && keys != [] ==> r.value != JNull
    decreases |keys|
  {
    if keys == [] then Some(value)
    else
      var prefix := Reach(value, keys[..|keys| - 1]);
      if prefix.Some? && prefix.value.JObj? then Step(prefix.value.fields, keys[|keys| - 1]) else None
  }

  /** `Config.get` returns the reached value, whatever its truthiness, and
      the default exactly when the path does not reach one. */
  lemma {:induction false} WalkReach(value: Json, keys: seq<string>, default: Json)
    ensures Walk(value, keys, default) == Reach(value, keys).GetOr(default)
    decreases |keys|
  {
    if keys != [] && value.JObj? {
      var s := Step(value.fields, keys[0]);
      if s.Some? {
        WalkReach(s.value, keys[1..], default);
        ReachCons(value, keys);
      } else {
        ReachCons(value, keys);
      }
    } else if keys != [] {
      ReachCons(value, keys);
    }
  }

  /** `Reach` read from the front. */
  lemma {:induction false} ReachCons(value: Json, keys: seq<string>)
    requires keys != []
    ensures Reach(value, keys) ==
      if value.JObj? && Step(value.fields, keys[0]).Some? then Reach(Step(value.fields, keys[0]).value, keys[1..]) else None
    decreases |keys|
  {
    if |keys| > 1 {
      var init := keys[..|keys| - 1];
      ReachCons(value, init);
      assert init[1..] == keys[1..][..|keys[1..]| - 1];
      assert init[0] == keys[0];
    }
  }

  /** Reading `p.k` is reading `k` in what `p` reaches. */
  lemma GetComposes(value: Json, p: string, k: string, default: Json)
    requires '.' !in k
    ensures var parent := Reach(value, Split(p, '.'));
      Walk(value, Split(p + "." + k, '.'), default) ==
        if parent.Some? && parent.value.JObj? then Step(parent.value.fields, k).GetOr(default) else default
  {
    SplitAppend(p, k, '.');
    SplitWhole(k, '.');
    var keys := Split(p, '.') + [k];
    assert keys[..|keys| - 1] == Split(p, '.');
    WalkReach(value, keys, default);
  }

  /** The loader's own default malus factor for missing nice-to-have
      skills. */
  lemma DefaultMalusFactor()
    ensures Reach(DefaultConfig, ["scoring", "nice_have_malus_factor"]) == Some(JFloat(0.9))
  {
    DefaultScoringSection();
    DefaultMalusEntry();
    var keys := ["scoring", "nice_have_malus_factor"];
    assert keys[..1] == ["scoring"];
    assert ["scoring"][..0] == [];
    assert Reach(DefaultConfig, ["scoring"]) == Some(JObj(ScoringDefaults));
  }

  lemma DefaultScoringSection()
    ensures Lookup(DefaultConfig.fields, "scoring") == Some(JObj(ScoringDefaults))
  {
    var fs := DefaultConfig.fields;
    assert fs[0].0 != "scoring" by { assert fs[0].0[0] != "scoring"[0]; }
    assert fs[1].0 != "scoring" by { assert fs[1].0[1] != "scoring"[1]; }
    assert fs[2].0 != "scoring" by { assert fs[2].0[0] != "scoring"[0]; }
    assert fs[1..][1..] == fs[2..] && fs[2..][1..] == fs[3..];
    assert Lookup(fs, "scoring") == Lookup(fs[1..], "scoring");
    assert Lookup(fs[1..], "scoring") == Lookup(fs[2..], "scoring") == Lookup(fs[3..], "scoring");
  }

  lemma DefaultMalusEntry()
    ensures Lookup(ScoringDefaults, "nice_have_malus_factor") == Some(JFloat(0.9))
  {
    var sc := ScoringDefaults;
    assert sc[0].0 != "nice_have_malus_factor" by { assert sc[0].0[0] != 'n'; }
    assert sc[1].0 != "nice_have_malus_factor" by { assert sc[1].0[0] != 'n'; }
    assert sc[2].0 != "nice_have_malus_factor" by { assert sc[2].0[0] != 'n'; }
    assert sc[1..][1..] == sc[2..] && sc[2..][1..] == sc[3..];
    assert Lookup(sc, "nice_have_malus_factor") == Lookup(sc[1..], "nice_have_malus_factor");
    assert Lookup(sc[1..], "nice_have_malus_factor") == Lookup(sc[2..], "nice_have_malus_factor") == Lookup(sc[3..], "nice_have_malus_factor");
  }

  // ----------------------------------------------------------------- Config

  /** `Config`: the configuration document and the path it came from. */
  class Config {
    const configPath: string
    var data: Json

    /** `Config.__init__` once the file has been read and the
        directories checked. */
    constructor(configPath: string, data: Json)
      ensures this.configPath == configPath && this.data == data
    {
      this.configPath := configPath;
      this.data := data;
    }

    /** `Config.get`. */
    method Get(keyPath: string, default: Json) returns (r: Json)
      ensures r == Reach(data, Split(keyPath, '.')).GetOr(default)
    {
      var keys := Split(keyPath, '.');
      var value := data;
      var i := 0;
      while i < |keys|
        invariant 0 <= i <= |keys|
        invariant Walk(data, keys, default) == Walk(value, keys[i..], default)
      {
        assert keys[i..][1..] == keys[i + 1..];
        if value.JObj? {
          var next := Step(value.fields, keys[i]);
          if next.None? {
            WalkReach(data, keys, default);
            return default;
          }
          value := next.value;
        } else {
          WalkReach(data, keys, default);
          return default;
        }
        i := i + 1;
      }
      WalkReach(data, keys, default);
      return value;
    }
  }

  /** Building a `Config`: the document is loaded, then the directory step
      may raise. */
  method NewConfig(configPath: string, outcome: YamlOutcome) returns (r: Result<Config>)
    ensures r.Ok? <==> Directories(LoadYamlConfig(outcome)).Ok?
    ensures r.Ok? ==> fresh(r.value) && r.value.configPath == configPath && r.value.data == LoadYamlConfig(outcome)
    ensures r.Err? ==> r.error == Directories(LoadYamlConfig(outcome)).error
  {
    var data := LoadYamlConfig(outcome);
    var dirs := Directories(data);
    if dirs.Err? {
      return Err(dirs.error);
    }
    var c := new Config(configPath, data);
    return Ok(c);
  }

  /** The module-level `_config_instance`. */
  class ConfigRegistry {
    var instance: Option<Config>

    constructor()
      ensures instance.None?
    {
      instance := None;
    }

    /** `get_config`: the first successful call builds the instance from
        its path; later calls return it and ignore their path. */
    method GetConfig(configPath: string, outcome: YamlOutcome) returns (r: Result<Config>)
      modifies this
      ensures old(instance).Some? ==> r == Ok(old(instance).value) && instance == old(instance)
      ensures old(instance).None? ==>
        (r.Ok? <==> Directories(LoadYamlConfig(outcome)).Ok?) &&
        (r.Ok? ==> fresh(r.value) && r.value.configPath == configPath && r.value.data == LoadYamlConfig(outcome) && instance == Some(r.value)) &&
        (r.Err? ==> instance.None?)
    {
      if instance.None? {
        r := NewConfig(configPath, outcome);
        if r.Ok? {
          instance := Some(r.value);
        }
      } else {
        r := Ok(instance.value);
      }
    }
  }
}
