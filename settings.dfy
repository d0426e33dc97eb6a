/**
 * Model of src/lonai/config/settings.py and src/lonai/config/constants.py:
 * flattening a parsed YAML configuration into setting names, resolving
 * relative paths against the project root, and the numeric bounds of the
 * settings.
 */
module Settings {
  import opened Text

  /** A value as `yaml.safe_load` returns it. Keys are rendered as strings. */
  datatype Yaml =
    | Null
    | Bool(flag: bool)                     // true/false, yes/no, on/off
    | Int(value: int)
    | Float(text: string, isZero: bool)    // kept as written, with whether it equals 0.0
    | Str(text: string)
    | Timestamp(text: string)              // a date or date-time object
    | Sequence(items: seq<Yaml>)
    | Mapping(entries: seq<(string, Yaml)>)

  /** Python truthiness of a loaded YAML value: None, False, 0, 0.0 and
      empty strings, lists and dicts are falsy; dates are always truthy. */
  predicate YamlTruthy(y: Yaml) {
    match y
    case Null => false
    case Bool(b) => b
    case Int(n) => n != 0
    case Float(_, zero) => !zero
    case Str(t) => t != []
    case Timestamp(_) => true
    case Sequence(items) => items != []
    case Mapping(entries) => entries != []
  }

  /** What `from_yaml` can end in: the flattened settings, or the error a
      truthy non-mapping document raises when its `items` are asked for. */
  datatype Flattened = Config(values: map<string, Yaml>) | NotAMapping

  /** The assignments one top-level entry makes, in order: every entry of a
      mapping section under "section_key", any other value under its own name. */
  function SectionWrites(entry: (string, Yaml)): seq<(string, Yaml)> {
    match entry.1
    case Mapping(inner) => seq(|inner|, i requires 0 <= i < |inner| => (entry.0 + "_" + inner[i].0, inner[i].1))
    case _ => [entry]
  }

  /** All assignments of a document, in iteration order. */
  function Writes(entries: seq<(string, Yaml)>): seq<(string, Yaml)> {
    if entries == [] then [] else Writes(entries[..|entries| - 1]) + SectionWrites(entries[|entries| - 1])
  }

  /** The dict the assignments build, starting from `start`. */
  function ApplyTo(start: map<string, Yaml>, writes: seq<(string, Yaml)>): map<string, Yaml> {
    if writes == [] then start
    else ApplyTo(start, writes[..|writes| - 1])[writes[|writes| - 1].0 := writes[|writes| - 1].1]
  }

  /** The dict the assignments build from nothing. */
  function Apply(writes: seq<(string, Yaml)>): map<string, Yaml> {
    ApplyTo(map[], writes)
  }

  /** Assigning `a` then `b` is assigning `a + b`. */
  lemma {:induction false} ApplyToAppend(start: map<string, Yaml>, a: seq<(string, Yaml)>, b: seq<(string, Yaml)>)
    ensures ApplyTo(start, a + b) == ApplyTo(ApplyTo(start, a), b)
    decreases |b|
  {
    if b == [] {
      assert a + b == a;
    } else {
      assert (a + b)[..|a + b| - 1] == a + b[..|b| - 1];
      ApplyToAppend(start, a, b[..|b| - 1]);
    }
  }

  /** The dict holds exactly the names assigned. */
  lemma {:induction false} ApplyKeys(writes: seq<(string, Yaml)>)
    ensures forall name :: name in Apply(writes) <==> exists i :: 0 <= i < |writes| && writes[i].0 == name
  {
    if writes != [] {
      var init := writes[..|writes| - 1];
      var last := writes[|writes| - 1];
      ApplyKeys(init);
      assert Apply(writes) == Apply(init)[last.0 := last.1];
      forall name | name in Apply(writes) ensures exists i :: 0 <= i < |writes| && writes[i].0 == name {
        if name != last.0 {
          var i :| 0 <= i < |init| && init[i].0 == name;
          assert writes[i].0 == name;
        }
      }
      forall name | exists i :: 0 <= i < |writes| && writes[i].0 == name ensures name in Apply(writes) {
        var i :| 0 <= i < |writes| && writes[i].0 == name;
        if i < |init| {
          assert init[i].0 == name;
        }
      }
    }
  }

  /** Each name holds the value of its last assignment. */
  lemma {:induction false} ApplyLastWins(writes: seq<(string, Yaml)>, j: nat)
    requires j < |writes| && forall k :: j < k < |writes| ==> writes[k].0 != writes[j].0
    ensures writes[j].0 in Apply(writes) && Apply(writes)[writes[j].0] == writes[j].1
  {
    var init := writes[..|writes| - 1];
    var last := writes[|writes| - 1];
    assert Apply(writes) == Apply(init)[last.0 := last.1];
    if j < |init| {
      assert init[j] == writes[j];
      ApplyLastWins(init, j);
    }
  }

  /** The assignments of one top-level entry, applied one by one. */
  method AssignSection(config: map<string, Yaml>, section: string, values: Yaml)
    returns (updated: map<string, Yaml>)
    ensures updated == ApplyTo(config, SectionWrites((section, values)))
  {
    if values.Mapping? {
      var inner := values.entries;
      ghost var w := SectionWrites((section, values));
      updated := config;
      var j := 0;
      assert w[..0] == [];
      while j < |inner|
        invariant 0 <= j <= |inner|
        invariant updated == ApplyTo(config, w[..j])
      {
        assert w[..j + 1][..j] == w[..j];
        updated := updated[section + "_" + inner[j].0 := inner[j].1];
        j := j + 1;
      }
      assert w[..j] == w;
    } else {
      updated := config[section := values];
      assert [(section, values)][..0] == [];
    }
  }

  /** `from_yaml` on a document: a missing file or a falsy document gives no
      settings; a mapping is flattened one level deep; anything else raises. */
  method FromYaml(fileExists: bool, document: Yaml) returns (result: Flattened)
    ensures !fileExists || !YamlTruthy(document) ==> result == Config(map[])
    ensures fileExists && YamlTruthy(document) && !document.Mapping? ==> result == NotAMapping
    ensures fileExists && document.Mapping? ==> result == Config(Apply(Writes(document.entries)))
  {
    var config: map<string, Yaml> := map[];
    if !fileExists || !YamlTruthy(document) {
      return Config(config);
    }
    if !document.Mapping? {
      return NotAMapping;
    }
    var entries := document.entries;
    var i := 0;
    while i < |entries|
      invariant 0 <= i <= |entries|
      invariant config == Apply(Writes(entries[..i]))
    {
      assert entries[..i + 1][..i] == entries[..i];
      ApplyToAppend(map[], Writes(entries[..i]), SectionWrites(entries[i]));
      config := AssignSection(config, entries[i].0, entries[i].1);
      i := i + 1;
    }
    assert entries[..i] == entries;
    return Config(config);
  }

  /** Every nested entry of a mapping section is assigned under
      "section_key", with its value as is (a nested mapping stays a value). */
  lemma {:induction false} WritesHoldSection(entries: seq<(string, Yaml)>, s: nat, k: nat)
    requires s < |entries| && entries[s].1.Mapping? && k < |entries[s].1.entries|
    ensures (entries[s].0 + "_" + entries[s].1.entries[k].0, entries[s].1.entries[k].1) in Writes(entries)
  {
    if s < |entries| - 1 {
      var init := entries[..|entries| - 1];
      assert init[s] == entries[s];
      WritesHoldSection(init, s, k);
    } else {
      var w := SectionWrites(entries[s]);
      assert w[k] == (entries[s].0 + "_" + entries[s].1.entries[k].0, entries[s].1.entries[k].1);
    }
  }

  /** Every non-mapping top-level value is assigned under its own name. */
  lemma {:induction false} WritesHoldTopLevel(entries: seq<(string, Yaml)>, s: nat)
    requires s < |entries| && !entries[s].1.Mapping?
    ensures entries[s] in Writes(entries)
  {
    if s < |entries| - 1 {
      var init := entries[..|entries| - 1];
      assert init[s] == entries[s];
      WritesHoldTopLevel(init, s);
    } else {
      assert SectionWrites(entries[s]) == [entries[s]];
    }
  }

  /** Without name collisions, every nested entry lands under "section_key"
      and every other top-level value under its own name. */
  lemma FlattenedEntries(entries: seq<(string, Yaml)>)
    requires var w := Writes(entries); forall i, j :: 0 <= i < j < |w| ==> w[i].0 != w[j].0
    ensures forall s, k :: 0 <= s < |entries| && entries[s].1.Mapping? && 0 <= k < |entries[s].1.entries| ==>
      var name := entries[s].0 + "_" + entries[s].1.entries[k].0;
      name in Apply(Writes(entries)) && Apply(Writes(entries))[name] == entries[s].1.entries[k].1
    ensures forall s :: 0 <= s < |entries| && !entries[s].1.Mapping? ==>
      entries[s].0 in Apply(Writes(entries)) && Apply(Writes(entries))[entries[s].0] == entries[s].1
  {
    var w := Writes(entries);
    forall s, k | 0 <= s < |entries| && entries[s].1.Mapping? && 0 <= k < |entries[s].1.entries|
      ensures var name := entries[s].0 + "_" + entries[s].1.entries[k].0;
        name in Apply(w) && Apply(w)[name] == entries[s].1.entries[k].1
    {
      WritesHoldSection(entries, s, k);
      var j :| 0 <= j < |w| && w[j] == (entries[s].0 + "_" + entries[s].1.entries[k].0, entries[s].1.entries[k].1);
      ApplyLastWins(w, j);
    }
    forall s | 0 <= s < |entries| && !entries[s].1.Mapping?
      ensures entries[s].0 in Apply(w) && Apply(w)[entries[s].0] == entries[s].1
    {
      WritesHoldTopLevel(entries, s);
      var j :| 0 <= j < |w| && w[j] == entries[s];
      ApplyLastWins(w, j);
    }
  }

  // ---------------------------------------------------------------------
  // Paths
  // ---------------------------------------------------------------------

  /** A file-system path: absolute or not, and its components. */
  datatype Path = Path(absolute: bool, parts: seq<string>)

  /** The path part of `ensure_path_exists`: None passes through, an absolute
      path is kept, a relative one is placed under the project root. */
  function ResolvePath(v: Option<Path>, projectRoot: Path): (r: Option<Path>)
    ensures v.None? ==> r.None?
    ensures v.Some? && v.value.absolute ==> r == v
    ensures v.Some? && !v.value.absolute ==>
      r == Some(Path(projectRoot.absolute, projectRoot.parts + v.value.parts))
  {
    if v.None? then None
    else if v.value.absolute then v
    else Some(Path(projectRoot.absolute, projectRoot.parts + v.value.parts))
  }

  /** With an absolute project root, every resolved path is absolute, so
      resolving twice is resolving once. */
  lemma ResolvePathIdempotent(v: Option<Path>, projectRoot: Path)
    requires projectRoot.absolute
    ensures var r := ResolvePath(v, projectRoot); r.Some? ==> r.value.absolute
    ensures ResolvePath(ResolvePath(v, projectRoot), projectRoot) == ResolvePath(v, projectRoot)
  {
  }

  // ---------------------------------------------------------------------
  // Numeric settings and their bounds
  // ---------------------------------------------------------------------

  const DEFAULT_MAX_RESULTS: int := 5
  const DEFAULT_TEMPERATURE: real := 0.7
  const DEFAULT_MAX_TOKENS: int := 4096
  const DEFAULT_CACHE_TTL: int := 3600

  /** The numeric settings pydantic checks. */
  datatype NumericSettings = NumericSettings(
    agentTemperature: real, agentMaxTokens: int, searchMaxResults: int, searchCacheTtl: int)

  const DEFAULTS: NumericSettings :=
    NumericSettings(DEFAULT_TEMPERATURE, DEFAULT_MAX_TOKENS, DEFAULT_MAX_RESULTS, DEFAULT_CACHE_TTL)

  /** The names of the fields whose bounds a value breaks. */
  function Violations(s: NumericSettings): (r: set<string>)
    ensures "agent_temperature" in r <==> !(0.0 <= s.agentTemperature <= 2.0)
    ensures "agent_max_tokens" in r <==> s.agentMaxTokens <= 0
    ensures "search_max_results" in r <==> !(0 < s.searchMaxResults <= 10)
    ensures "search_cache_ttl" in r <==> s.searchCacheTtl <= 0
    ensures r <= {"agent_temperature", "agent_max_tokens", "search_max_results", "search_cache_ttl"}
  {
    (if 0.0 <= s.agentTemperature <= 2.0 then {} else {"agent_temperature"})
    + (if s.agentMaxTokens > 0 then {} else {"agent_max_tokens"})
    + (if 0 < s.searchMaxResults <= 10 then {} else {"search_max_results"})
    + (if s.searchCacheTtl > 0 then {} else {"search_cache_ttl"})
  }

  /** Valid settings: temperature in [0, 2], max tokens above 0, search
      results in 1..10, cache TTL above 0. */
  predicate Valid(s: NumericSettings) {
    0.0 <= s.agentTemperature <= 2.0 && s.agentMaxTokens > 0
    && 0 < s.searchMaxResults <= 10 && s.searchCacheTtl > 0
  }

  /** A value is accepted exactly when no field is out of bounds, and the
      defaults are accepted. */
  lemma ValidIffNoViolation(s: NumericSettings)
    ensures Valid(s) <==> Violations(s) == {}
    ensures Valid(DEFAULTS)
  {
    if Violations(s) == {} {
      assert "agent_temperature" !in Violations(s);
    }
  }
}
