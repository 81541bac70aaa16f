/**
 * app/config.py: the default configuration, load_config's shallow merge of
 * the user's YAML document over it, and the cache behind get_config and
 * save_config. Each default section is an object whose entries the merge
 * updates in place; because the top-level copy is shallow, the merged
 * configuration shares those objects with the defaults.
 */
module Config {
  import opened Common

  /** A YAML value. */
  datatype Value = Str(s: string) | Int(i: int) | Bool(b: bool) | Real(r: real) | Null
                 | List(items: seq<Value>) | Dict(entries: map<string, Value>)

  /** The parsed user file: a falsy document (empty, null, ...), a mapping in file order, or anything else. */
  datatype UserDoc = Falsy | Mapping(pairs: seq<(string, Value)>) | NotMapping

  /** A section dictionary of default_config. */
  class Section {
    var entries: map<string, Value>

    constructor (entries: map<string, Value>)
      ensures this.entries == entries
    {
      this.entries := entries;
    }
  }

  /** An entry of the merged configuration: a default section object, or a value the user added. */
  datatype Entry = Shared(section: Section) | Added(value: Value)

  /** The contents of default_config. */
  const AppDefaults: map<string, Value> := map["host" := Str("0.0.0.0"), "port" := Int(8000), "debug" := Bool(false)]
  const DatabaseDefaults: map<string, Value> := map["path" := Str("app/data/contracts.db")]
  const LlmDefaults: map<string, Value> :=
    map["provider" := Str("ollama"), "model" := Str("llama3.2"), "temperature" := Real(0.3),
        "base_url" := Str("http://localhost:11434"), "use_llm" := Bool(true)]
  const EmbeddingsDefaults: map<string, Value> := map["model" := Str("text-embedding-3-small"), "use_embeddings" := Bool(false)]
  const TaskDefaults: map<string, Value> := map["max_retries" := Int(3), "retry_delay" := Int(2)]
  const LoggingDefaults: map<string, Value> :=
    map["level" := Str("INFO"), "format" := Str("%(asctime)s - %(name)s - %(levelname)s - %(message)s")]

  const DefaultContents: map<string, map<string, Value>> :=
    map["app" := AppDefaults, "database" := DatabaseDefaults, "llm" := LlmDefaults,
        "embeddings" := EmbeddingsDefaults, "task" := TaskDefaults, "logging" := LoggingDefaults]

  /** default_config's sections, in their order. */
  const SectionNames: seq<string> := ["app", "database", "llm", "embeddings", "task", "logging"]

  lemma SectionNamesAreDefaults()
    ensures DefaultContents.Keys == set name | name in SectionNames
  {
  }

  /** A mapping document never repeats a key. */
  predicate DistinctNames(pairs: seq<(string, Value)>)
  {
    forall i, j :: 0 <= i < j < |pairs| ==> pairs[i].0 != pairs[j].0
  }

  // ---------------------------------------------------------------------------
  // The merge, on values
  // ---------------------------------------------------------------------------

  /**
   * The state of the merge: the contents of the default sections, the
   * sections the user added, and the section whose update raised, if any.
   */
  datatype Merge = Merge(sections: map<string, map<string, Value>>, added: map<string, Value>, failedAt: Option<string>)

  /** One iteration of load_config's loop. */
  function MergeStep(m: Merge, name: string, v: Value): Merge
  {
    if name in m.sections then
      match v
      case Dict(u) => m.(sections := m.sections[name := m.sections[name] + u])
      case _ => m.(failedAt := Some(name))
    else m.(added := m.added[name := v])
  }

  /** The loop over the user's sections, stopping at the first update that raises. */
  function MergeAll(base: map<string, map<string, Value>>, pairs: seq<(string, Value)>): Merge
  {
    if pairs == [] then Merge(base, map[], None)
    else
      var prev := MergeAll(base, pairs[..|pairs| - 1]);
      if prev.failedAt.Some? then prev else MergeStep(prev, pairs[|pairs| - 1].0, pairs[|pairs| - 1].1)
  }

  /** A step that raises leaves the section contents as they were. */
  lemma MergeStepKeepsSections(m: Merge, name: string, v: Value)
    requires m.failedAt.None?
    ensures MergeStep(m, name, v).failedAt.Some? ==> MergeStep(m, name, v).sections == m.sections
  {
  }

  /** One more user section, before any failure, is one more merge step. */
  lemma MergeAllStep(base: map<string, map<string, Value>>, pairs: seq<(string, Value)>, i: nat)
    requires i < |pairs| && MergeAll(base, pairs[..i]).failedAt.None?
    ensures MergeAll(base, pairs[..i + 1]) == MergeStep(MergeAll(base, pairs[..i]), pairs[i].0, pairs[i].1)
  {
    assert pairs[..i + 1][..i] == pairs[..i];
  }

  /** The merge keeps the set of default sections, and adds only the user's new names. */
  lemma {:induction false} MergeShape(base: map<string, map<string, Value>>, pairs: seq<(string, Value)>)
    ensures MergeAll(base, pairs).sections.Keys == base.Keys
    ensures forall k :: k in MergeAll(base, pairs).added ==> k !in base && exists i :: 0 <= i < |pairs| && pairs[i].0 == k
  {
    if pairs != [] {
      MergeShape(base, pairs[..|pairs| - 1]);
      var prev := MergeAll(base, pairs[..|pairs| - 1]);
      forall k | k in MergeAll(base, pairs).added
        ensures exists i :: 0 <= i < |pairs| && pairs[i].0 == k
      {
        if k in prev.added {
          var i :| 0 <= i < |pairs| - 1 && pairs[..|pairs| - 1][i].0 == k;
          assert pairs[i].0 == k;
        } else {
          assert pairs[|pairs| - 1].0 == k;
        }
      }
    }
  }

  /** The merge fails exactly when some user section that exists in the defaults is not a mapping. */
  lemma {:induction false} MergeFails(base: map<string, map<string, Value>>, pairs: seq<(string, Value)>)
    ensures MergeAll(base, pairs).failedAt.None? <==> forall i :: 0 <= i < |pairs| && pairs[i].0 in base ==> pairs[i].1.Dict?
    ensures MergeAll(base, pairs).failedAt.Some? ==> MergeAll(base, pairs).failedAt.value in base
  {
    if pairs != [] {
      var init := pairs[..|pairs| - 1];
      MergeFails(base, init);
      MergeShape(base, init);
      assert forall i :: 0 <= i < |init| ==> init[i] == pairs[i];
    }
  }

  /** A default section the user names ends up as its defaults overridden by the user's mapping. */
  lemma {:induction false} MergeOverridesSection(base: map<string, map<string, Value>>, pairs: seq<(string, Value)>,
                                                 i: nat, u: map<string, Value>)
    requires DistinctNames(pairs) && MergeAll(base, pairs).failedAt.None?
    requires i < |pairs| && pairs[i].0 in base && pairs[i].1 == Dict(u)
    ensures pairs[i].0 in MergeAll(base, pairs).sections
    ensures MergeAll(base, pairs).sections[pairs[i].0] == base[pairs[i].0] + u
    decreases |pairs|
  {
    var name := pairs[i].0;
    var init := pairs[..|pairs| - 1];
    MergeShape(base, init);
    MergeShape(base, pairs);
    if i == |pairs| - 1 {
      MergeUntouched(base, init, name);
    } else {
      assert init[i] == pairs[i];
      assert DistinctNames(init);
      MergeOverridesSection(base, init, i, u);
    }
  }

  /**
   * A default section the user names is updated key by key: the user's keys
   * take the user's values, and the keys the user omits keep theirs.
   */
  lemma MergeUpdatesSection(base: map<string, map<string, Value>>, pairs: seq<(string, Value)>,
                            i: nat, u: map<string, Value>)
    requires DistinctNames(pairs) && MergeAll(base, pairs).failedAt.None?
    requires i < |pairs| && pairs[i].0 in base && pairs[i].1 == Dict(u)
    ensures pairs[i].0 in MergeAll(base, pairs).sections
    ensures var sec := MergeAll(base, pairs).sections[pairs[i].0];
            && (forall k :: k in u ==> k in sec && sec[k] == u[k])
            && (forall k :: k in base[pairs[i].0] && k !in u ==> k in sec && sec[k] == base[pairs[i].0][k])
            && sec.Keys == base[pairs[i].0].Keys + u.Keys
  {
    MergeOverridesSection(base, pairs, i, u);
  }

  /** A section the user does not name keeps its contents, whether or not the merge fails. */
  lemma {:induction false} MergeUntouched(base: map<string, map<string, Value>>, pairs: seq<(string, Value)>, name: string)
    requires name in base && forall i :: 0 <= i < |pairs| ==> pairs[i].0 != name
    ensures name in MergeAll(base, pairs).sections && MergeAll(base, pairs).sections[name] == base[name]
  {
    if pairs != [] {
      MergeShape(base, pairs[..|pairs| - 1]);
      MergeUntouched(base, pairs[..|pairs| - 1], name);
    }
  }

  /** A user section absent from the defaults is added verbatim. */
  lemma {:induction false} MergeAddsSection(base: map<string, map<string, Value>>, pairs: seq<(string, Value)>, i: nat)
    requires DistinctNames(pairs) && MergeAll(base, pairs).failedAt.None?
    requires i < |pairs| && pairs[i].0 !in base
    ensures pairs[i].0 in MergeAll(base, pairs).added && MergeAll(base, pairs).added[pairs[i].0] == pairs[i].1
  {
    var init := pairs[..|pairs| - 1];
    MergeShape(base, init);
    if i < |pairs| - 1 {
      assert init[i] == pairs[i];
      assert DistinctNames(init);
      MergeAddsSection(base, init, i);
      assert pairs[|pairs| - 1].0 != pairs[i].0;
    }
  }

  /** Once an update raises, the later sections are never looked at. */
  lemma {:induction false} MergeFailureSticks(base: map<string, map<string, Value>>, pairs: seq<(string, Value)>, n: nat)
    requires n <= |pairs| && MergeAll(base, pairs[..n]).failedAt.Some?
    ensures MergeAll(base, pairs) == MergeAll(base, pairs[..n])
    decreases |pairs|
  {
    if n < |pairs| {
      var init := pairs[..|pairs| - 1];
      assert init[..n] == pairs[..n];
      MergeFailureSticks(base, init, n);
    } else {
      assert pairs[..n] == pairs;
    }
  }

  // ---------------------------------------------------------------------------
  // The store
  // ---------------------------------------------------------------------------

  /** The module-level state of app/config.py: default_config's section objects and get_config's cache. */
  /**
   * The sections the constructor has made from the first `i` default names:
   * one object per name, holding that section's defaults, no two shared.
   */
  ghost predicate Built(sections: map<string, Section>, i: nat)
    reads sections.Values
  {
    && i <= |SectionNames|
    && sections.Keys == (set name | name in SectionNames[..i])
    && (forall name :: name in sections ==> name in DefaultContents && sections[name].entries == DefaultContents[name])
    && (forall a, b :: a in sections && b in sections && a != b ==> sections[a] != sections[b])
  }

  /** One turn of the constructor's loop: a new object for the `i`th default section. */
  method AddDefaultSection(sections: map<string, Section>, i: nat) returns (sections': map<string, Section>)
    requires i < |SectionNames| && Built(sections, i)
    requires SectionNames[i] in DefaultContents
    ensures Built(sections', i + 1)
  {
    var name := SectionNames[i];
    var section := new Section(DefaultContents[name]);
    sections' := sections[name := section];
  }

  class ConfigStore {
    const defaults: map<string, Section>
    var cached: Option<map<string, Entry>>

    /** Distinct sections are distinct objects. */
    ghost predicate Valid()
    {
      forall a, b :: a in defaults && b in defaults && a != b ==> defaults[a] != defaults[b]
    }

    /** What the default section objects hold now. */
    ghost function Contents(): map<string, map<string, Value>>
      reads defaults.Values
    {
      map name | name in defaults :: defaults[name].entries
    }

    /** default_config itself: every default section, shared. */
    function DefaultConfig(): (config: map<string, Entry>)
      ensures config.Keys == defaults.Keys
      ensures forall k :: k in defaults ==> config[k] == Shared(defaults[k])
    {
      map name | name in defaults :: Shared(defaults[name])
    }

    constructor ()
      ensures Valid() && cached == None
      ensures defaults.Keys == DefaultContents.Keys
      ensures forall name :: name in defaults ==> defaults[name].entries == DefaultContents[name]
    {
      var sections: map<string, Section> := map[];
      SectionNamesAreDefaults();
      for i := 0 to |SectionNames|
        invariant Built(sections, i)
      {
        sections := AddDefaultSection(sections, i);
      }
      defaults := sections;
      cached := None;
    }

    /** One section update of the loop: `config[name].update(u)`. */
    method UpdateSection(name: string, u: map<string, Value>)
      requires Valid() && name in defaults
      modifies defaults[name]
      ensures Contents() == old(Contents())[name := old(Contents())[name] + u]
    {
      defaults[name].entries := defaults[name].entries + u;
    }

    /**
     * load_config. `file` is the parsed config.yaml, None when there is no
     * file. Without a file the result is default_config itself. Otherwise
     * the user's sections are merged in file order: a default section is
     * updated in place (so default_config changes too), a new section is
     * added to the copy, and a non-mapping value for a default section raises,
     * leaving the earlier updates in place. A falsy document merges nothing;
     * a document that is not a mapping raises before any update.
     */
    method LoadConfig(file: Option<UserDoc>) returns (r: Result<map<string, Entry>, string>)
      requires Valid()
      requires file.Some? && file.value.Mapping? ==> DistinctNames(file.value.pairs)
      modifies defaults.Values
      ensures file.None? || file == Some(Falsy) ==> r == Ok(DefaultConfig()) && Contents() == old(Contents())
      ensures file == Some(NotMapping) ==> r.Err? && Contents() == old(Contents())
      ensures file.Some? && file.value.Mapping? ==>
        var m := MergeAll(old(Contents()), file.value.pairs);
        && Contents() == m.sections
        && (r.Err? <==> m.failedAt.Some?)
        && (r.Ok? ==> r.value.Keys == defaults.Keys + m.added.Keys
                      && (forall k :: k in defaults ==> r.value[k] == Shared(defaults[k]))
                      && (forall k :: k in m.added ==> r.value[k] == Added(m.added[k])))
    {
      if file.None? {
        return Ok(DefaultConfig());
      }
      match file.value
      case NotMapping =>
        return Err("'user_config' has no attribute 'items'");
      case Falsy =>
        return Ok(DefaultConfig());
      case Mapping(pairs) =>
        r := MergeUser(pairs);
    }

    /** The loop of load_config over the user's sections. */
    method MergeUser(pairs: seq<(string, Value)>) returns (r: Result<map<string, Entry>, string>)
      requires Valid() && DistinctNames(pairs)
      modifies defaults.Values
      ensures var m := MergeAll(old(Contents()), pairs);
        && Contents() == m.sections
        && (r.Err? <==> m.failedAt.Some?)
        && (r.Ok? ==> r.value.Keys == defaults.Keys + m.added.Keys
                      && (forall k :: k in defaults ==> r.value[k] == Shared(defaults[k]))
                      && (forall k :: k in m.added ==> r.value[k] == Added(m.added[k])))
    {
      ghost var base := Contents();
      var config := DefaultConfig();
      ghost var added: map<string, Value> := map[];
      for i := 0 to |pairs|
        invariant Valid()
        invariant MergeAll(base, pairs[..i]) == Merge(Contents(), added, None)
        invariant Configured(config, added)
      {
        var name := pairs[i].0;
        MergeAllStep(base, pairs, i);
        MergeShape(base, pairs[..i]);
        assert name !in added;
        ghost var before := Contents();
        ghost var step := MergeStep(Merge(before, added, None), name, pairs[i].1);
        assert MergeAll(base, pairs[..i + 1]) == step;
        MergeStepKeepsSections(Merge(before, added, None), name, pairs[i].1);
        var failed;
        config, added, failed := MergeSection(config, added, name, pairs[i].1);
        if failed {
          MergeFailureSticks(base, pairs, i + 1);
          assert step.sections == before == Contents();
          r := Err("dictionary update sequence element #0 is not a pair");
          return;
        }
      }
      assert pairs[..|pairs|] == pairs;
      assert MergeAll(base, pairs) == Merge(Contents(), added, None);
      return Ok(config);
    }

    /** The merged configuration under construction: the shared defaults plus the added sections. */
    ghost predicate Configured(config: map<string, Entry>, added: map<string, Value>)
    {
      && config.Keys == defaults.Keys + added.Keys
      && (forall k :: k in defaults ==> config[k] == Shared(defaults[k]))
      && (forall k :: k in added ==> k !in defaults && config[k] == Added(added[k]))
    }

    /** Adding a section the defaults do not have keeps the configuration well formed. */
    lemma ConfiguredAdd(config: map<string, Entry>, added: map<string, Value>, name: string, v: Value)
      requires Configured(config, added) && name !in defaults
      ensures Configured(config[name := Added(v)], added[name := v])
    {
    }

    /** One iteration of load_config's loop: update a default section, add a new one, or raise. */
    method MergeSection(config: map<string, Entry>, ghost added: map<string, Value>, name: string, values: Value)
      returns (config': map<string, Entry>, ghost added': map<string, Value>, failed: bool)
      requires Valid() && Configured(config, added) && name !in added
      modifies defaults.Values
      ensures var m := MergeStep(Merge(old(Contents()), added, None), name, values);
        && (failed <==> m.failedAt.Some?)
        && (failed ==> Contents() == old(Contents()))
        && (!failed ==> m == Merge(Contents(), added', None) && Configured(config', added'))
    {
      ghost var before := Contents();
      assert before.Keys == defaults.Keys;
      config', added', failed := config, added, false;
      if name in config {
        assert name in before;
        match values
        case Dict(u) =>
          UpdateSection(name, u);
          assert MergeStep(Merge(before, added, None), name, values) == Merge(Contents(), added, None);
        case _ =>
          failed := true;
      } else {
        assert name !in before;
        config' := config[name := Added(values)];
        added' := added[name := values];
        ConfiguredAdd(config, added, name, values);
      }
    }

    /**
     * get_config: the first call loads and caches the configuration (a load
     * that raises caches nothing); every later call returns the cached value.
     */
    method GetConfig(file: Option<UserDoc>) returns (r: Result<map<string, Entry>, string>)
      requires Valid()
      requires file.Some? && file.value.Mapping? ==> DistinctNames(file.value.pairs)
      modifies this, defaults.Values
      ensures old(cached).Some? ==> r == Ok(old(cached).value) && cached == old(cached) && Contents() == old(Contents())
      ensures old(cached).None? && r.Ok? ==> cached == Some(r.value)
      ensures old(cached).None? && r.Err? ==> cached == None
      // on the first call, the answer and the sections are those of load_config
      ensures old(cached).None? && (file.None? || file == Some(Falsy)) ==>
        r == Ok(DefaultConfig()) && Contents() == old(Contents())
      ensures old(cached).None? && file == Some(NotMapping) ==> r.Err? && Contents() == old(Contents())
      ensures old(cached).None? && file.Some? && file.value.Mapping? ==>
        var m := MergeAll(old(Contents()), file.value.pairs);
        && Contents() == m.sections
        && (r.Err? <==> m.failedAt.Some?)
        && (r.Ok? ==> r.value.Keys == defaults.Keys + m.added.Keys
                      && (forall k :: k in defaults ==> r.value[k] == Shared(defaults[k]))
                      && (forall k :: k in m.added ==> r.value[k] == Added(m.added[k])))
    {
      if cached.Some? {
        return Ok(cached.value);
      }
      r := LoadConfig(file);
      if r.Ok? {
        cached := Some(r.value);
      }
    }

    /** save_config: the saved configuration becomes the cached one (writing the file is outside the model). */
    method SaveConfig(config: map<string, Entry>)
      modifies this
      ensures cached == Some(config)
    {
      cached := Some(config);
    }
  }
}
