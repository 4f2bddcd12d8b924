/** Configuration hot-reload (`backend/src/api/routes/config.py`): a partial
    update is deep-merged into the current configuration, validated, compared
    with the current configuration path by path, and the changed paths are
    classified as applied at once or needing a restart. A configuration is a
    JSON-like tree: a dictionary of values, each a scalar, `null` or a nested
    dictionary. */
module ConfigReload {
  import opened Wrappers
  import opened TextUtil

  /** A configuration value. Scalars and lists are compared by equality only,
      so they are one opaque `Scalar` each. */
  datatype Value = Null | Scalar(repr: string) | Dict(entries: map<string, Value>)

  type Tree = map<string, Value>

  /** `d.get(key)`: a missing key reads as `None`. */
  function Get(d: Tree, key: string): Value {
    if key in d then d[key] else Null
  }

  predicate BothDicts(a: Value, b: Value) {
    a.Dict? && b.Dict?
  }

  // ---------------------------------------------------------------------
  // _deep_merge

  /** `_deep_merge(base, override)`: a copy of `base` where every key of
      `override` is set to the override's value, except that two dictionaries
      are merged recursively. */
  function DeepMerge(base: Tree, override: Tree): (r: Tree)
    ensures r.Keys == base.Keys + override.Keys
    decreases Dict(override)
  {
    map k | k in base.Keys + override.Keys ::
      if k in override then
        if k in base && BothDicts(base[k], override[k]) then Dict(DeepMerge(base[k].entries, override[k].entries))
        else override[k]
      else base[k]
  }

  /** Keys the override does not mention keep the base's value. */
  lemma MergeKeepsUntouched(base: Tree, override: Tree, k: string)
    requires k in base && k !in override
    ensures DeepMerge(base, override)[k] == base[k]
  {
  }

  /** The override wins at every key where the two are not both dictionaries. */
  lemma MergeOverrideWins(base: Tree, override: Tree, k: string)
    requires k in override && !(k in base && BothDicts(base[k], override[k]))
    ensures DeepMerge(base, override)[k] == override[k]
  {
  }

  /** An empty override gives back (a copy equal to) the base. */
  lemma MergeEmpty(base: Tree)
    ensures DeepMerge(base, map[]) == base
  {
    assert DeepMerge(base, map[]).Keys == base.Keys;
  }

  /** Merging the same override a second time changes nothing. */
  lemma {:induction false} MergeIdempotent(base: Tree, override: Tree)
    ensures DeepMerge(DeepMerge(base, override), override) == DeepMerge(base, override)
    decreases Dict(override)
  {
    var once := DeepMerge(base, override);
    var twice := DeepMerge(once, override);
    forall k | k in twice.Keys
      ensures twice[k] == once[k]
    {
      if k in override {
        if k in base && BothDicts(base[k], override[k]) {
          MergeIdempotent(base[k].entries, override[k].entries);
        } else if override[k].Dict? {
          MergeSelf(override[k].entries);
        }
      }
    }
  }

  /** Merging a tree into itself gives the same tree. */
  lemma {:induction false} MergeSelf(d: Tree)
    ensures DeepMerge(d, d) == d
    decreases Dict(d)
  {
    forall k | k in d && d[k].Dict?
      ensures DeepMerge(d[k].entries, d[k].entries) == d[k].entries
    {
      MergeSelf(d[k].entries);
    }
  }

  /** The value of the merge along a path of keys: the override's value when
      the path leads to a non-dictionary in the override through dictionaries
      on both sides. */
  function Lookup(d: Tree, path: seq<string>): Value
    decreases |path|
  {
    if path == [] then Dict(d)
    else
      var v := Get(d, path[0]);
      if |path| == 1 then v
      else if v.Dict? then Lookup(v.entries, path[1..])
      else Null
  }

  /** The override decides every leaf it reaches: if the override holds a
      non-dictionary at a path, so does the merge. */
  lemma {:induction false} MergeLeafFromOverride(base: Tree, override: Tree, path: seq<string>)
    requires path != [] && !Lookup(override, path).Dict? && Lookup(override, path) != Null
    ensures Lookup(DeepMerge(base, override), path) == Lookup(override, path)
    decreases |path|
  {
    var k := path[0];
    var merged := DeepMerge(base, override);
    assert k in override;
    if |path| > 1 {
      var o := override[k];
      assert o.Dict?;
      if k in base && BothDicts(base[k], o) {
        assert merged[k] == Dict(DeepMerge(base[k].entries, o.entries));
        MergeLeafFromOverride(base[k].entries, o.entries, path[1..]);
      } else {
        assert merged[k] == o;
      }
    }
  }

  // ---------------------------------------------------------------------
  // _find_changed_paths

  /** `f"{prefix}.{key}" if prefix else key`. */
  function JoinPath(prefix: string, key: string): string {
    if prefix == "" then key else prefix + "." + key
  }

  /** `_find_changed_paths(before, after, prefix)`: for every key on either side,
      recurse when both values are dictionaries, otherwise report the path when
      the values differ. The source returns a list in the order of a hashed
      set; the model keeps the set of paths. */
  function ChangedPaths(before: Tree, after: Tree, prefix: string): set<string>
    decreases Dict(before)
  {
    (set k, p | k in before.Keys + after.Keys && BothDicts(Get(before, k), Get(after, k))
                && p in ChangedPaths(before[k].entries, after[k].entries, JoinPath(prefix, k)) :: p)
    + (set k | k in before.Keys + after.Keys && !BothDicts(Get(before, k), Get(after, k)) && Get(before, k) != Get(after, k)
         :: JoinPath(prefix, k))
  }

  /** The two sides differ at `path`: dictionaries on both sides all along the
      way, and at the end two values that are not both dictionaries and are not
      equal. */
  predicate DiffersAt(before: Tree, after: Tree, path: seq<string>)
    decreases |path|
  {
    path != [] &&
    var o := Get(before, path[0]);
    var n := Get(after, path[0]);
    if |path| == 1 then !BothDicts(o, n) && o != n
    else BothDicts(o, n) && DiffersAt(o.entries, n.entries, path[1..])
  }

  /** The dotted form of a key path under `prefix`. */
  function Dotted(prefix: string, path: seq<string>): string
    decreases |path|
  {
    if path == [] then prefix else Dotted(JoinPath(prefix, path[0]), path[1..])
  }

  /** Every reported path is the dotted form of a key path where the two sides
      differ. */
  lemma {:induction false} ChangedPathsSound(before: Tree, after: Tree, prefix: string, p: string)
    requires p in ChangedPaths(before, after, prefix)
    ensures exists path :: DiffersAt(before, after, path) && Dotted(prefix, path) == p
    decreases Dict(before)
  {
    var keys := before.Keys + after.Keys;
    if k :| k in keys && !BothDicts(Get(before, k), Get(after, k)) && Get(before, k) != Get(after, k) && JoinPath(prefix, k) == p {
      assert DiffersAt(before, after, [k]) && Dotted(prefix, [k]) == p;
    } else {
      var k :| k in keys && BothDicts(Get(before, k), Get(after, k))
               && p in ChangedPaths(before[k].entries, after[k].entries, JoinPath(prefix, k));
      ChangedPathsSound(before[k].entries, after[k].entries, JoinPath(prefix, k), p);
      var path :| DiffersAt(before[k].entries, after[k].entries, path) && Dotted(JoinPath(prefix, k), path) == p;
      assert ([k] + path)[1..] == path;
      assert DiffersAt(before, after, [k] + path) && Dotted(prefix, [k] + path) == p;
    }
  }

  /** Every key path where the two sides differ is reported. */
  lemma {:induction false} ChangedPathsComplete(before: Tree, after: Tree, prefix: string, path: seq<string>)
    requires DiffersAt(before, after, path)
    ensures Dotted(prefix, path) in ChangedPaths(before, after, prefix)
    decreases |path|
  {
    var k := path[0];
    if |path| > 1 {
      assert k in before;
      ChangedPathsComplete(before[k].entries, after[k].entries, JoinPath(prefix, k), path[1..]);
    }
  }

  /** Comparing a configuration with itself reports nothing. */
  lemma {:induction false} ChangedPathsSelf(d: Tree, prefix: string)
    ensures ChangedPaths(d, d, prefix) == {}
    decreases Dict(d)
  {
    forall k | k in d.Keys && BothDicts(Get(d, k), Get(d, k))
      ensures ChangedPaths(d[k].entries, d[k].entries, JoinPath(prefix, k)) == {}
    {
      ChangedPathsSelf(d[k].entries, JoinPath(prefix, k));
    }
  }

  // ---------------------------------------------------------------------
  // Classification

  /** Paths that take effect without a restart, by prefix. */
  const HotReloadPrefixes: seq<string> := [
    "language",
    "overlay",
    "models.transcription.beam_size",
    "models.transcription.vad_filter",
    "models.transcription.buffer_duration_s",
    "models.transcription.model_size",
    "models.transcription.device",
    "models.transcription.compute_type",
    "models.llm",
    "search.distance_threshold"
  ]

  /** Paths that need an application restart, by prefix. */
  const RestartRequiredPrefixes: seq<string> := ["audio.device", "audio.chunk_duration_ms", "backend.", "storage."]

  predicate HasPrefixIn(p: string, prefixes: seq<string>) {
    exists i :: 0 <= i < |prefixes| && StartsWith(p, prefixes[i])
  }

  /** `any(p.startswith(pr) for pr in prefixes)`, as the loop it folds. */
  function AnyPrefix(p: string, prefixes: seq<string>): (b: bool)
    ensures b <==> HasPrefixIn(p, prefixes)
  {
    if prefixes == [] then false
    else StartsWith(p, prefixes[0]) || AnyPrefix(p, prefixes[1..])
  }

  /** The `applied` and `restart_required` comprehensions over the changed
      paths. */
  function Classify(changed: set<string>, prefixes: seq<string>): (r: set<string>)
    ensures forall p :: p in r <==> p in changed && HasPrefixIn(p, prefixes)
  {
    set p | p in changed && AnyPrefix(p, prefixes)
  }

  /** The examples the endpoint's tests check: a change of `language` is
      applied at once, one of `audio.device` needs a restart, and a change of a
      path matching no prefix (`audio.sample_rate`) is in neither list; the
      `backend.` prefix does not match a bare `backend`. */
  lemma ClassificationExamples()
    ensures "language" in Classify({"language"}, HotReloadPrefixes)
    ensures "audio.device" in Classify({"audio.device"}, RestartRequiredPrefixes)
    ensures Classify({"audio.sample_rate"}, HotReloadPrefixes) == {}
    ensures Classify({"audio.sample_rate"}, RestartRequiredPrefixes) == {}
    ensures Classify({"backend"}, RestartRequiredPrefixes) == {}
  {
    assert StartsWith("language", HotReloadPrefixes[0]);
    assert StartsWith("audio.device", RestartRequiredPrefixes[0]);
    var path := "audio.sample_rate";
    forall i | 0 <= i < |HotReloadPrefixes| ensures !StartsWith(path, HotReloadPrefixes[i]) {
      Mismatch(path, HotReloadPrefixes[i], 0);
    }
    Mismatch(path, RestartRequiredPrefixes[0], 6);
    Mismatch(path, RestartRequiredPrefixes[1], 6);
    Mismatch(path, RestartRequiredPrefixes[2], 0);
    Mismatch(path, RestartRequiredPrefixes[3], 0);
    Mismatch("backend", RestartRequiredPrefixes[0], 0);
    Mismatch("backend", RestartRequiredPrefixes[1], 0);
    Mismatch("backend", RestartRequiredPrefixes[3], 0);
  }

  /** A path that differs from a prefix at some position does not start with it. */
  lemma Mismatch(s: string, p: string, i: nat)
    requires i < |p| && i < |s| && s[i] != p[i]
    ensures !StartsWith(s, p)
  {
    if |p| <= |s| {
      assert s[..|p|][i] == s[i];
    }
  }

  // ---------------------------------------------------------------------
  // The endpoints

  /** Validation of a merged tree (`AppConfig.model_validate`, then
      `model_dump`): the normalised configuration, or `None` when invalid. */
  type Validator = Tree -> Option<Tree>

  /** The reply of `PUT /api/config`. */
  datatype UpdateReply =
    | Unavailable      // 503, configuration not loaded
    | Invalid          // 422, the merged configuration does not validate
    | Updated(applied: set<string>, restartRequired: set<string>)
    | WriteError       // 500, `open` or `yaml.dump` raised

  /** How writing `config.yaml` goes: `open(path, "w")` raises before touching
      the file, or it truncates the file and `yaml.dump` raises part-way, or
      both succeed. */
  datatype WriteOutcome = OpenFails | DumpFails | WriteSucceeds

  /** What this process has left in `config.yaml`. */
  datatype ConfigFile = Untouched | Holds(tree: Tree) | Truncated

  /** The process-wide configuration and the file it is saved to. */
  class ConfigStore {
    var config: Option<Tree>
    var file: ConfigFile
    /** How many times the language-model client was re-created. */
    var llmReloads: nat

    constructor (config: Option<Tree>)
      ensures this.config == config && file == Untouched && llmReloads == 0
    {
      this.config := config;
      file := Untouched;
      llmReloads := 0;
    }

    /** `GET /api/config`: 503 when not loaded, otherwise the configuration. */
    method GetConfig() returns (reply: Option<Tree>)
      ensures reply == config
    {
      reply := config;
    }

    /** `PUT /api/config` with a partial body: merge, validate, classify the
        changed paths, save, swap in, and re-create the language-model client
        when a `models.llm` path changed. Nothing is saved or swapped on 503
        or 422. When the write raises, the reply is 500, the configuration in
        memory stays the old one, and a `yaml.dump` failure leaves the file
        truncated. */
    method UpdateConfig(body: Tree, validate: Validator, write: WriteOutcome) returns (reply: UpdateReply)
      modifies this
      ensures old(config).None? ==> reply == Unavailable && unchanged(this)
      ensures old(config).Some? && validate(DeepMerge(old(config).value, body)).None?
              ==> reply == Invalid && unchanged(this)
      ensures old(config).Some? && validate(DeepMerge(old(config).value, body)).Some? && write != WriteSucceeds ==>
                && reply == WriteError
                && config == old(config) && llmReloads == old(llmReloads)
                && file == (if write == OpenFails then old(file) else Truncated)
      ensures old(config).Some? && validate(DeepMerge(old(config).value, body)).Some? && write == WriteSucceeds ==>
                var current := old(config).value;
                var next := validate(DeepMerge(current, body)).value;
                var changed := ChangedPaths(current, next, "");
                && reply == Updated(Classify(changed, HotReloadPrefixes), Classify(changed, RestartRequiredPrefixes))
                && config == Some(next) && file == Holds(next)
                && llmReloads == old(llmReloads) + (if exists p :: p in changed && StartsWith(p, "models.llm") then 1 else 0)
    {
      if config.None? {
        return Unavailable;
      }
      var current := config.value;
      var merged := DeepMerge(current, body);
      var validated := validate(merged);
      if validated.None? {
        return Invalid;
      }
      var next := validated.value;
      var changed := ChangedPaths(current, next, "");
      var applied := Classify(changed, HotReloadPrefixes);
      var restartRequired := Classify(changed, RestartRequiredPrefixes);
      if write == OpenFails {
        return WriteError;
      }
      file := Truncated;
      if write == DumpFails {
        return WriteError;
      }
      file := Holds(next);
      config := Some(next);
      if exists p :: p in changed && StartsWith(p, "models.llm") {
        llmReloads := llmReloads + 1;
      }
      reply := Updated(applied, restartRequired);
    }
  }

  /** Re-sending the configuration as it is reports no change at all. */
  lemma UnchangedUpdateReportsNothing(current: Tree)
    ensures Classify(ChangedPaths(current, current, ""), HotReloadPrefixes) == {}
    ensures Classify(ChangedPaths(current, current, ""), RestartRequiredPrefixes) == {}
  {
    ChangedPathsSelf(current, "");
  }
}
