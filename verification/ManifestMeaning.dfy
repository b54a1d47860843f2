// What the parts of a manifest mean, key by key (_manifest_parsing.py,
// _manifest_field_parsing.py, _backend_validation.py).
module ManifestMeaning {

  import opened Wrappers
  import opened PyText
  import opened JsonModel
  import opened ManifestParsing
  import opened ManifestParser
  import opened ManifestMigration
  import opened ManifestPayload

  // ---------- mounts ----------

  // The text of a value, without blanks around it; nothing for None.
  function TextOf(env: Env, v: Json): string
  {
    if v.Null? then "" else Strip(PyStr(env.repr, v))
  }

  predicate LooksLikePath(text: string)
  {
    var s := Strip(text); s != "" && (s[0] == '/' || s[0] == '.')
  }

  predicate KnownKind(kind: string)
  {
    kind == "bind" || kind == "volume"
  }

  predicate KnownMode(mode: string)
  {
    mode == "rw" || mode == "ro"
  }

  lemma KnownChoices(text: string)
    ensures (text in MOUNT_TYPES <==> KnownKind(text)) && (text in MOUNT_MODES <==> KnownMode(text))
  {
  }

  lemma TextMeaning(env: Env, v: Json, field: Field)
    ensures var p := AsString(env, v, field, true);
            p.value == TextOf(env, v) && (p.problems == [] <==> p.value != "")
  {
  }

  lemma ChoiceMeaning(env: Env, v: Json, choices: set<string>, field: Field)
    requires "" !in choices
    ensures var p, text := OneOf(AsString(env, v, field, true), choices, field), Lower(TextOf(env, v));
            p.value == text && (p.problems == [] <==> text in choices) && (text in choices ==> text != "")
  {
    assert Lower("") == "";
  }

  // The mount read is made of these values, and reported when one is wrong.
  predicate MountReads(env: Env, p: Parsed<MountPoint>, kind: Json, mode: Json, source: Json, target: Json)
  {
    var s, t, k, m := TextOf(env, source), TextOf(env, target), Lower(TextOf(env, kind)), Lower(TextOf(env, mode));
    && (p.problems == [] <==> s != "" && t != "" && KnownKind(k) && KnownMode(m))
    && p.value.source == s && p.value.target == t
    && (KnownKind(k) ==> p.value.kind == k) && (KnownMode(m) ==> p.value.mode == m)
  }

  lemma MountFieldsMeaning(env: Env, kind: Json, mode: Json, source: Json, target: Json, index: nat)
    ensures MountReads(env, ParseMountFields(env, kind, mode, source, target, index), kind, mode, source, target)
  {
    KnownChoices("");
    ChoiceMeaning(env, kind, MOUNT_TYPES, MountType(index));
    ChoiceMeaning(env, mode, MOUNT_MODES, MountMode(index));
    KnownChoices(Lower(TextOf(env, kind)));
    KnownChoices(Lower(TextOf(env, mode)));
    TextMeaning(env, source, MountSource(index));
    TextMeaning(env, target, MountTarget(index));
  }

  lemma DetectMeaning(source: string)
    ensures DetectMountType(source) == if LooksLikePath(source) then "bind" else "volume"
  {
  }

  // A mount is a source and a target, a type that is detected when it is not
  // given, and a mode that is read and write when it is not given.
  lemma MountMeaning(env: Env, m: Dict, index: nat)
    ensures var detected := if LooksLikePath(TextOr(env.repr, Get(m, "source"))) then "bind" else "volume";
            MountReads(env, ParseMount(env, Obj(m), index), GetOr(m, "type", Str(detected)), GetOr(m, "mode", Str("rw")),
                       Get(m, "source"), Get(m, "target"))
  {
    var source, target := Get(m, "source"), Get(m, "target");
    DetectMeaning(TextOr(env.repr, source));
    var detected := DetectMountType(TextOr(env.repr, source));
    MountByKeys(env, m, index, GetOr(m, "type", Str(detected)), GetOr(m, "mode", Str("rw")), source, target);
  }

  lemma MountByKeys(env: Env, d: Dict, index: nat, kind: Json, mode: Json, source: Json, target: Json)
    requires GetOr(d, "type", Str(DetectMountType(TextOr(env.repr, source)))) == kind && GetOr(d, "mode", Str("rw")) == mode
    requires Get(d, "source") == source && Get(d, "target") == target
    ensures MountReads(env, ParseMount(env, Obj(d), index), kind, mode, source, target)
  {
    MountKeys(env, d, index, kind, mode, source, target);
    MountFieldsMeaning(env, kind, mode, source, target, index);
  }

  // ---------- the legacy layout ----------

  lemma VolumeKeys(env: Env, volume: Dict)
    ensures var source := Get(volume, "source");
            ConvertVolume(env, volume) == Obj(map[
              "type" := Str(if LooksLikePath(TextOr(env.repr, source)) then "bind" else "volume"), "source" := source,
              "target" := Get(volume, "target"), "mode" := Str(if Truthy(Get(volume, "read_only")) then "ro" else "rw")])
  {
    DetectMeaning(TextOr(env.repr, Get(volume, "source")));
  }

  // A legacy volume becomes a mount of the same source and target, read only
  // exactly when it was.
  lemma VolumeMeaning(env: Env, volume: Dict, index: nat)
    ensures var p := ParseMount(env, ConvertVolume(env, volume), index);
            var source, target := TextOf(env, Get(volume, "source")), TextOf(env, Get(volume, "target"));
            && (p.problems == [] <==> source != "" && target != "")
            && p.value.source == source && p.value.target == target
            && p.value.mode == (if Truthy(Get(volume, "read_only")) then "ro" else "rw")
            && p.value.kind == (if LooksLikePath(TextOr(env.repr, Get(volume, "source"))) then "bind" else "volume")
  {
    var source, target := Get(volume, "source"), Get(volume, "target");
    var kind := if LooksLikePath(TextOr(env.repr, source)) then "bind" else "volume";
    var mode := if Truthy(Get(volume, "read_only")) then "ro" else "rw";
    VolumeKeys(env, volume);
    ConvertedVolume(env, ConvertVolume(env, volume).fields, index, kind, mode, source, target);
  }

  lemma FixedChoice(env: Env, text: string)
    requires text == "bind" || text == "volume" || text == "rw" || text == "ro"
    ensures Lower(TextOf(env, Str(text))) == text
  {
    assert Trimmed(text);
    assert Lower(text) == text;
  }

  lemma ConvertedVolume(env: Env, d: Dict, index: nat, kind: string, mode: string, source: Json, target: Json)
    requires KnownKind(kind) && KnownMode(mode)
    requires "type" in d && d["type"] == Str(kind) && "mode" in d && d["mode"] == Str(mode)
    requires Get(d, "source") == source && Get(d, "target") == target
    ensures var p := ParseMount(env, Obj(d), index);
            && (p.problems == [] <==> TextOf(env, source) != "" && TextOf(env, target) != "")
            && p.value == MountPoint(kind, TextOf(env, source), TextOf(env, target), mode)
  {
    FixedChoice(env, kind);
    FixedChoice(env, mode);
    MountByKeys(env, d, index, Str(kind), Str(mode), source, target);
  }

  // Volumes that are objects are converted in order, others left out.
  lemma {:induction false} VolumesInOrder(env: Env, items: seq<Json>, more: seq<Json>)
    ensures ConvertVolumes(env, items + more) == ConvertVolumes(env, items) + ConvertVolumes(env, more)
    ensures ConvertVolumes(env, [Str("")]) == []
  {
    if items == [] {
      assert items + more == more;
    } else {
      assert (items + more)[1..] == items[1..] + more;
      VolumesInOrder(env, items[1..], more);
    }
  }

  lemma OneVolume(env: Env, v: Json)
    ensures ConvertVolumes(env, [v]) == if v.Obj? then [ConvertVolume(env, v.fields)] else []
  {
    assert [v][1..] == [];
  }

  // The three root keys fill the gaps of the agent section.
  lemma LegacyAgentMeaning(raw: Dict, agent: Dict, key: string)
    ensures var a := LegacyAgent(raw, agent);
            var moved := key in raw && (key == "working_dir" || key == "http_endpoint" || key == "system_prompt_file");
            && (key in a <==> key in agent || moved)
            && (key in agent ==> a[key] == agent[key]) && (key !in agent && moved ==> a[key] == raw[key])
  {
  }

  lemma LegacyBackendMeaning(raw: Dict, backend: Dict, key: string)
    ensures var b := LegacyBackend(raw, backend);
            && (key in b <==> key in backend || (key == "type" && "backend_type" in raw))
            && (key in backend ==> b[key] == backend[key])
            && (key == "type" && key !in backend && "backend_type" in raw ==> b[key] == raw["backend_type"])
  {
  }

  // The container's key that a runtime key is filled from.
  function ContainerKey(key: string): Option<string>
  {
    if key == "image" || key == "entrypoint" || key == "command" || key == "env_passthrough" then Some(key)
    else if key == "env" then Some("extra_env")
    else None
  }

  lemma CopiedMeaning(c: Dict, source: string, target: string, key: string)
    ensures var m := Copied(c, source, target);
            (key in m <==> key == target && source in c) && (key in m ==> m[key] == c[source])
  {
  }

  function Filled(c: Dict, runtime: Dict): Dict
  {
    Copied(c, "image", "image") + Copied(c, "entrypoint", "entrypoint") + Copied(c, "command", "command")
    + Copied(c, "extra_env", "env") + Copied(c, "env_passthrough", "env_passthrough") + runtime
  }

  lemma FilledMeaning(c: Dict, runtime: Dict, key: string)
    ensures var r, from := Filled(c, runtime), ContainerKey(key);
            && (key in r <==> key in runtime || (from.Some? && from.value in c))
            && (key in runtime ==> r[key] == runtime[key])
            && (key !in runtime && key in r ==> r[key] == c[from.value])
  {
    CopiedMeaning(c, "image", "image", key);
    CopiedMeaning(c, "entrypoint", "entrypoint", key);
    CopiedMeaning(c, "command", "command", key);
    CopiedMeaning(c, "extra_env", "env", key);
    CopiedMeaning(c, "env_passthrough", "env_passthrough", key);
  }

  // A legacy container fills the gaps of the runtime section: five keys as they
  // are, and its volumes as mounts.
  lemma LegacyRuntimeMeaning(env: Env, c: Dict, runtime: Dict, key: string)
    requires LegacyRuntime(env, Obj(c), runtime).Some?
    ensures var r, from := LegacyRuntime(env, Obj(c), runtime).value, ContainerKey(key);
            && (key in runtime ==> key in r && r[key] == runtime[key])
            && (key !in runtime && key != "mounts" ==>
                (key in r <==> from.Some? && from.value in c) && (key in r ==> r[key] == c[from.value]))
            && (key !in runtime && key == "mounts" ==>
                && (key in r <==> "volumes" in c)
                && (key in r ==> LegacyMounts(env, c["volumes"]).Some? && r[key] == Arr(LegacyMounts(env, c["volumes"]).value)))
  {
    FilledMeaning(c, runtime, key);
    FilledMeaning(c, runtime, "mounts");
  }

  lemma WithDriverMeaning(runtime: Dict, key: string)
    ensures var r := WithDriver(runtime);
            && (key in r <==> key in runtime || key == "driver")
            && (key in runtime ==> r[key] == runtime[key]) && ("driver" !in runtime ==> r["driver"] == Str("docker"))
  {
  }

  // ---------- what is not given ----------

  lemma StatusDefault(env: Env, raw: Dict)
    requires "status" !in raw && ParseManifest(env, raw).Ok?
    ensures ParseManifest(env, raw).value.status == "active"
  {
    ParsedStatus(env, raw, Str("active"));
    StatusReadsBack(env, "active");
  }

  lemma ParsedStatus(env: Env, raw: Dict, status: Json)
    requires ParseManifest(env, raw).Ok? && GetOr(raw, "status", Str("active")) == status
    ensures ParseManifest(env, raw).value.status == ParseStatus(env, status).value
  {
  }

  lemma WorkingDirDefault(env: Env, a: Dict)
    requires "working_dir" !in a
    ensures ParseAgent(env, a).value.workingDir == "/workspace"
  {
    assert Trimmed("/workspace");
  }

  // ---------- variables ----------

  // The names and texts that the keys give, in order.
  function Named(env: Env, d: Dict, keys: seq<string>): (pairs: seq<(string, string)>)
    ensures |pairs| == |keys|
  {
    if keys == [] then []
    else
      var n := |keys| - 1;
      Named(env, d, keys[..n]) + [(Strip(keys[n]), PyStr(env.repr, Get(d, keys[n])))]
  }

  // A variable is there exactly when a key strips to its non-empty name; the
  // last such key gives its text.
  lemma {:induction false} EntriesMeaning(env: Env, d: Dict, keys: seq<string>, name: string, text: string)
    ensures var e := EnvEntries(env, d, keys);
            name in e && e[name] == text <==> name != "" && GivenLast(Named(env, d, keys), name, text)
  {
    if keys != [] {
      var n := |keys| - 1;
      EntriesMeaning(env, d, keys[..n], name, text);
      GivenLastStep(Named(env, d, keys[..n]), (Strip(keys[n]), PyStr(env.repr, Get(d, keys[n]))), name, text);
    }
  }

  // ---------- backends ----------

  predicate HasOnly(v: Json, required: set<string>, allowed: set<string>)
  {
    v.Obj? && required <= v.fields.Keys <= allowed
  }

  predicate EachServer(servers: Json, fits: Json -> bool)
  {
    servers == Null || (servers.Arr? && forall i :: 0 <= i < |servers.items| ==> fits(servers.items[i]))
  }

  lemma {:induction false} EachChecked(items: seq<Json>, check: (Json, nat) -> seq<Problem>, fits: Json -> bool)
    requires forall v, i :: check(v, i) == [] <==> fits(v)
    ensures CheckEach(items, check) == [] <==> forall i :: 0 <= i < |items| ==> fits(items[i])
  {
    if items != [] {
      var n := |items| - 1;
      EachChecked(items[..n], check, fits);
      assert forall i :: 0 <= i < n ==> items[..n][i] == items[i];
      assert check(items[n], n) == [] <==> fits(items[n]);
    }
  }

  function Fits(schema: Schema): Json -> bool
  {
    v => EntryProblems(v, schema, 0) == []
  }

  lemma ServersMeaning(servers: Json, schema: Schema)
    ensures ServersProblems(servers, schema) == [] <==> EachServer(servers, Fits(schema))
  {
    if servers.Arr? {
      forall v, i
        ensures EntryCheck(schema)(v, i) == [] <==> Fits(schema)(v)
      {
        IndexIsName(v, schema, i);
      }
      EachChecked(servers.items, EntryCheck(schema), Fits(schema));
    }
  }

  lemma IndexIsName(v: Json, schema: Schema, i: nat)
    ensures EntryProblems(v, schema, i) == [] <==> EntryProblems(v, schema, 0) == []
  {
  }

  lemma EntryMeaning(v: Json, schema: Schema, s: EntrySchema)
    requires var http := v.Obj? && Get(v.fields, "transport") == Str("http") && schema.httpEntry.Some?;
             s == if http then schema.httpEntry.value else schema.entry
    ensures EntryProblems(v, schema, 0) == [] <==> HasOnly(v, s.required, s.required + s.optional)
  {
  }

  lemma ConfigMeaning(kind: string, config: Dict, schema: Schema)
    requires SchemaOf(kind) == Some(schema)
    ensures ConfigProblems(kind, config) == [] <==>
            schema.required <= config.Keys && EachServer(Get(config, "mcp_servers"), Fits(schema))
  {
    ServersMeaning(Get(config, "mcp_servers"), schema);
  }

  lemma KnownBackends(kind: string)
    ensures IsKnownBackend(kind) <==> kind == "sgr_minimax" || kind == "agent_mux" || kind == "opencode_omo"
  {
  }

  predicate IsHttp(v: Json)
  {
    v.Obj? && Get(v.fields, "transport") == Str("http")
  }

  predicate SgrServer(v: Json)
  {
    if IsHttp(v) then
      HasOnly(v, {"name", "transport", "url", "bearer_token"},
              {"name", "transport", "url", "bearer_token", "enabled_tools", "timeout_seconds"})
    else HasOnly(v, {"name", "module", "class"}, {"name", "module", "class", "schema_fn"})
  }

  predicate MuxServer(v: Json)
  {
    HasOnly(v, {"name", "command"}, {"name", "command", "args", "cwd", "startup_timeout_sec", "required", "enabled",
                                     "enabled_tools", "env"})
  }

  predicate OpencodeServer(v: Json)
  {
    HasOnly(v, {"name", "command"}, {"name", "command", "args", "env"})
  }

  // What each backend asks of its config.
  lemma SgrMeaning(config: Dict)
    ensures ConfigProblems("sgr_minimax", config) == [] <==>
            {"route_policy", "model"} <= config.Keys && EachServer(Get(config, "mcp_servers"), SgrServer)
  {
    var schema := SchemaOf("sgr_minimax").value;
    ConfigMeaning("sgr_minimax", config, schema);
    forall v
      ensures Fits(schema)(v) <==> SgrServer(v)
    {
      EntryMeaning(v, schema, if IsHttp(v) then schema.httpEntry.value else schema.entry);
    }
  }

  lemma MuxMeaning(config: Dict)
    ensures ConfigProblems("agent_mux", config) == [] <==>
            {"role", "llm_route_policy", "model"} <= config.Keys && EachServer(Get(config, "mcp_servers"), MuxServer)
  {
    var schema := SchemaOf("agent_mux").value;
    ConfigMeaning("agent_mux", config, schema);
    forall v
      ensures Fits(schema)(v) <==> MuxServer(v)
    {
      EntryMeaning(v, schema, schema.entry);
    }
  }

  lemma OpencodeMeaning(config: Dict)
    ensures ConfigProblems("opencode_omo", config) == [] <==>
            "model" in config && EachServer(Get(config, "mcp_servers"), OpencodeServer)
  {
    var schema := SchemaOf("opencode_omo").value;
    ConfigMeaning("opencode_omo", config, schema);
    forall v
      ensures Fits(schema)(v) <==> OpencodeServer(v)
    {
      EntryMeaning(v, schema, schema.entry);
    }
  }
}
