// The parser object: it reads a manifest step by step and appends to one error
// list. Its result is that of the specification, and what it accepts is valid.
module ManifestParser {

  import opened Wrappers
  import opened PyText
  import opened JsonModel
  import opened ManifestParsing

  class Parser {
    var errors: seq<Problem>

    constructor ()
      ensures errors == []
    {
      errors := [];
    }

    // The loop that as_command and allowed_peers share: strip, report blanks.
    method CollectItems(texts: seq<string>, field: Field) returns (items: seq<string>)
      modifies this
      ensures items == StripItems(texts, field).value
      ensures errors == old(errors) + StripItems(texts, field).problems
    {
      items := [];
      for i := 0 to |texts|
        invariant items == StripItems(texts[..i], field).value
        invariant errors == old(errors) + StripItems(texts[..i], field).problems
      {
        assert texts[..i + 1][..i] == texts[..i];
        var text := Strip(texts[i]);
        if text == "" {
          errors := errors + [EmptyItem(field, i)];
        } else {
          items := items + [text];
        }
      }
      assert texts[..|texts|] == texts;
    }

    method CollectMounts(items: seq<Json>, parse: (Json, nat) -> Parsed<MountPoint>) returns (mounts: seq<MountPoint>)
      modifies this
      ensures mounts == ParseEach(items, parse).value
      ensures errors == old(errors) + ParseEach(items, parse).problems
    {
      mounts := [];
      for i := 0 to |items|
        invariant mounts == ParseEach(items[..i], parse).value
        invariant errors == old(errors) + ParseEach(items[..i], parse).problems
      {
        assert items[..i + 1][..i] == items[..i];
        var mount := parse(items[i], i);
        mounts := mounts + [mount.value];
        errors := errors + mount.problems;
      }
      assert items[..|items|] == items;
    }

    method ReadMounts(env: Env, v: Json) returns (mounts: seq<MountPoint>)
      modifies this
      ensures mounts == ParseMounts(env, v).value
      ensures errors == old(errors) + ParseMounts(env, v).problems
    {
      mounts := [];
      if Truthy(v) && !v.Arr? {
        errors := errors + [WrongType(Mounts)];
      } else if Truthy(v) {
        mounts := CollectMounts(v.items, MountReader(env));
      }
    }

    method ReadEnv(env: Env, v: Json) returns (variables: map<string, string>)
      modifies this
      ensures variables == ParseEnv(env, v).value
      ensures errors == old(errors) + ParseEnv(env, v).problems
    {
      variables := map[];
      if Truthy(v) && !v.Obj? {
        errors := errors + [WrongType(RuntimeEnv)];
      } else if Truthy(v) {
        var keys := env.order(v.fields);
        for i := 0 to |keys|
          invariant variables == EnvEntries(env, v.fields, keys[..i])
        {
          assert keys[..i + 1][..i] == keys[..i];
          var key := Strip(keys[i]);
          if key != "" {
            variables := variables[key := PyStr(env.repr, Get(v.fields, keys[i]))];
          }
        }
        assert keys[..|keys|] == keys;
      }
    }

    method ReadPeers(env: Env, v: Json) returns (peers: seq<string>)
      modifies this
      ensures peers == AllowedPeers(env, v).value
      ensures errors == old(errors) + AllowedPeers(env, v).problems
    {
      peers := [];
      if v.Arr? {
        peers := CollectItems(Texts(v.items, item => TextOr(env.repr, item)), Peers);
      } else {
        errors := errors + AllowedPeers(env, v).problems;
      }
    }

    method ReadCommand(env: Env, v: Json) returns (command: seq<string>)
      modifies this
      ensures command == AsCommand(env, v).value
      ensures errors == old(errors) + AsCommand(env, v).problems
    {
      if v.Arr? {
        command := CollectItems(Texts(v.items, item => PyStr(env.repr, item)), Command);
      } else {
        command := AsCommand(env, v).value;
        errors := errors + AsCommand(env, v).problems;
      }
    }

    method ReadPassthrough(env: Env, v: Json) returns (names: seq<string>)
      modifies this
      ensures names == ParsePassthrough(env, v).value
      ensures errors == old(errors) + ParsePassthrough(env, v).problems
    {
      names := [];
      if Truthy(v) && !v.Arr? {
        errors := errors + [WrongType(Passthrough)];
      } else if Truthy(v) {
        var texts := Texts(v.items, item => PyStr(env.repr, item));
        for i := 0 to |texts|
          invariant names == StripItems(texts[..i], Passthrough).value
        {
          assert texts[..i + 1][..i] == texts[..i];
          var text := Strip(texts[i]);
          if text != "" {
            names := names + [text];
          }
        }
        assert texts[..|texts|] == texts;
      }
    }

    method ReadString(env: Env, v: Json, field: Field, required: bool) returns (text: string)
      modifies this
      ensures text == AsString(env, v, field, required).value
      ensures errors == old(errors) + AsString(env, v, field, required).problems
    {
      if v.Null? {
        text := "";
      } else {
        text := Strip(PyStr(env.repr, v));
      }
      if required && text == "" {
        errors := errors + [IsRequired(field)];
      }
    }

    method ReadAgentFields(env: Env, workingDir: Json, httpEndpoint: Json, prompt: Json, peers: Json)
      returns (agent: AgentSection)
      modifies this
      ensures agent == ParseAgentFields(env, workingDir, httpEndpoint, prompt, peers).value
      ensures errors == old(errors) + ParseAgentFields(env, workingDir, httpEndpoint, prompt, peers).problems
    {
      ghost var start := errors;
      var file := OptionalString(env, prompt);
      var allowed := ReadPeers(env, peers);
      ghost var found := AllowedPeers(env, peers).problems;
      var dir := ReadString(env, workingDir, WorkingDir, true);
      found := Appended(start, found, AsString(env, workingDir, WorkingDir, true).problems);
      var endpoint := ReadString(env, httpEndpoint, HttpEndpoint, true);
      found := Appended(start, found, AsString(env, httpEndpoint, HttpEndpoint, true).problems);
      agent := AgentSection(dir, endpoint, file, allowed);
    }

    method ReadAgent(env: Env, a: Dict) returns (agent: AgentSection)
      modifies this
      ensures agent == ParseAgent(env, a).value
      ensures errors == old(errors) + ParseAgent(env, a).problems
    {
      agent := ReadAgentFields(env, GetOr(a, "working_dir", Str(DEFAULT_WORKING_DIR)), Get(a, "http_endpoint"),
                               Get(a, "system_prompt_file"), Get(a, "allowed_peer_agent_slugs"));
    }

    method CheckDriver(driver: string)
      modifies this
      ensures errors == old(errors) + DriverProblems(driver)
    {
      if driver != "" && Lower(driver) !in DRIVERS {
        errors := errors + [NotAllowed(Driver)];
      }
    }

    method ReadRuntimeFields(
      env: Env, driver: Json, image: Json, imageRequired: bool, entrypoint: Json, command: Json, mounts: Json,
      variables: Json, passthrough: Json)
      returns (runtime: RuntimeSection)
      modifies this
      ensures var p := ParseRuntimeFields(env, driver, image, imageRequired, entrypoint, command, mounts, variables, passthrough);
              runtime == p.value && errors == old(errors) + p.problems
    {
      ghost var start := errors;
      var d := ReadString(env, driver, Driver, true);
      ghost var found := AsString(env, driver, Driver, true).problems;
      var i := ReadString(env, image, Image, imageRequired);
      found := Appended(start, found, AsString(env, image, Image, imageRequired).problems);
      var c := ReadCommand(env, command);
      found := Appended(start, found, AsCommand(env, command).problems);
      var m := ReadMounts(env, mounts);
      found := Appended(start, found, ParseMounts(env, mounts).problems);
      CheckDriver(d);
      found := Appended(start, found, DriverProblems(d));
      var e := ReadEnv(env, variables);
      found := Appended(start, found, ParseEnv(env, variables).problems);
      var p := ReadPassthrough(env, passthrough);
      found := Appended(start, found, ParsePassthrough(env, passthrough).problems);
      runtime := RuntimeSection(Lower(d), i, OptionalString(env, entrypoint), c, m, e, p);
    }

    method ReadRuntime(env: Env, r: Dict, imageRequired: bool) returns (runtime: RuntimeSection)
      modifies this
      ensures runtime == ParseRuntime(env, r, imageRequired).value
      ensures errors == old(errors) + ParseRuntime(env, r, imageRequired).problems
    {
      runtime := ReadRuntimeFields(
        env, GetOr(r, "driver", Str("docker")), Get(r, "image"), imageRequired, Get(r, "entrypoint"), Get(r, "command"),
        Get(r, "mounts"), Get(r, "env"), Get(r, "env_passthrough"));
    }

    method ReadStatus(env: Env, v: Json) returns (status: string)
      modifies this
      ensures status == ParseStatus(env, v).value
      ensures errors == old(errors) + ParseStatus(env, v).problems
    {
      var text := ReadString(env, v, Status, true);
      status := Lower(text);
      if text != "" && status !in STATUSES {
        errors := errors + [NotAllowed(Status)];
      }
    }

    method CheckServers(v: Json, schema: Schema)
      modifies this
      ensures errors == old(errors) + ServersProblems(v, schema)
    {
      if v.Arr? {
        CheckEntries(v.items, EntryCheck(schema));
      } else if !v.Null? {
        errors := errors + [WrongType(Servers)];
      }
    }

    method CheckEntries(items: seq<Json>, check: (Json, nat) -> seq<Problem>)
      modifies this
      ensures errors == old(errors) + CheckEach(items, check)
    {
      for i := 0 to |items|
        invariant errors == old(errors) + CheckEach(items[..i], check)
      {
        assert items[..i + 1][..i] == items[..i];
        errors := errors + check(items[i], i);
      }
      assert items[..|items|] == items;
    }

    // validate_backend_config
    method CheckConfig(schema: Schema, config: Dict, servers: Json)
      modifies this
      ensures errors == old(errors) + SchemaProblems(schema, config, servers)
    {
      if !(schema.required <= config.Keys) {
        errors := errors + [Missing(BackendConfig, schema.required - config.Keys)];
      }
      CheckServers(servers, schema);
    }

    method CheckBackend(kind: string, config: Dict)
      modifies this
      ensures errors == old(errors) + ConfigProblems(kind, config)
    {
      var schema := SchemaOf(kind);
      if schema.Some? {
        CheckConfig(schema.value, config, Get(config, "mcp_servers"));
      }
    }

    method ReadConfig(v: Json) returns (config: Dict)
      modifies this
      ensures config == ParseConfig(v).value
      ensures errors == old(errors) + ParseConfig(v).problems
    {
      config := map[];
      if Truthy(v) && v.Obj? {
        config := v.fields;
      } else if Truthy(v) {
        errors := errors + [WrongType(BackendConfig)];
      }
    }

    method ReadBackend(env: Env, config: Json, kind: Json) returns (backend: BackendSection)
      modifies this
      ensures backend == ParseBackendFields(env, config, kind).value
      ensures errors == old(errors) + ParseBackendFields(env, config, kind).problems
    {
      ghost var start := errors;
      var fields := ReadConfig(config);
      ghost var found := ParseConfig(config).problems;
      var text := ReadString(env, kind, BackendType, true);
      found := Appended(start, found, AsString(env, kind, BackendType, true).problems);
      CheckBackend(text, fields);
      found := Appended(start, found, ConfigProblems(text, fields));
      backend := BackendSection(text, fields);
    }

    method ReadBackendBlock(env: Env, b: Dict) returns (backend: BackendSection)
      modifies this
      ensures backend == ParseBackend(env, b).value
      ensures errors == old(errors) + ParseBackend(env, b).problems
    {
      backend := ReadBackend(env, Get(b, "config"), Get(b, "type"));
    }

    method ReadAutoStart(v: Json) returns (autoStart: bool)
      modifies this
      ensures autoStart == AsBool(v, AutoStart).value
      ensures errors == old(errors) + AsBool(v, AutoStart).problems
    {
      autoStart := v.Bool? && v.b;
      if !v.Null? && !v.Bool? {
        errors := errors + [WrongType(AutoStart)];
      }
    }

    method ReadFields(env: Env, status: Json, slug: Json, name: Json, autoStart: Json, s: Sections)
      returns (manifest: Manifest)
      modifies this
      ensures manifest == ParseFields(env, status, slug, name, autoStart, s).value
      ensures errors == old(errors) + ParseFields(env, status, slug, name, autoStart, s).problems
    {
      ghost var start := errors;
      var state := ReadStatus(env, status);
      ghost var found := ParseStatus(env, status).problems;
      var id := ReadString(env, slug, Slug, true);
      found := Appended(start, found, AsString(env, slug, Slug, true).problems);
      var title := ReadString(env, name, DisplayName, true);
      found := Appended(start, found, AsString(env, name, DisplayName, true).problems);
      var agent := ReadAgent(env, s.agent);
      found := Appended(start, found, ParseAgent(env, s.agent).problems);
      var imageRequired := !IsKnownBackend(BackendKind(env, s.backend));
      var runtime := ReadRuntime(env, s.runtime, imageRequired);
      found := Appended(start, found, ParseRuntime(env, s.runtime, imageRequired).problems);
      var backend := ReadBackendBlock(env, s.backend);
      found := Appended(start, found, ParseBackend(env, s.backend).problems);
      var auto := ReadAutoStart(autoStart);
      found := Appended(start, found, AsBool(autoStart, AutoStart).problems);
      manifest := Manifest(id, title, state, agent, runtime, backend, auto);
    }

    method ReadSections(env: Env, raw: Dict, s: Sections) returns (manifest: Manifest)
      modifies this
      ensures manifest == ParseSections(env, raw, s).value
      ensures errors == old(errors) + ParseSections(env, raw, s).problems
    {
      manifest := ReadFields(env, GetOr(raw, "status", Str("active")), Get(raw, "slug"), Get(raw, "display_name"),
                             Get(raw, "auto_start"), s);
    }

    // Raises the collected errors, if there are any.
    method Judge(manifest: Manifest, ghost p: Parsed<Manifest>) returns (r: Result<Manifest, seq<Problem>>)
      requires manifest == p.value && errors == p.problems
      ensures r == Verdict(p)
    {
      if errors != [] {
        return Err(errors);
      }
      return Ok(manifest);
    }

    // parse(): a parser is used once, so its error list is empty at the start.
    method Parse(env: Env, raw: Dict) returns (r: Result<Manifest, seq<Problem>>)
      requires errors == []
      modifies this
      ensures r == ParseManifest(env, raw)
    {
      var s := Normalize(env, raw);
      if s.None? {
        return Err([Unreadable]);
      }
      var manifest := ReadSections(env, raw, s.value);
      ghost var p := ParseSections(env, raw, s.value);
      assert [] + p.problems == p.problems;
      r := Judge(manifest, p);
    }
  }

  ghost function Appended(start: seq<Problem>, found: seq<Problem>, more: seq<Problem>): (all: seq<Problem>)
    ensures all == found + more && start + found + more == start + all
  {
    assert start + found + more == start + (found + more);
    found + more
  }

  // ---------- what acceptance means ----------

  predicate ValidMount(m: MountPoint)
  {
    m.kind in MOUNT_TYPES && m.mode in MOUNT_MODES && CleanText(m.source) && CleanText(m.target)
  }

  predicate ValidRuntime(r: RuntimeSection, imageRequired: bool)
  {
    && r.driver == "docker"
    && (imageRequired ==> CleanText(r.image))
    && "" !in r.command
    && (forall m :: m in r.mounts ==> ValidMount(m))
    && (forall name :: name in r.passthrough ==> CleanText(name))
  }

  predicate ValidAgent(a: AgentSection)
  {
    && CleanText(a.workingDir) && CleanText(a.httpEndpoint)
    && (forall peer :: peer in a.peers ==> CleanText(peer))
  }

  predicate ValidBackend(b: BackendSection)
  {
    && CleanText(b.kind)
    && (IsKnownBackend(b.kind) ==> SchemaOf(b.kind).value.required <= b.config.Keys)
  }

  predicate ValidManifest(m: Manifest)
  {
    && CleanText(m.slug) && CleanText(m.displayName) && m.status in STATUSES
    && ValidAgent(m.agent) && ValidBackend(m.backend) && ValidRuntime(m.runtime, !IsKnownBackend(m.backend.kind))
  }

  lemma {:induction false} StrippedItemsAreClean(texts: seq<string>, field: Field)
    ensures var p := StripItems(texts, field);
            && (forall text :: text in p.value ==> CleanText(text))
            && |p.value| + |p.problems| == |texts|
  {
    if texts != [] {
      StrippedItemsAreClean(texts[..|texts| - 1], field);
    }
  }

  lemma MountIsValid(env: Env, v: Json, index: nat)
    requires ParseMount(env, v, index).problems == []
    ensures ValidMount(ParseMount(env, v, index).value)
  {
  }

  lemma {:induction false} MountsAreValid(env: Env, items: seq<Json>)
    requires ParseEach(items, MountReader(env)).problems == []
    ensures forall m :: m in ParseEach(items, MountReader(env)).value ==> ValidMount(m)
  {
    if items != [] {
      var n := |items| - 1;
      MountsAreValid(env, items[..n]);
      MountIsValid(env, items[n], n);
    }
  }

  lemma {:induction false} NonEmptyHasNoBlank(texts: seq<string>)
    ensures "" !in NonEmpty(texts)
    ensures "" !in texts ==> NonEmpty(texts) == texts
  {
    if texts != [] {
      NonEmptyHasNoBlank(texts[1..]);
      assert texts == [texts[0]] + texts[1..];
    }
  }

  // Every other word stays, in order: an empty word may as well not be there.
  lemma {:induction false} EmptyWordDropped(before: seq<string>, after: seq<string>)
    ensures NonEmpty(before + [""] + after) == NonEmpty(before + after)
  {
    if before == [] {
      assert before + [""] + after == [""] + after && before + after == after;
      assert ([""] + after)[1..] == after;
    } else {
      EmptyWordDropped(before[1..], after);
      assert (before + [""] + after)[1..] == before[1..] + [""] + after;
      assert (before + after)[1..] == before[1..] + after;
    }
  }

  // A string field: trimmed text, a problem exactly when it is required and
  // blank, and clean text read as it is.
  lemma StringMeaning(env: Env, v: Json, field: Field, required: bool)
    ensures var p := AsString(env, v, field, required);
            && Trimmed(p.value)
            && (p.problems == [] <==> (required ==> p.value != ""))
            && (v.Str? && CleanText(v.s) ==> p == Parsed(v.s, []))
            && (v.Str? && p.value == "" ==> forall c :: c in v.s ==> IsSpace(c))
  {
    if v.Str? {
      StripMeaning(v.s);
    }
  }

  // A status is accepted when its text, without blanks around it and in lower
  // case, is one of the two.
  lemma StatusAcceptedIff(env: Env, v: Json)
    ensures ParseStatus(env, v).problems == [] <==> !v.Null? && KnownStatus(Lower(Strip(PyStr(env.repr, v))))
    ensures ParseStatus(env, v).problems == [] ==> ParseStatus(env, v).value == Lower(Strip(PyStr(env.repr, v)))
  {
    StatusNames("");
    StatusNames(Lower(Strip(PyStr(env.repr, v))));
  }

  predicate KnownStatus(status: string)
  {
    status == "active" || status == "inactive"
  }

  lemma StatusNames(status: string)
    ensures status in STATUSES <==> KnownStatus(status)
  {
  }

  lemma DriverAcceptedIff(env: Env, v: Json)
    ensures var text := AsString(env, v, Driver, true);
            text.problems == [] && DriverProblems(text.value) == [] <==>
            !v.Null? && Lower(Strip(PyStr(env.repr, v))) == "docker"
  {
    assert Lower("") == "";
  }

  lemma CommandHasNoBlank(env: Env, v: Json)
    ensures "" !in AsCommand(env, v).value
  {
    match v
    case Arr(items) => StrippedItemsAreClean(Texts(items, item => PyStr(env.repr, item)), Command);
    case Str(s) =>
      if env.shlex(s).Some? {
        NonEmptyHasNoBlank(env.shlex(s).value);
      }
    case _ =>
  }

  lemma AcceptedAgent(env: Env, a: Dict)
    requires ParseAgent(env, a).problems == []
    ensures ValidAgent(ParseAgent(env, a).value)
  {
    var peers := Get(a, "allowed_peer_agent_slugs");
    if peers.Arr? {
      StrippedItemsAreClean(Texts(peers.items, item => TextOr(env.repr, item)), Peers);
    }
  }

  lemma AcceptedRuntimeFields(
    env: Env, driver: Json, image: Json, imageRequired: bool, entrypoint: Json, command: Json, mounts: Json,
    variables: Json, passthrough: Json)
    requires ParseRuntimeFields(
               env, driver, image, imageRequired, entrypoint, command, mounts, variables, passthrough).problems == []
    ensures ValidRuntime(
              ParseRuntimeFields(env, driver, image, imageRequired, entrypoint, command, mounts, variables, passthrough).value,
              imageRequired)
  {
    CommandHasNoBlank(env, command);
    if Truthy(mounts) {
      MountsAreValid(env, mounts.items);
    }
    if Truthy(passthrough) {
      StrippedItemsAreClean(Texts(passthrough.items, item => PyStr(env.repr, item)), Passthrough);
    }
  }

  lemma AcceptedBackend(env: Env, b: Dict)
    requires ParseBackend(env, b).problems == []
    ensures ValidBackend(ParseBackend(env, b).value)
  {
  }

  // The kind read for the image check and the kind parsed differ only on values
  // that name no known backend.
  lemma KindsAgree(env: Env, backend: Dict)
    ensures IsKnownBackend(BackendKind(env, backend)) <==> IsKnownBackend(ParseBackend(env, backend).value.kind)
  {
  }

  lemma AcceptedStatus(env: Env, v: Json)
    requires ParseStatus(env, v).problems == []
    ensures ParseStatus(env, v).value in STATUSES
  {
  }

  lemma AcceptedRuntime(env: Env, r: Dict, imageRequired: bool)
    requires ParseRuntime(env, r, imageRequired).problems == []
    ensures ValidRuntime(ParseRuntime(env, r, imageRequired).value, imageRequired)
  {
    AcceptedRuntimeFields(env, GetOr(r, "driver", Str("docker")), Get(r, "image"), imageRequired, Get(r, "entrypoint"),
                          Get(r, "command"), Get(r, "mounts"), Get(r, "env"), Get(r, "env_passthrough"));
  }

  lemma CombineValid(
    status: Parsed<string>, slug: Parsed<string>, name: Parsed<string>, agent: Parsed<AgentSection>,
    runtime: Parsed<RuntimeSection>, backend: Parsed<BackendSection>, autoStart: Parsed<bool>)
    requires status.value in STATUSES && CleanText(slug.value) && CleanText(name.value)
    requires ValidAgent(agent.value) && ValidBackend(backend.value)
    requires ValidRuntime(runtime.value, !IsKnownBackend(backend.value.kind))
    ensures ValidManifest(Combine(status, slug, name, agent, runtime, backend, autoStart).value)
  {
  }

  // What the parser accepts satisfies every constraint on manifests.
  lemma AcceptedFieldsAreValid(env: Env, status: Json, slug: Json, name: Json, autoStart: Json, s: Sections)
    requires ParseFields(env, status, slug, name, autoStart, s).problems == []
    ensures ValidManifest(ParseFields(env, status, slug, name, autoStart, s).value)
  {
    AcceptedStatus(env, status);
    AcceptedAgent(env, s.agent);
    AcceptedBackend(env, s.backend);
    KindsAgree(env, s.backend);
    AcceptedRuntime(env, s.runtime, !IsKnownBackend(BackendKind(env, s.backend)));
    CombineValid(ParseStatus(env, status), AsString(env, slug, Slug, true), AsString(env, name, DisplayName, true),
                 ParseAgent(env, s.agent), ParseRuntime(env, s.runtime, !IsKnownBackend(BackendKind(env, s.backend))),
                 ParseBackend(env, s.backend), AsBool(autoStart, AutoStart));
  }

  lemma AcceptedIsValid(env: Env, raw: Dict)
    requires ParseManifest(env, raw).Ok?
    ensures ValidManifest(ParseManifest(env, raw).value)
  {
    AcceptedFieldsAreValid(env, GetOr(raw, "status", Str("active")), Get(raw, "slug"), Get(raw, "display_name"),
                           Get(raw, "auto_start"), Normalize(env, raw).value);
  }
}
