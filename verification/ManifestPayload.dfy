// A manifest as the service answers it (src/core/orchestra_agents/manifest.py,
// to_dict) and reads it again (from_dict): what comes back.
module ManifestPayload {

  import opened Wrappers
  import opened PyText
  import opened JsonModel
  import opened ManifestParsing
  import opened ManifestParser
  import opened ManifestMigration

  // ---------- to_dict ----------

  function Strs(texts: seq<string>): (r: seq<Json>)
    ensures |r| == |texts| && forall i :: 0 <= i < |r| ==> r[i] == Str(texts[i])
  {
    seq(|texts|, i requires 0 <= i < |texts| => Str(texts[i]))
  }

  function OptionJson(text: Option<string>): Json
  {
    match text
    case None => Null
    case Some(s) => Str(s)
  }

  function AgentDict(a: AgentSection): Dict
  {
    map["working_dir" := Str(a.workingDir), "http_endpoint" := Str(a.httpEndpoint),
        "system_prompt_file" := OptionJson(a.systemPromptFile), "allowed_peer_agent_slugs" := Arr(Strs(a.peers))]
  }

  function MountDict(m: MountPoint): Dict
  {
    map["type" := Str(m.kind), "source" := Str(m.source), "target" := Str(m.target), "mode" := Str(m.mode)]
  }

  function MountDicts(mounts: seq<MountPoint>): (r: seq<Json>)
    ensures |r| == |mounts| && forall i :: 0 <= i < |r| ==> r[i] == Obj(MountDict(mounts[i]))
  {
    seq(|mounts|, i requires 0 <= i < |mounts| => Obj(MountDict(mounts[i])))
  }

  function EnvDict(variables: map<string, string>): Dict
  {
    map k | k in variables :: Str(variables[k])
  }

  // The runtime section, its command written as given.
  function RuntimeDict(r: RuntimeSection, command: Json): Dict
  {
    map["driver" := Str(r.driver), "image" := Str(r.image), "entrypoint" := OptionJson(r.entrypoint),
        "command" := command, "mounts" := Arr(MountDicts(r.mounts)), "env" := Obj(EnvDict(r.env)),
        "env_passthrough" := Arr(Strs(r.passthrough))]
  }

  function BackendDict(b: BackendSection): Dict
  {
    map["type" := Str(b.kind), "config" := Obj(b.config)]
  }

  function Written(m: Manifest, command: Json): Dict
  {
    map["slug" := Str(m.slug), "display_name" := Str(m.displayName), "status" := Str(m.status),
        "agent" := Obj(AgentDict(m.agent)), "runtime" := Obj(RuntimeDict(m.runtime, command)),
        "backend" := Obj(BackendDict(m.backend)), "auto_start" := Bool(m.autoStart)]
  }

  // AgentManifest.to_dict: the command as a list of words.
  function ToDict(m: Manifest): Dict
  {
    Written(m, Arr(Strs(m.runtime.command)))
  }

  // ---------- what an accepted manifest holds ----------

  predicate OptionalClean(text: Option<string>)
  {
    text.Some? ==> CleanText(text.value)
  }

  predicate StableAgent(a: AgentSection)
  {
    ValidAgent(a) && OptionalClean(a.systemPromptFile)
  }

  predicate StableRuntime(r: RuntimeSection, imageRequired: bool)
  {
    ValidRuntime(r, imageRequired) && Trimmed(r.image) && OptionalClean(r.entrypoint) && forall k :: k in r.env ==> CleanText(k)
  }

  predicate StableBackend(b: BackendSection)
  {
    CleanText(b.kind) && ConfigProblems(b.kind, b.config) == []
  }

  predicate Stable(m: Manifest)
  {
    && CleanText(m.slug) && CleanText(m.displayName) && m.status in STATUSES
    && StableAgent(m.agent) && StableBackend(m.backend) && StableRuntime(m.runtime, !IsKnownBackend(m.backend.kind))
  }

  lemma {:induction false} EntriesHaveCleanKeys(env: Env, d: Dict, keys: seq<string>)
    ensures forall k :: k in EnvEntries(env, d, keys) ==> CleanText(k)
  {
    if keys != [] {
      EntriesHaveCleanKeys(env, d, keys[..|keys| - 1]);
    }
  }

  lemma AcceptedRuntimeIsStable(
    env: Env, driver: Json, image: Json, imageRequired: bool, entrypoint: Json, command: Json, mounts: Json,
    variables: Json, passthrough: Json)
    requires ParseRuntimeFields(
               env, driver, image, imageRequired, entrypoint, command, mounts, variables, passthrough).problems == []
    ensures StableRuntime(
              ParseRuntimeFields(env, driver, image, imageRequired, entrypoint, command, mounts, variables, passthrough).value,
              imageRequired)
  {
    AcceptedRuntimeFields(env, driver, image, imageRequired, entrypoint, command, mounts, variables, passthrough);
    if Truthy(variables) {
      EntriesHaveCleanKeys(env, variables.fields, env.order(variables.fields));
    }
  }

  lemma AcceptedRuntimeSection(env: Env, r: Dict, imageRequired: bool)
    requires ParseRuntime(env, r, imageRequired).problems == []
    ensures StableRuntime(ParseRuntime(env, r, imageRequired).value, imageRequired)
  {
    AcceptedRuntimeIsStable(env, GetOr(r, "driver", Str("docker")), Get(r, "image"), imageRequired, Get(r, "entrypoint"),
                            Get(r, "command"), Get(r, "mounts"), Get(r, "env"), Get(r, "env_passthrough"));
  }

  lemma AcceptedAgentSection(env: Env, a: Dict)
    requires ParseAgent(env, a).problems == []
    ensures StableAgent(ParseAgent(env, a).value)
  {
    AcceptedAgent(env, a);
  }

  lemma AcceptedBackendSection(env: Env, b: Dict)
    requires ParseBackend(env, b).problems == []
    ensures StableBackend(ParseBackend(env, b).value)
  {
  }

  lemma CombinedIsStable(
    status: Parsed<string>, slug: Parsed<string>, name: Parsed<string>, agent: Parsed<AgentSection>,
    runtime: Parsed<RuntimeSection>, backend: Parsed<BackendSection>, autoStart: Parsed<bool>)
    requires status.value in STATUSES && CleanText(slug.value) && CleanText(name.value)
    requires StableAgent(agent.value) && StableBackend(backend.value)
    requires StableRuntime(runtime.value, !IsKnownBackend(backend.value.kind))
    ensures Stable(Combine(status, slug, name, agent, runtime, backend, autoStart).value)
  {
  }

  lemma AcceptedSectionsAreStable(env: Env, status: Json, slug: Json, name: Json, autoStart: Json, s: Sections)
    requires ParseFields(env, status, slug, name, autoStart, s).problems == []
    ensures Stable(ParseFields(env, status, slug, name, autoStart, s).value)
  {
    var imageRequired := !IsKnownBackend(BackendKind(env, s.backend));
    var state, id, title := ParseStatus(env, status), AsString(env, slug, Slug, true), AsString(env, name, DisplayName, true);
    var agent, runtime := ParseAgent(env, s.agent), ParseRuntime(env, s.runtime, imageRequired);
    var backend, auto := ParseBackend(env, s.backend), AsBool(autoStart, AutoStart);
    Combined(env, status, slug, name, autoStart, s, imageRequired);
    AcceptedStatus(env, status);
    AcceptedAgentSection(env, s.agent);
    AcceptedBackendSection(env, s.backend);
    KindsAgree(env, s.backend);
    AcceptedRuntimeSection(env, s.runtime, imageRequired);
    CombinedIsStable(state, id, title, agent, runtime, backend, auto);
  }

  lemma AcceptedIsStable(env: Env, raw: Dict)
    requires ParseManifest(env, raw).Ok?
    ensures Stable(ParseManifest(env, raw).value)
  {
    AcceptedSectionsAreStable(env, GetOr(raw, "status", Str("active")), Get(raw, "slug"), Get(raw, "display_name"),
                              Get(raw, "auto_start"), Normalize(env, raw).value);
  }

  // ---------- each part read again ----------

  lemma {:induction false} CleanItemsStay(texts: seq<string>, field: Field)
    requires forall t :: t in texts ==> CleanText(t)
    ensures StripItems(texts, field) == Parsed(texts, [])
  {
    if texts != [] {
      var n := |texts| - 1;
      CleanItemsStay(texts[..n], field);
      assert texts[n] in texts && texts[..n] + [texts[n]] == texts;
    }
  }

  lemma PeersReadBack(env: Env, peers: seq<string>)
    requires forall p :: p in peers ==> CleanText(p)
    ensures AllowedPeers(env, Arr(Strs(peers))) == Parsed(peers, [])
  {
    assert Texts(Strs(peers), item => TextOr(env.repr, item)) == peers;
    CleanItemsStay(peers, Peers);
  }

  lemma PassthroughReadsBack(env: Env, names: seq<string>)
    requires forall p :: p in names ==> CleanText(p)
    ensures ParsePassthrough(env, Arr(Strs(names))) == Parsed(names, [])
  {
    assert Texts(Strs(names), item => PyStr(env.repr, item)) == names;
    CleanItemsStay(names, Passthrough);
  }

  lemma CommandReadsBackIff(env: Env, words: seq<string>)
    ensures var p := AsCommand(env, Arr(Strs(words)));
            && (p.value == words <==> forall w :: w in words ==> CleanText(w))
            && (p.value == words ==> p.problems == [])
  {
    assert Texts(Strs(words), item => PyStr(env.repr, item)) == words;
    StrippedItemsAreClean(words, Command);
    if forall w :: w in words ==> CleanText(w) {
      CleanItemsStay(words, Command);
    }
  }

  lemma {:induction false} EntriesReadBack(env: Env, variables: map<string, string>, keys: seq<string>)
    requires forall k :: k in keys ==> k in variables && CleanText(k)
    ensures EnvEntries(env, EnvDict(variables), keys) == map k | k in variables && k in keys :: variables[k]
  {
    if keys != [] {
      var n := |keys| - 1;
      assert keys[n] in keys && keys == keys[..n] + [keys[n]];
      EntriesReadBack(env, variables, keys[..n]);
    }
  }

  lemma EnvReadsBack(env: Env, variables: map<string, string>)
    requires Faithful(env) && forall k :: k in variables ==> CleanText(k)
    ensures ParseEnv(env, Obj(EnvDict(variables))) == Parsed(variables, [])
  {
    var d := EnvDict(variables);
    var keys := env.order(d);
    assert forall k :: k in keys <==> k in d;
    EntriesReadBack(env, variables, keys);
    assert variables == map k | k in variables && k in keys :: variables[k];
  }

  lemma SmallLetters(s: string)
    requires s == "bind" || s == "volume" || s == "rw" || s == "ro" || s == "active" || s == "inactive"
    ensures Lower(s) == s && CleanText(s)
  {
  }

  lemma ChoiceReadsBack(env: Env, text: string, choices: set<string>, field: Field)
    requires text in choices && Lower(text) == text && CleanText(text)
    ensures OneOf(AsString(env, Str(text), field, true), choices, field) == Parsed(text, [])
  {
    TextParses(env, text, field);
  }

  lemma MountFieldsReadBack(env: Env, m: MountPoint, index: nat)
    requires ValidMount(m)
    ensures ParseMountFields(env, Str(m.kind), Str(m.mode), Str(m.source), Str(m.target), index) == Parsed(m, [])
  {
    SmallLetters(m.kind);
    SmallLetters(m.mode);
    ChoiceReadsBack(env, m.kind, MOUNT_TYPES, MountType(index));
    ChoiceReadsBack(env, m.mode, MOUNT_MODES, MountMode(index));
    TextParses(env, m.source, MountSource(index));
    TextParses(env, m.target, MountTarget(index));
  }

  // A mount is read by its four keys.
  lemma MountKeys(env: Env, d: Dict, index: nat, kind: Json, mode: Json, source: Json, target: Json)
    requires GetOr(d, "type", Str(DetectMountType(TextOr(env.repr, source)))) == kind && GetOr(d, "mode", Str("rw")) == mode
    requires Get(d, "source") == source && Get(d, "target") == target
    ensures ParseMount(env, Obj(d), index) == ParseMountFields(env, kind, mode, source, target, index)
  {
    ObjectOf(d, Mount(index));
    var p := ParseMountFields(env, kind, mode, source, target, index);
    assert [] + p.problems == p.problems;
  }

  lemma ObjectOf(d: Dict, field: Field)
    ensures AsDict(Obj(d), field) == Parsed(d, [])
  {
  }

  lemma MountReadsBack(env: Env, m: MountPoint, index: nat)
    requires ValidMount(m)
    ensures ParseMount(env, Obj(MountDict(m)), index) == Parsed(m, [])
  {
    MountKeys(env, MountDict(m), index, Str(m.kind), Str(m.mode), Str(m.source), Str(m.target));
    MountFieldsReadBack(env, m, index);
  }

  lemma {:induction false} EachItem(items: seq<Json>, parse: (Json, nat) -> Parsed<MountPoint>, mounts: seq<MountPoint>)
    requires |items| == |mounts| && forall i: nat :: i < |items| ==> parse(items[i], i) == Parsed(mounts[i], [])
    ensures ParseEach(items, parse) == Parsed(mounts, [])
  {
    if items != [] {
      var n := |items| - 1;
      EachItem(items[..n], parse, mounts[..n]);
      assert mounts[..n] + [mounts[n]] == mounts;
    }
  }

  lemma MountRead(env: Env, v: Json, index: nat)
    ensures MountReader(env)(v, index) == ParseMount(env, v, index)
  {
  }

  lemma EachReadsBack(env: Env, mounts: seq<MountPoint>)
    requires forall m :: m in mounts ==> ValidMount(m)
    ensures ParseEach(MountDicts(mounts), MountReader(env)) == Parsed(mounts, [])
  {
    var items, parse := MountDicts(mounts), MountReader(env);
    forall i: nat | i < |items|
      ensures parse(items[i], i) == Parsed(mounts[i], [])
    {
      assert mounts[i] in mounts;
      MountRead(env, items[i], i);
      MountReadsBack(env, mounts[i], i);
    }
    EachItem(items, parse, mounts);
  }

  lemma MountsReadBack(env: Env, mounts: seq<MountPoint>)
    requires forall m :: m in mounts ==> ValidMount(m)
    ensures ParseMounts(env, Arr(MountDicts(mounts))) == Parsed(mounts, [])
  {
    if mounts != [] {
      EachReadsBack(env, mounts);
      MountsOf(env, MountDicts(mounts));
    }
  }

  lemma MountsOf(env: Env, items: seq<Json>)
    requires items != []
    ensures ParseMounts(env, Arr(items)) == ParseEach(items, MountReader(env))
  {
    var v := Arr(items);
    assert Truthy(v);
  }

  lemma OptionReadsBack(env: Env, text: Option<string>)
    requires OptionalClean(text)
    ensures OptionalString(env, OptionJson(text)) == text
  {
  }

  lemma AgentReadsBack(env: Env, a: AgentSection)
    requires StableAgent(a)
    ensures ParseAgent(env, AgentDict(a)) == Parsed(a, [])
  {
    PeersReadBack(env, a.peers);
    OptionReadsBack(env, a.systemPromptFile);
    TextParses(env, a.workingDir, WorkingDir);
    TextParses(env, a.httpEndpoint, HttpEndpoint);
  }

  // All of the runtime comes back but the words of its command.
  lemma RuntimeFieldsReadBack(env: Env, r: RuntimeSection, imageRequired: bool, driver: Json, mounts: Json, command: Json)
    requires Faithful(env) && StableRuntime(r, imageRequired)
    requires AsString(env, driver, Driver, true) == Parsed(r.driver, []) && DriverProblems(r.driver) == []
    requires Lower(r.driver) == r.driver && ParseMounts(env, mounts) == Parsed(r.mounts, [])
    ensures var p := ParseRuntimeFields(env, driver, Str(r.image), imageRequired, OptionJson(r.entrypoint), command, mounts,
                                        Obj(EnvDict(r.env)), Arr(Strs(r.passthrough)));
            var c := AsCommand(env, command);
            p.value == r.(command := c.value) && p.problems == c.problems
  {
    OptionReadsBack(env, r.entrypoint);
    ImageReadsBack(env, r.image, imageRequired);
    EnvReadsBack(env, r.env);
    PassthroughReadsBack(env, r.passthrough);
    FieldByField(env, r, driver, Str(r.image), imageRequired, OptionJson(r.entrypoint), command, mounts,
                 Obj(EnvDict(r.env)), Arr(Strs(r.passthrough)));
  }

  lemma FieldByField(
    env: Env, r: RuntimeSection, driver: Json, image: Json, imageRequired: bool, entrypoint: Json, command: Json,
    mounts: Json, variables: Json, passthrough: Json)
    requires AsString(env, driver, Driver, true) == Parsed(r.driver, []) && DriverProblems(r.driver) == []
    requires Lower(r.driver) == r.driver && AsString(env, image, Image, imageRequired) == Parsed(r.image, [])
    requires OptionalString(env, entrypoint) == r.entrypoint && ParseMounts(env, mounts) == Parsed(r.mounts, [])
    requires ParseEnv(env, variables) == Parsed(r.env, []) && ParsePassthrough(env, passthrough) == Parsed(r.passthrough, [])
    ensures var p := ParseRuntimeFields(
                       env, driver, image, imageRequired, entrypoint, command, mounts, variables, passthrough);
            var c := AsCommand(env, command);
            p.value == r.(command := c.value) && p.problems == c.problems
  {
    var c := AsCommand(env, command);
    assert ParseRuntimeFields(env, driver, image, imageRequired, entrypoint, command, mounts, variables, passthrough)
        == Parsed(RuntimeSection(r.driver, r.image, r.entrypoint, c.value, r.mounts, r.env, r.passthrough),
                  [] + [] + c.problems + [] + [] + [] + []);
  }

  lemma ImageReadsBack(env: Env, image: string, imageRequired: bool)
    requires Trimmed(image) && (imageRequired ==> CleanText(image))
    ensures AsString(env, Str(image), Image, imageRequired) == Parsed(image, [])
  {
  }

  lemma RuntimeReadsBack(env: Env, r: RuntimeSection, imageRequired: bool, command: Json)
    requires Faithful(env) && StableRuntime(r, imageRequired)
    ensures var p, c := ParseRuntime(env, RuntimeDict(r, command), imageRequired), AsCommand(env, command);
            p.value == r.(command := c.value) && p.problems == c.problems
  {
    RuntimeKeys(env, RuntimeDict(r, command), Str(r.driver), Str(r.image), imageRequired, OptionJson(r.entrypoint), command,
                Arr(MountDicts(r.mounts)), Obj(EnvDict(r.env)), Arr(Strs(r.passthrough)));
    DockerParses(env);
    DockerIsLower();
    MountsReadBack(env, r.mounts);
    RuntimeFieldsReadBack(env, r, imageRequired, Str(r.driver), Arr(MountDicts(r.mounts)), command);
  }

  lemma BackendReadsBack(env: Env, b: BackendSection)
    requires StableBackend(b)
    ensures ParseBackend(env, BackendDict(b)) == Parsed(b, []) && BackendKind(env, BackendDict(b)) == b.kind
  {
    TextParses(env, b.kind, BackendType);
  }

  lemma StatusReadsBack(env: Env, status: string)
    requires status in STATUSES
    ensures ParseStatus(env, Str(status)) == Parsed(status, [])
  {
    SmallLetters(status);
  }

  // ---------- the whole manifest ----------

  function SectionsOf(m: Manifest, command: Json): Sections
  {
    Sections(AgentDict(m.agent), RuntimeDict(m.runtime, command), BackendDict(m.backend))
  }

  // A payload is read by its three sections and nothing else.
  lemma PayloadSections(env: Env, m: Manifest, command: Json)
    ensures Normalize(env, Written(m, command)) == Some(SectionsOf(m, command))
  {
    var s := SectionsOf(m, command);
    PayloadAgent(Written(m, command), m.agent);
    PayloadKeys(m, command);
    assert "driver" in s.runtime;
    SectionKeys(env, Written(m, command), s.agent, s.runtime, s.backend);
  }

  lemma PayloadKeys(m: Manifest, command: Json)
    ensures var d := Written(m, command);
            && Get(d, "agent") == Obj(AgentDict(m.agent)) && Get(d, "runtime") == Obj(RuntimeDict(m.runtime, command))
            && Get(d, "backend") == Obj(BackendDict(m.backend)) && Get(d, "container") == Null && "backend_type" !in d
  {
  }

  lemma PayloadAgent(raw: Dict, a: AgentSection)
    ensures LegacyAgent(raw, AgentDict(a)) == AgentDict(a)
  {
    assert LEGACY_AGENT_KEYS <= AgentDict(a).Keys;
  }

  lemma CombinedValues(m: Manifest, runtime: Parsed<RuntimeSection>)
    ensures Combine(Parsed(m.status, []), Parsed(m.slug, []), Parsed(m.displayName, []), Parsed(m.agent, []), runtime,
                    Parsed(m.backend, []), Parsed(m.autoStart, []))
            == Parsed(m.(runtime := runtime.value), runtime.problems)
  {
  }

  lemma IdentityReadsBack(env: Env, m: Manifest, s: Sections, imageRequired: bool)
    requires Stable(m) && imageRequired == !IsKnownBackend(BackendKind(env, s.backend))
    ensures ParseFields(env, Str(m.status), Str(m.slug), Str(m.displayName), Bool(m.autoStart), s) ==
            Combine(Parsed(m.status, []), Parsed(m.slug, []), Parsed(m.displayName, []), ParseAgent(env, s.agent),
                    ParseRuntime(env, s.runtime, imageRequired), ParseBackend(env, s.backend), Parsed(m.autoStart, []))
  {
    StatusReadsBack(env, m.status);
    TextParses(env, m.slug, Slug);
    TextParses(env, m.displayName, DisplayName);
    Combined(env, Str(m.status), Str(m.slug), Str(m.displayName), Bool(m.autoStart), s, imageRequired);
  }

  lemma PartByPart(env: Env, m: Manifest, s: Sections, r: Parsed<RuntimeSection>)
    requires Stable(m) && ParseAgent(env, s.agent) == Parsed(m.agent, [])
    requires ParseBackend(env, s.backend) == Parsed(m.backend, []) && BackendKind(env, s.backend) == m.backend.kind
    requires ParseRuntime(env, s.runtime, !IsKnownBackend(m.backend.kind)) == r
    ensures ParseFields(env, Str(m.status), Str(m.slug), Str(m.displayName), Bool(m.autoStart), s)
            == Parsed(m.(runtime := r.value), r.problems)
  {
    IdentityReadsBack(env, m, s, !IsKnownBackend(m.backend.kind));
    CombinedValues(m, r);
  }

  // The runtime as read again: the words of its command are those read.
  function RuntimeAgain(env: Env, r: RuntimeSection, command: Json): Parsed<RuntimeSection>
  {
    var c := AsCommand(env, command);
    Parsed(r.(command := c.value), c.problems)
  }

  lemma FieldsReadBack(env: Env, m: Manifest, command: Json)
    requires Faithful(env) && Stable(m)
    ensures var r := RuntimeAgain(env, m.runtime, command);
            ParseFields(env, Str(m.status), Str(m.slug), Str(m.displayName), Bool(m.autoStart), SectionsOf(m, command))
            == Parsed(m.(runtime := r.value), r.problems)
  {
    AgentReadsBack(env, m.agent);
    BackendReadsBack(env, m.backend);
    RuntimeReadsBack(env, m.runtime, !IsKnownBackend(m.backend.kind), command);
    PartByPart(env, m, SectionsOf(m, command), RuntimeAgain(env, m.runtime, command));
  }

  lemma PayloadIdentity(m: Manifest, command: Json)
    ensures var d := Written(m, command);
            && GetOr(d, "status", Str("active")) == Str(m.status) && Get(d, "slug") == Str(m.slug)
            && Get(d, "display_name") == Str(m.displayName) && Get(d, "auto_start") == Bool(m.autoStart)
  {
  }

  lemma ReadByKeys(env: Env, d: Dict, status: Json, slug: Json, name: Json, autoStart: Json, s: Sections)
    requires Normalize(env, d) == Some(s) && GetOr(d, "status", Str("active")) == status && Get(d, "slug") == slug
    requires Get(d, "display_name") == name && Get(d, "auto_start") == autoStart
    ensures ParseManifest(env, d) == Verdict(ParseFields(env, status, slug, name, autoStart, s))
  {
  }

  // A stable manifest, written with some command, is read with its words.
  lemma WrittenReads(env: Env, m: Manifest, command: Json)
    requires Faithful(env) && Stable(m)
    ensures var r := RuntimeAgain(env, m.runtime, command);
            ParseManifest(env, Written(m, command)) == Verdict(Parsed(m.(runtime := r.value), r.problems))
  {
    PayloadSections(env, m, command);
    PayloadIdentity(m, command);
    ReadByKeys(env, Written(m, command), Str(m.status), Str(m.slug), Str(m.displayName), Bool(m.autoStart),
               SectionsOf(m, command));
    FieldsReadBack(env, m, command);
  }

  lemma StableComesBackIff(env: Env, m: Manifest)
    requires Faithful(env) && Stable(m)
    ensures ParseManifest(env, ToDict(m)) == Ok(m) <==> forall w :: w in m.runtime.command ==> CleanText(w)
  {
    var command := Arr(Strs(m.runtime.command));
    WrittenReads(env, m, command);
    CommandReadsBackIff(env, m.runtime.command);
    var c := AsCommand(env, command).value;
    assert m.(runtime := m.runtime.(command := c)) == m <==> c == m.runtime.command;
  }

  // An accepted manifest, answered as a payload and read again, is the same
  // manifest if and only if no word of its command has blanks around it.
  lemma ReadBackIff(env: Env, raw: Dict)
    requires Faithful(env) && ParseManifest(env, raw).Ok?
    ensures var m := ParseManifest(env, raw).value;
            ParseManifest(env, ToDict(m)) == Ok(m) <==> forall w :: w in m.runtime.command ==> CleanText(w)
  {
    var m := ParseManifest(env, raw).value;
    AcceptedIsStable(env, raw);
    StableComesBackIff(env, m);
  }

  // Only words that the shell splitting left blanks in are at risk.
  lemma ListedCommandComesBack(env: Env, raw: Dict)
    requires Faithful(env) && ParseManifest(env, raw).Ok?
    requires !Get(Normalize(env, raw).value.runtime, "command").Str?
    ensures ParseManifest(env, ToDict(ParseManifest(env, raw).value)) == ParseManifest(env, raw)
  {
    var s := Normalize(env, raw).value;
    ListedWordsAreClean(env, Get(s.runtime, "command"));
    RuntimeCommand(env, s.runtime, !IsKnownBackend(BackendKind(env, s.backend)));
    ReadBackIff(env, raw);
  }

  lemma RuntimeCommand(env: Env, r: Dict, imageRequired: bool)
    ensures ParseRuntime(env, r, imageRequired).value.command == AsCommand(env, Get(r, "command")).value
  {
  }

  lemma ListedWordsAreClean(env: Env, command: Json)
    requires !command.Str?
    ensures forall w :: w in AsCommand(env, command).value ==> CleanText(w)
  {
    if command.Arr? {
      StrippedItemsAreClean(Texts(command.items, item => PyStr(env.repr, item)), Command);
    }
  }

  // ---------- a manifest that does not come back ----------

  function OneWord(word: string): Manifest
  {
    Manifest("x", "x", "active", AgentSection("/workspace", "x", None, []),
             RuntimeSection("docker", "x", None, [word], [], map[], []), BackendSection("x", map[]), false)
  }

  lemma OneWordIsStable(word: string)
    requires word != ""
    ensures Stable(OneWord(word))
  {
    assert CleanText("x") && CleanText("/workspace") && !IsKnownBackend("x");
  }

  lemma QuotedWordIsLost(env: Env, line: string, word: string)
    requires Faithful(env) && env.shlex(line) == Some([word]) && line != "" && word != "" && !CleanText(word)
    ensures ParseManifest(env, Written(OneWord(word), Str(line))) == Ok(OneWord(word))
    ensures ParseManifest(env, ToDict(OneWord(word))) != Ok(OneWord(word))
  {
    OneWordIsStable(word);
    OneWordKept(word);
    WordsOfLine(env, line, word);
    WrittenReads(env, OneWord(word), Str(line));
    StableComesBackIff(env, OneWord(word));
    assert word in OneWord(word).runtime.command;
  }

  lemma WordsOfLine(env: Env, line: string, word: string)
    requires env.shlex(line) == Some([word]) && line != "" && word != ""
    ensures AsCommand(env, Str(line)) == Parsed([word], [])
  {
    OneWordKept(word);
  }

  lemma BlankFirst(word: string)
    requires word == " a"
    ensures word != "" && !CleanText(word)
  {
    assert IsSpace(word[0]);
  }

  // A quoted word keeps its blank when the command is split, and loses it when
  // the manifest is read again.
  lemma QuotedBlankIsLost(env: Env)
    requires Faithful(env) && env.shlex("' a'") == Some([" a"])
    ensures ParseManifest(env, Written(OneWord(" a"), Str("' a'"))) == Ok(OneWord(" a"))
    ensures ParseManifest(env, ToDict(OneWord(" a"))) != Ok(OneWord(" a"))
  {
    BlankFirst(" a");
    QuotedWordIsLost(env, "' a'", " a");
  }

  lemma OneWordKept(word: string)
    requires word != ""
    ensures NonEmpty([word]) == [word]
  {
    assert [word][1..] == [];
  }
}
