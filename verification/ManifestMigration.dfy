// Migration of legacy manifests (src/core/orchestra_agents/_migration_manifest.py)
// against the parser: migrating is idempotent, and what it produces parses to
// the same manifest whenever the backend is a known one.
module ManifestMigration {

  import opened Wrappers
  import opened PyText
  import opened JsonModel
  import opened ManifestParsing
  import opened ManifestParser

  // ---------- the migration ----------

  // A section that is no object is dropped.
  function PlainDict(v: Json): Dict
  {
    match v
    case Obj(fields) => fields
    case _ => map[]
  }

  // list(value); None when the value cannot be iterated.
  function AsList(env: Env, v: Json): Option<seq<Json>>
  {
    match v
    case Arr(items) => Some(items)
    case Str(s) => Some(seq(|s|, i requires 0 <= i < |s| => Str([s[i]])))
    case Obj(fields) => var keys := env.order(fields); Some(seq(|keys|, i requires 0 <= i < |keys| => Str(keys[i])))
    case _ => None
  }

  const KEPT_AGENT_KEYS: set<string> := {"working_dir", "http_endpoint"}

  // The clean agent block: known fields only, blank prompt and peers left out.
  function CleanAgent(env: Env, agent: Dict): Option<Dict>
  {
    var kept := Restrict(agent, KEPT_AGENT_KEYS);
    var prompt := Get(agent, "system_prompt_file");
    var named := if Truthy(prompt) then kept["system_prompt_file" := prompt] else kept;
    var peers := Get(agent, "allowed_peer_agent_slugs");
    if !Truthy(peers) then Some(named)
    else
      match AsList(env, peers)
      case None => None
      case Some(items) => Some(named["allowed_peer_agent_slugs" := Arr(items)])
  }

  const STRIPPED_KEYS: set<string> :=
    {"runtime", "working_dir", "http_endpoint", "system_prompt_file", "backend_type", "container"}

  function Assemble(raw: Dict, agent: Dict, backend: Dict): Dict
  {
    (raw - STRIPPED_KEYS)["backend" := Obj(backend)]["agent" := Obj(agent)]
  }

  // None when the peers cannot be iterated.
  function Migrate(env: Env, raw: Dict): Option<Dict>
  {
    match CleanAgent(env, LegacyAgent(raw, PlainDict(Get(raw, "agent"))))
    case None => None
    case Some(agent) => Some(Assemble(raw, agent, LegacyBackend(raw, PlainDict(Get(raw, "backend")))))
  }

  // ---------- the migrated payload ----------

  lemma AssembledSections(raw: Dict, agent: Dict, backend: Dict)
    ensures var m := Assemble(raw, agent, backend);
            && Get(m, "agent") == Obj(agent) && Get(m, "backend") == Obj(backend)
            && Get(m, "runtime") == Null && Get(m, "container") == Null
            && LegacyAgent(m, agent) == agent && LegacyBackend(m, backend) == backend
            && m - STRIPPED_KEYS == m
  {
    var m := Assemble(raw, agent, backend);
    assert Restrict(m, LEGACY_AGENT_KEYS) == map[];
  }

  lemma AssembledAgain(raw: Dict, agent: Dict, backend: Dict)
    ensures Assemble(Assemble(raw, agent, backend), agent, backend) == Assemble(raw, agent, backend)
  {
    AssembledSections(raw, agent, backend);
  }

  lemma AssembledIdentity(raw: Dict, agent: Dict, backend: Dict)
    ensures var m := Assemble(raw, agent, backend);
            && Get(m, "slug") == Get(raw, "slug") && Get(m, "display_name") == Get(raw, "display_name")
            && GetOr(m, "status", Str("active")) == GetOr(raw, "status", Str("active"))
            && Get(m, "auto_start") == Get(raw, "auto_start")
  {
  }

  // Every other root key stays as it is.
  lemma OtherKeysStay(raw: Dict, agent: Dict, backend: Dict, key: string)
    requires key != "agent" && key != "backend" && key != "runtime" && key != "container" && key != "backend_type"
    requires key != "working_dir" && key != "http_endpoint" && key != "system_prompt_file"
    ensures var m := Assemble(raw, agent, backend);
            (key in m <==> key in raw) && (key in raw ==> m[key] == raw[key])
  {
  }

  lemma CleanAgentFields(env: Env, agent: Dict)
    requires CleanAgent(env, agent).Some?
    ensures var c := CleanAgent(env, agent).value;
            var prompt, peers := Get(agent, "system_prompt_file"), Get(agent, "allowed_peer_agent_slugs");
            && GetOr(c, "working_dir", Str(DEFAULT_WORKING_DIR)) == GetOr(agent, "working_dir", Str(DEFAULT_WORKING_DIR))
            && Get(c, "http_endpoint") == Get(agent, "http_endpoint")
            && Get(c, "system_prompt_file") == (if Truthy(prompt) then prompt else Null)
            && Get(c, "allowed_peer_agent_slugs") == (if Truthy(peers) then Arr(AsList(env, peers).value) else Null)
            && ("working_dir" in c <==> "working_dir" in agent) && ("http_endpoint" in c <==> "http_endpoint" in agent)
            && ("system_prompt_file" in c <==> Truthy(prompt)) && ("allowed_peer_agent_slugs" in c <==> Truthy(peers))
  {
  }

  const AGENT_KEYS: set<string> := {"working_dir", "http_endpoint", "system_prompt_file", "allowed_peer_agent_slugs"}

  lemma CleanAgentKeys(env: Env, agent: Dict)
    requires CleanAgent(env, agent).Some?
    ensures CleanAgent(env, agent).value.Keys <= AGENT_KEYS
  {
  }

  // Listed peers are never empty, and listing them again changes nothing.
  lemma ListedPeersStay(env: Env, v: Json)
    requires Faithful(env) && Truthy(v) && AsList(env, v).Some?
    ensures var items := AsList(env, v).value; items != [] && AsList(env, Arr(items)) == Some(items)
  {
    if v.Obj? {
      var k :| k in v.fields;
      assert k in env.order(v.fields);
    }
  }

  lemma SameDict(a: Dict, b: Dict)
    requires a.Keys == b.Keys && forall k :: k in a ==> Get(a, k) == Get(b, k)
    ensures a == b
  {
    assert forall k :: k in a ==> a[k] == Get(a, k) == b[k];
  }

  lemma CleanIsFixed(env: Env, agent: Dict)
    requires Faithful(env) && CleanAgent(env, agent).Some?
    ensures CleanAgent(env, CleanAgent(env, agent).value) == CleanAgent(env, agent)
  {
    var c := CleanAgent(env, agent).value;
    CleanAgentFields(env, agent);
    CleanAgentKeys(env, agent);
    if Truthy(Get(agent, "allowed_peer_agent_slugs")) {
      ListedPeersStay(env, Get(agent, "allowed_peer_agent_slugs"));
    }
    CleanAgentFields(env, c);
    CleanAgentKeys(env, c);
    SameDict(CleanAgent(env, c).value, c);
  }

  // Migrating a migrated manifest changes nothing.
  lemma MigrateIdempotent(env: Env, raw: Dict)
    requires Faithful(env) && Migrate(env, raw).Some?
    ensures Migrate(env, Migrate(env, raw).value) == Migrate(env, raw)
  {
    var legacy := LegacyAgent(raw, PlainDict(Get(raw, "agent")));
    var agent := CleanAgent(env, legacy).value;
    var backend := LegacyBackend(raw, PlainDict(Get(raw, "backend")));
    AssembledSections(raw, agent, backend);
    AssembledAgain(raw, agent, backend);
    CleanIsFixed(env, legacy);
  }

  // ---------- meaning ----------

  // Each section is an object, or blank or absent.
  predicate PlainSection(v: Json)
  {
    v.Obj? || !Truthy(v)
  }

  predicate PlainSections(raw: Dict)
  {
    PlainSection(Get(raw, "agent")) && PlainSection(Get(raw, "runtime")) && PlainSection(Get(raw, "backend"))
  }

  lemma PlainSectionReadAlike(env: Env, v: Json)
    requires PlainSection(v)
    ensures Section(env, v) == Some(PlainDict(v))
  {
  }

  // A manifest in three sections is read by their keys.
  lemma SectionKeys(env: Env, d: Dict, agent: Dict, runtime: Dict, backend: Dict)
    requires Get(d, "agent") == Obj(agent) && Get(d, "runtime") == Obj(runtime) && Get(d, "backend") == Obj(backend)
    requires Get(d, "container") == Null && "backend_type" !in d && LegacyAgent(d, agent) == agent
    ensures Normalize(env, d) == Some(Sections(agent, WithDriver(runtime), backend))
  {
    PlainSectionReadAlike(env, Obj(agent));
    PlainSectionReadAlike(env, Obj(runtime));
    PlainSectionReadAlike(env, Obj(backend));
  }

  lemma AcceptedPeersAreListed(env: Env, v: Json)
    requires AllowedPeers(env, v).problems == []
    ensures Truthy(v) ==> AsList(env, v).Some? && v == Arr(AsList(env, v).value)
    ensures !Truthy(v) ==> AllowedPeers(env, v) == AllowedPeers(env, Null)
  {
  }

  lemma PromptKeepsMeaning(env: Env, prompt: Json)
    ensures OptionalString(env, if Truthy(prompt) then prompt else Null) == OptionalString(env, prompt)
  {
  }

  // The clean agent block parses like the block it was made from.
  lemma CleanAgentParsesAlike(env: Env, agent: Dict)
    requires AllowedPeers(env, Get(agent, "allowed_peer_agent_slugs")).problems == []
    ensures CleanAgent(env, agent).Some?
    ensures ParseAgent(env, CleanAgent(env, agent).value) == ParseAgent(env, agent)
  {
    AcceptedPeersAreListed(env, Get(agent, "allowed_peer_agent_slugs"));
    PromptKeepsMeaning(env, Get(agent, "system_prompt_file"));
    CleanAgentFields(env, agent);
  }

  const DEFAULT_RUNTIME := RuntimeSection("docker", "", None, [], [], map[], [])

  lemma DockerIsLower()
    ensures Lower("docker") == "docker" && Strip("docker") == "docker"
  {
    var s := "docker";
    assert forall i :: 0 <= i < |s| ==> !('A' <= s[i] <= 'Z');
    assert Lower(s) == s;
    assert Trimmed(s);
  }

  lemma DockerParses(env: Env)
    ensures AsString(env, Str("docker"), Driver, true) == Parsed("docker", []) && DriverProblems("docker") == []
  {
    DockerIsLower();
  }

  lemma EmptyRuntimeFields()
    ensures var r := WithDriver(map[]);
            && GetOr(r, "driver", Str("docker")) == Str("docker") && Get(r, "image") == Null
            && Get(r, "entrypoint") == Null && Get(r, "command") == Null && Get(r, "mounts") == Null
            && Get(r, "env") == Null && Get(r, "env_passthrough") == Null
  {
  }

  // Without a runtime section everything defaults, and only the image is missed.
  lemma EmptyRuntimeParses(env: Env, imageRequired: bool)
    ensures var p := ParseRuntime(env, WithDriver(map[]), imageRequired);
            p.value == DEFAULT_RUNTIME && p.problems == if imageRequired then [IsRequired(Image)] else []
  {
    EmptyRuntimeFields();
    DockerIsLower();
    DockerParses(env);
  }

  // What the parser reads of a migrated manifest.
  lemma MigratedSections(env: Env, raw: Dict)
    requires Migrate(env, raw).Some?
    ensures var agent := CleanAgent(env, LegacyAgent(raw, PlainDict(Get(raw, "agent")))).value;
            var backend := LegacyBackend(raw, PlainDict(Get(raw, "backend")));
            Normalize(env, Migrate(env, raw).value) == Some(Sections(agent, WithDriver(map[]), backend))
  {
    var agent := CleanAgent(env, LegacyAgent(raw, PlainDict(Get(raw, "agent")))).value;
    var backend := LegacyBackend(raw, PlainDict(Get(raw, "backend")));
    AssembledSections(raw, agent, backend);
    PlainSectionReadAlike(env, Obj(agent));
    PlainSectionReadAlike(env, Obj(backend));
  }

  lemma RawSections(env: Env, raw: Dict)
    requires PlainSections(raw) && Normalize(env, raw).Some?
    ensures var s := Normalize(env, raw).value;
            && s.agent == LegacyAgent(raw, PlainDict(Get(raw, "agent")))
            && s.backend == LegacyBackend(raw, PlainDict(Get(raw, "backend")))
  {
    PlainSectionReadAlike(env, Get(raw, "agent"));
    PlainSectionReadAlike(env, Get(raw, "backend"));
  }

  predicate SameMeaning(a: Manifest, b: Manifest)
  {
    && a.slug == b.slug && a.displayName == b.displayName && a.status == b.status && a.autoStart == b.autoStart
    && a.agent == b.agent && a.backend == b.backend
  }

  lemma CombinedAlike(
    status: Parsed<string>, slug: Parsed<string>, name: Parsed<string>, agent: Parsed<AgentSection>,
    before: Parsed<RuntimeSection>, after: Parsed<RuntimeSection>, backend: Parsed<BackendSection>, autoStart: Parsed<bool>)
    requires Combine(status, slug, name, agent, before, backend, autoStart).problems == []
    ensures var p := Combine(status, slug, name, agent, after, backend, autoStart);
            && (p.problems == [] <==> after.problems == []) && p.value.runtime == after.value
            && SameMeaning(p.value, Combine(status, slug, name, agent, before, backend, autoStart).value)
  {
  }

  // The parts the runtime has no influence on parse alike; the runtime
  // contributes a missing image exactly when the backend is unknown.
  lemma FieldsParseAlike(env: Env, status: Json, slug: Json, name: Json, autoStart: Json, agent: Dict, s: Sections)
    requires ParseAgent(env, agent) == ParseAgent(env, s.agent)
    requires ParseFields(env, status, slug, name, autoStart, s).problems == []
    ensures var p := ParseFields(env, status, slug, name, autoStart, Sections(agent, WithDriver(map[]), s.backend));
            && (p.problems == [] <==> IsKnownBackend(BackendKind(env, s.backend)))
            && SameMeaning(p.value, ParseFields(env, status, slug, name, autoStart, s).value)
            && p.value.runtime == DEFAULT_RUNTIME
  {
    var imageRequired := !IsKnownBackend(BackendKind(env, s.backend));
    Combined(env, status, slug, name, autoStart, s, imageRequired);
    Combined(env, status, slug, name, autoStart, Sections(agent, WithDriver(map[]), s.backend), imageRequired);
    EmptyRuntimeParses(env, imageRequired);
    CombinedAlike(ParseStatus(env, status), AsString(env, slug, Slug, true), AsString(env, name, DisplayName, true),
                  ParseAgent(env, agent), ParseRuntime(env, s.runtime, imageRequired),
                  ParseRuntime(env, WithDriver(map[]), imageRequired), ParseBackend(env, s.backend),
                  AsBool(autoStart, AutoStart));
  }

  lemma SectionsParseAlike(env: Env, raw: Dict, agent: Dict, s: Sections)
    requires ParseAgent(env, agent) == ParseAgent(env, s.agent)
    requires ParseSections(env, raw, s).problems == []
    ensures var m := Assemble(raw, agent, s.backend);
            var p := ParseSections(env, m, Sections(agent, WithDriver(map[]), s.backend));
            && (p.problems == [] <==> IsKnownBackend(BackendKind(env, s.backend)))
            && SameMeaning(p.value, ParseSections(env, raw, s).value) && p.value.runtime == DEFAULT_RUNTIME
  {
    AssembledIdentity(raw, agent, s.backend);
    FieldsParseAlike(env, GetOr(raw, "status", Str("active")), Get(raw, "slug"), Get(raw, "display_name"),
                     Get(raw, "auto_start"), agent, s);
  }

  lemma MigratesTo(env: Env, raw: Dict, s: Sections, agent: Dict)
    requires PlainSections(raw) && Normalize(env, raw) == Some(s) && CleanAgent(env, s.agent) == Some(agent)
    ensures Migrate(env, raw) == Some(Assemble(raw, agent, s.backend))
    ensures Normalize(env, Assemble(raw, agent, s.backend)) == Some(Sections(agent, WithDriver(map[]), s.backend))
  {
    RawSections(env, raw);
    MigratedSections(env, raw);
  }

  lemma VerdictOf(env: Env, raw: Dict, s: Sections)
    requires Normalize(env, raw) == Some(s)
    ensures ParseManifest(env, raw) == Verdict(ParseSections(env, raw, s))
  {
  }

  lemma AgentAccepted(env: Env, raw: Dict, s: Sections)
    requires ParseSections(env, raw, s).problems == []
    ensures AllowedPeers(env, Get(s.agent, "allowed_peer_agent_slugs")).problems == []
    ensures ParseSections(env, raw, s).value.backend == ParseBackend(env, s.backend).value
  {
  }

  // Every manifest that parses migrates, and the result parses exactly when the
  // backend is a known one; it then agrees on all but the dropped runtime.
  lemma MigrationPreservesMeaning(env: Env, raw: Dict)
    requires ParseManifest(env, raw).Ok? && PlainSections(raw)
    ensures Migrate(env, raw).Some?
    ensures var m, before := ParseManifest(env, Migrate(env, raw).value), ParseManifest(env, raw).value;
            && (m.Ok? <==> IsKnownBackend(before.backend.kind))
            && (m.Ok? ==> SameMeaning(m.value, before) && m.value.runtime == DEFAULT_RUNTIME)
  {
    var s := Normalize(env, raw).value;
    VerdictOf(env, raw, s);
    AgentAccepted(env, raw, s);
    CleanAgentParsesAlike(env, s.agent);
    var agent := CleanAgent(env, s.agent).value;
    MigratesTo(env, raw, s, agent);
    VerdictOf(env, Assemble(raw, agent, s.backend), Sections(agent, WithDriver(map[]), s.backend));
    SectionsParseAlike(env, raw, agent, s);
    KindsAgree(env, s.backend);
  }

  // ---------- a manifest that migration breaks ----------

  function ImageManifest(text: string): Dict
  {
    map["slug" := Str(text), "display_name" := Str(text), "agent" := Obj(map["http_endpoint" := Str(text)]),
        "runtime" := Obj(map["image" := Str(text)]), "backend" := Obj(map["type" := Str(text)])]
  }

  function ImageSections(text: string): Sections
  {
    Sections(map["http_endpoint" := Str(text)], WithDriver(map["image" := Str(text)]), map["type" := Str(text)])
  }

  lemma ImageManifestSections(env: Env, text: string)
    ensures Normalize(env, ImageManifest(text)) == Some(ImageSections(text)) && PlainSections(ImageManifest(text))
  {
    var raw := ImageManifest(text);
    ImageKeys(text);
    SectionKeys(env, raw, map["http_endpoint" := Str(text)], map["image" := Str(text)], map["type" := Str(text)]);
  }

  lemma ImageKeys(text: string)
    ensures var raw, agent := ImageManifest(text), map["http_endpoint" := Str(text)];
            && Get(raw, "agent") == Obj(agent) && Get(raw, "runtime") == Obj(map["image" := Str(text)])
            && Get(raw, "backend") == Obj(map["type" := Str(text)])
            && Get(raw, "container") == Null && "backend_type" !in raw && LegacyAgent(raw, agent) == agent
  {
    var raw := ImageManifest(text);
    assert Restrict(raw, LEGACY_AGENT_KEYS) == map[];
  }

  lemma TextParses(env: Env, text: string, field: Field)
    requires CleanText(text)
    ensures AsString(env, Str(text), field, true) == Parsed(text, [])
  {
  }

  lemma ActiveParses(env: Env)
    ensures ParseStatus(env, Str("active")).problems == []
  {
    var s := "active";
    TextParses(env, s, Status);
    assert Lower(s) == s;
  }

  lemma ImageAgentParses(env: Env, text: string)
    requires CleanText(text)
    ensures ParseAgent(env, ImageSections(text).agent).problems == []
  {
    TextParses(env, text, HttpEndpoint);
    TextParses(env, DEFAULT_WORKING_DIR, WorkingDir);
  }

  lemma ImageRuntimeParses(env: Env, text: string)
    requires CleanText(text)
    ensures ParseRuntime(env, ImageSections(text).runtime, true).problems == []
  {
    var r := ImageSections(text).runtime;
    RuntimeKeys(env, r, Str("docker"), Str(text), true, Null, Null, Null, Null, Null);
    DockerParses(env);
    TextParses(env, text, Image);
  }

  lemma ImageBackendParses(env: Env, text: string)
    requires CleanText(text) && !IsKnownBackend(text)
    ensures ParseBackend(env, ImageSections(text).backend).problems == []
    ensures ParseBackend(env, ImageSections(text).backend).value.kind == text
    ensures BackendKind(env, ImageSections(text).backend) == text
  {
    TextParses(env, text, BackendType);
  }

  lemma ImageFieldsParse(env: Env, text: string)
    requires CleanText(text) && !IsKnownBackend(text)
    ensures ParseFields(env, Str("active"), Str(text), Str(text), Null, ImageSections(text)).problems == []
  {
    ActiveParses(env);
    TextParses(env, text, Slug);
    TextParses(env, text, DisplayName);
    ImageAgentParses(env, text);
    ImageRuntimeParses(env, text);
    ImageBackendParses(env, text);
  }

  lemma ImageIdentity(text: string)
    ensures var raw := ImageManifest(text);
            && GetOr(raw, "status", Str("active")) == Str("active") && Get(raw, "slug") == Str(text)
            && Get(raw, "display_name") == Str(text) && Get(raw, "auto_start") == Null
  {
  }

  lemma AcceptedFields(env: Env, raw: Dict, status: Json, slug: Json, name: Json, autoStart: Json, s: Sections)
    requires Normalize(env, raw) == Some(s)
    requires GetOr(raw, "status", Str("active")) == status && Get(raw, "slug") == slug
    requires Get(raw, "display_name") == name && Get(raw, "auto_start") == autoStart
    requires ParseFields(env, status, slug, name, autoStart, s).problems == []
    ensures ParseManifest(env, raw).Ok?
    ensures ParseManifest(env, raw).value.backend == ParseBackend(env, s.backend).value
  {
  }

  lemma ImageManifestParses(env: Env, text: string)
    requires CleanText(text) && !IsKnownBackend(text)
    ensures ParseManifest(env, ImageManifest(text)).Ok?
    ensures ParseManifest(env, ImageManifest(text)).value.backend.kind == text
  {
    ImageManifestSections(env, text);
    ImageFieldsParse(env, text);
    ImageIdentity(text);
    AcceptedFields(env, ImageManifest(text), Str("active"), Str(text), Str(text), Null, ImageSections(text));
    ImageBackendParses(env, text);
  }

  // A manifest with an unknown backend and an image parses; migrated, it has
  // lost its image and does not.
  lemma UnknownBackendBreaks(env: Env, text: string)
    requires CleanText(text) && !IsKnownBackend(text)
    ensures ParseManifest(env, ImageManifest(text)).Ok?
    ensures Migrate(env, ImageManifest(text)).Some?
    ensures ParseManifest(env, Migrate(env, ImageManifest(text)).value).Err?
  {
    ImageManifestSections(env, text);
    ImageManifestParses(env, text);
    MigrationPreservesMeaning(env, ImageManifest(text));
  }

  lemma CustomBackendBreaks(env: Env)
    ensures ParseManifest(env, ImageManifest("x")).Ok?
    ensures Migrate(env, ImageManifest("x")).Some?
    ensures ParseManifest(env, Migrate(env, ImageManifest("x")).value).Err?
  {
    assert CleanText("x") && !IsKnownBackend("x");
    UnknownBackendBreaks(env, "x");
  }

  // ---------- legacy and unified layouts ----------

  // The manifest rewritten by hand to the three sections the parser works on.
  function Unified(raw: Dict, s: Sections): Dict
  {
    (raw - STRIPPED_KEYS)["agent" := Obj(s.agent)]["runtime" := Obj(s.runtime)]["backend" := Obj(s.backend)]
  }

  lemma UnifiedSections(env: Env, raw: Dict, s: Sections)
    requires "driver" in s.runtime
    ensures Normalize(env, Unified(raw, s)) == Some(s)
  {
    var u := Unified(raw, s);
    assert Restrict(u, LEGACY_AGENT_KEYS) == map[];
    assert LegacyAgent(u, s.agent) == s.agent && LegacyBackend(u, s.backend) == s.backend;
    PlainSectionReadAlike(env, Obj(s.agent));
    PlainSectionReadAlike(env, Obj(s.runtime));
    PlainSectionReadAlike(env, Obj(s.backend));
  }

  lemma UnifiedIdentity(raw: Dict, s: Sections)
    ensures var m := Unified(raw, s);
            && Get(m, "slug") == Get(raw, "slug") && Get(m, "display_name") == Get(raw, "display_name")
            && GetOr(m, "status", Str("active")) == GetOr(raw, "status", Str("active"))
            && Get(m, "auto_start") == Get(raw, "auto_start")
  {
  }

  lemma UnifiedFields(env: Env, raw: Dict, s: Sections)
    ensures ParseSections(env, Unified(raw, s), s) == ParseSections(env, raw, s)
  {
    UnifiedIdentity(raw, s);
  }

  // A legacy manifest parses exactly like its unified rewriting: the same
  // manifest, or the same problems.
  lemma LegacyParsesLikeUnified(env: Env, raw: Dict)
    requires Normalize(env, raw).Some?
    ensures ParseManifest(env, raw) == ParseManifest(env, Unified(raw, Normalize(env, raw).value))
  {
    UnifiedSections(env, raw, Normalize(env, raw).value);
    UnifiedFields(env, raw, Normalize(env, raw).value);
  }
}
