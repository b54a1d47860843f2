// The manifest parser (src/core/orchestra_agents: _manifest_parsing.py,
// _manifest_field_parsing.py, _backend_validation.py). Every helper yields a
// value and the problems it adds to the parser's shared error list.
module ManifestParsing {

  import opened Wrappers
  import opened PyText
  import opened JsonModel

  // What parsing takes from outside: str() of containers, shlex.split (None
  // when it raises), dict iteration order, and dict() of a list of pairs.
  datatype Env = Env(
    repr: Repr,
    shlex: string -> Option<seq<string>>,
    order: Dict -> seq<string>,
    pairs: seq<Json> -> Option<Dict>)

  // Iterating a dict visits exactly its keys.
  ghost predicate Faithful(env: Env)
  {
    forall d: Dict, k: string :: k in env.order(d) <==> k in d
  }

  datatype Field =
    | Root | Slug | DisplayName | Status | AutoStart
    | Agent | WorkingDir | HttpEndpoint | Peers
    | Runtime | Driver | Image | Command | RuntimeEnv | Passthrough
    | Mounts | Mount(index: nat) | MountType(index: nat) | MountMode(index: nat)
    | MountSource(index: nat) | MountTarget(index: nat)
    | Backend | BackendType | BackendConfig | Servers | Server(index: nat)

  // Missing and Unsupported stand for one message per key.
  datatype Problem =
    | Unreadable
    | IsRequired(field: Field)
    | WrongType(field: Field)
    | NotAllowed(field: Field)
    | EmptyItem(field: Field, index: nat)
    | Missing(field: Field, keys: set<string>)
    | Unsupported(field: Field, keys: set<string>)

  datatype Parsed<T> = Parsed(value: T, problems: seq<Problem>)

  // ---------- scalar fields ----------

  function AsDict(v: Json, field: Field): Parsed<Dict>
  {
    match v
    case Null => Parsed(map[], [])
    case Obj(fields) => Parsed(fields, [])
    case _ => Parsed(map[], [WrongType(field)])
  }

  function AsBool(v: Json, field: Field): Parsed<bool>
  {
    match v
    case Null => Parsed(false, [])
    case Bool(b) => Parsed(b, [])
    case _ => Parsed(false, [WrongType(field)])
  }

  function AsString(env: Env, v: Json, field: Field, required: bool): Parsed<string>
  {
    var text := if v.Null? then "" else Strip(PyStr(env.repr, v));
    Parsed(text, if required && text == "" then [IsRequired(field)] else [])
  }

  function OptionalString(env: Env, v: Json): Option<string>
  {
    var text := Strip(TextOr(env.repr, v));
    if text == "" then None else Some(text)
  }

  function OneOf(p: Parsed<string>, choices: set<string>, field: Field): Parsed<string>
  {
    Parsed(Lower(p.value), p.problems + if Lower(p.value) in choices then [] else [NotAllowed(field)])
  }

  const STATUSES: set<string> := {"active", "inactive"}
  const DRIVERS: set<string> := {"docker"}
  const MOUNT_TYPES: set<string> := {"bind", "volume"}
  const MOUNT_MODES: set<string> := {"rw", "ro"}

  // A blank status is already reported as missing.
  function ParseStatus(env: Env, v: Json): Parsed<string>
  {
    var text := AsString(env, v, Status, true);
    OneOf(text, if text.value == "" then {""} else STATUSES, Status)
  }

  // ---------- lists ----------

  // Stripped items in order; a blank one is reported at its index.
  function StripItems(texts: seq<string>, field: Field): Parsed<seq<string>>
  {
    if texts == [] then Parsed([], [])
    else
      var n := |texts| - 1;
      var done := StripItems(texts[..n], field);
      var text := Strip(texts[n]);
      if text == "" then Parsed(done.value, done.problems + [EmptyItem(field, n)])
      else Parsed(done.value + [text], done.problems)
  }

  function Texts(items: seq<Json>, text: Json -> string): (r: seq<string>)
    ensures |r| == |items| && forall i :: 0 <= i < |r| ==> r[i] == text(items[i])
  {
    seq(|items|, i requires 0 <= i < |items| => text(items[i]))
  }

  function AllowedPeers(env: Env, v: Json): Parsed<seq<string>>
  {
    match v
    case Null => Parsed([], [])
    case Arr(items) => StripItems(Texts(items, item => TextOr(env.repr, item)), Peers)
    case _ => Parsed([], [WrongType(Peers)])
  }

  // shlex.split raises on unbalanced quotes, which no later step catches.
  function AsCommand(env: Env, v: Json): Parsed<seq<string>>
  {
    match v
    case Null => Parsed([], [])
    case Str(s) =>
      if s == "" then Parsed([], [])
      else
        (match env.shlex(s)
         case None => Parsed([], [Unreadable])
         case Some(words) => Parsed(NonEmpty(words), []))
    case Arr(items) => StripItems(Texts(items, item => PyStr(env.repr, item)), Command)
    case _ => Parsed([], [WrongType(Command)])
  }

  function NonEmpty(texts: seq<string>): (r: seq<string>)
    ensures forall i :: 0 <= i < |r| ==> r[i] != ""
  {
    if texts == [] then [] else (if texts[0] == "" then [] else [texts[0]]) + NonEmpty(texts[1..])
  }

  function ParsePassthrough(env: Env, v: Json): Parsed<seq<string>>
  {
    if !Truthy(v) then Parsed([], [])
    else
      match v
      case Arr(items) => Parsed(StripItems(Texts(items, item => PyStr(env.repr, item)), Passthrough).value, [])
      case _ => Parsed([], [WrongType(Passthrough)])
  }

  function EnvEntries(env: Env, d: Dict, keys: seq<string>): map<string, string>
  {
    if keys == [] then map[]
    else
      var n := |keys| - 1;
      var done := EnvEntries(env, d, keys[..n]);
      var key := Strip(keys[n]);
      if key == "" then done else done[key := PyStr(env.repr, Get(d, keys[n]))]
  }

  function ParseEnv(env: Env, v: Json): Parsed<map<string, string>>
  {
    if !Truthy(v) then Parsed(map[], [])
    else
      match v
      case Obj(fields) => Parsed(EnvEntries(env, fields, env.order(fields)), [])
      case _ => Parsed(map[], [WrongType(RuntimeEnv)])
  }

  // ---------- mounts ----------

  datatype MountPoint = MountPoint(kind: string, source: string, target: string, mode: string)

  function DetectMountType(source: string): string
  {
    var s := Strip(source);
    if s != "" && (s[0] == '/' || s[0] == '.') then "bind" else "volume"
  }

  function ParseMountFields(env: Env, kind: Json, mode: Json, source: Json, target: Json, index: nat): Parsed<MountPoint>
  {
    var k := OneOf(AsString(env, kind, MountType(index), true), MOUNT_TYPES, MountType(index));
    var m := OneOf(AsString(env, mode, MountMode(index), true), MOUNT_MODES, MountMode(index));
    var s := AsString(env, source, MountSource(index), true);
    var t := AsString(env, target, MountTarget(index), true);
    Parsed(MountPoint(if k.value == "" then "bind" else k.value, s.value, t.value, if m.value == "" then "rw" else m.value),
           k.problems + m.problems + s.problems + t.problems)
  }

  function ParseMount(env: Env, v: Json, index: nat): Parsed<MountPoint>
  {
    var m := AsDict(v, Mount(index));
    var source := Get(m.value, "source");
    var detected := Str(DetectMountType(TextOr(env.repr, source)));
    var p := ParseMountFields(env, GetOr(m.value, "type", detected), GetOr(m.value, "mode", Str("rw")), source,
                              Get(m.value, "target"), index);
    Parsed(p.value, m.problems + p.problems)
  }

  function MountReader(env: Env): (Json, nat) -> Parsed<MountPoint>
  {
    (v: Json, index: nat) => ParseMount(env, v, index)
  }

  // Every item parsed at its index, problems in order.
  function ParseEach(items: seq<Json>, parse: (Json, nat) -> Parsed<MountPoint>): Parsed<seq<MountPoint>>
  {
    if items == [] then Parsed([], [])
    else
      var n := |items| - 1;
      var done := ParseEach(items[..n], parse);
      var next := parse(items[n], n);
      Parsed(done.value + [next.value], done.problems + next.problems)
  }

  function ParseMounts(env: Env, v: Json): Parsed<seq<MountPoint>>
  {
    if !Truthy(v) then Parsed([], [])
    else
      match v
      case Arr(items) => ParseEach(items, MountReader(env))
      case _ => Parsed([], [WrongType(Mounts)])
  }

  // ---------- sections ----------

  datatype AgentSection = AgentSection(
    workingDir: string, httpEndpoint: string, systemPromptFile: Option<string>, peers: seq<string>)

  datatype RuntimeSection = RuntimeSection(
    driver: string, image: string, entrypoint: Option<string>, command: seq<string>, mounts: seq<MountPoint>,
    env: map<string, string>, passthrough: seq<string>)

  datatype BackendSection = BackendSection(kind: string, config: Dict)

  const DEFAULT_WORKING_DIR := "/workspace"

  function ParseAgentFields(env: Env, workingDir: Json, httpEndpoint: Json, prompt: Json, peers: Json): Parsed<AgentSection>
  {
    var allowed := AllowedPeers(env, peers);
    var dir := AsString(env, workingDir, WorkingDir, true);
    var endpoint := AsString(env, httpEndpoint, HttpEndpoint, true);
    Parsed(AgentSection(dir.value, endpoint.value, OptionalString(env, prompt), allowed.value),
           allowed.problems + dir.problems + endpoint.problems)
  }

  function ParseAgent(env: Env, a: Dict): Parsed<AgentSection>
  {
    ParseAgentFields(env, GetOr(a, "working_dir", Str(DEFAULT_WORKING_DIR)), Get(a, "http_endpoint"),
                     Get(a, "system_prompt_file"), Get(a, "allowed_peer_agent_slugs"))
  }

  // A blank driver is already reported as missing.
  function DriverProblems(driver: string): seq<Problem>
  {
    if driver == "" || Lower(driver) in DRIVERS then [] else [NotAllowed(Driver)]
  }

  function ParseRuntimeFields(
    env: Env, driver: Json, image: Json, imageRequired: bool, entrypoint: Json, command: Json, mounts: Json,
    variables: Json, passthrough: Json): Parsed<RuntimeSection>
  {
    var d := AsString(env, driver, Driver, true);
    var i := AsString(env, image, Image, imageRequired);
    var c := AsCommand(env, command);
    var m := ParseMounts(env, mounts);
    var e := ParseEnv(env, variables);
    var p := ParsePassthrough(env, passthrough);
    Parsed(RuntimeSection(Lower(d.value), i.value, OptionalString(env, entrypoint), c.value, m.value, e.value, p.value),
           d.problems + i.problems + c.problems + m.problems + DriverProblems(d.value) + e.problems + p.problems)
  }

  function ParseRuntime(env: Env, r: Dict, imageRequired: bool): Parsed<RuntimeSection>
  {
    ParseRuntimeFields(env, GetOr(r, "driver", Str("docker")), Get(r, "image"), imageRequired, Get(r, "entrypoint"),
                       Get(r, "command"), Get(r, "mounts"), Get(r, "env"), Get(r, "env_passthrough"))
  }

  // A runtime section is read by its seven keys.
  lemma RuntimeKeys(
    env: Env, d: Dict, driver: Json, image: Json, imageRequired: bool, entrypoint: Json, command: Json, mounts: Json,
    variables: Json, passthrough: Json)
    requires "driver" in d && d["driver"] == driver && Get(d, "image") == image && Get(d, "entrypoint") == entrypoint
    requires Get(d, "command") == command && Get(d, "mounts") == mounts
    requires Get(d, "env") == variables && Get(d, "env_passthrough") == passthrough
    ensures ParseRuntime(env, d, imageRequired) ==
            ParseRuntimeFields(env, driver, image, imageRequired, entrypoint, command, mounts, variables, passthrough)
  {
  }

  // ---------- backends ----------

  datatype EntrySchema = EntrySchema(required: set<string>, optional: set<string>)

  datatype Schema = Schema(required: set<string>, entry: EntrySchema, httpEntry: Option<EntrySchema>)

  function SchemaOf(kind: string): Option<Schema>
  {
    if kind == "sgr_minimax" then
      Some(Schema({"route_policy", "model"}, EntrySchema({"name", "module", "class"}, {"schema_fn"}),
                  Some(EntrySchema({"name", "transport", "url", "bearer_token"}, {"enabled_tools", "timeout_seconds"}))))
    else if kind == "agent_mux" then
      Some(Schema({"role", "llm_route_policy", "model"},
                  EntrySchema({"name", "command"},
                              {"args", "cwd", "startup_timeout_sec", "required", "enabled", "enabled_tools", "env"}),
                  None))
    else if kind == "opencode_omo" then
      Some(Schema({"model"}, EntrySchema({"name", "command"}, {"args", "env"}), None))
    else None
  }

  predicate IsKnownBackend(kind: string)
  {
    SchemaOf(kind).Some?
  }

  function MissingKeys(required: set<string>, d: Dict, field: Field): seq<Problem>
  {
    if required <= d.Keys then [] else [Missing(field, required - d.Keys)]
  }

  function EntryProblems(v: Json, schema: Schema, index: nat): seq<Problem>
  {
    match v
    case Obj(entry) =>
      var s := if Get(entry, "transport") == Str("http") && schema.httpEntry.Some? then schema.httpEntry.value else schema.entry;
      MissingKeys(s.required, entry, Server(index))
      + if entry.Keys <= s.required + s.optional then [] else [Unsupported(Server(index), entry.Keys - s.required - s.optional)]
    case _ => [WrongType(Server(index))]
  }

  function EntryCheck(schema: Schema): (Json, nat) -> seq<Problem>
  {
    (v: Json, index: nat) => EntryProblems(v, schema, index)
  }

  // Every item checked at its index, problems in order.
  function CheckEach(items: seq<Json>, check: (Json, nat) -> seq<Problem>): seq<Problem>
  {
    if items == [] then []
    else CheckEach(items[..|items| - 1], check) + check(items[|items| - 1], |items| - 1)
  }

  function ServersProblems(v: Json, schema: Schema): seq<Problem>
  {
    match v
    case Null => []
    case Arr(items) => CheckEach(items, EntryCheck(schema))
    case _ => [WrongType(Servers)]
  }

  function SchemaProblems(schema: Schema, config: Dict, servers: Json): seq<Problem>
  {
    MissingKeys(schema.required, config, BackendConfig) + ServersProblems(servers, schema)
  }

  // Unknown backend types, and unknown keys of a config, are only logged.
  function ConfigProblems(kind: string, config: Dict): seq<Problem>
  {
    match SchemaOf(kind)
    case None => []
    case Some(schema) => SchemaProblems(schema, config, Get(config, "mcp_servers"))
  }

  function ParseConfig(v: Json): Parsed<Dict>
  {
    if Truthy(v) then AsDict(v, BackendConfig) else Parsed(map[], [])
  }

  function ParseBackendFields(env: Env, config: Json, kind: Json): Parsed<BackendSection>
  {
    var c := ParseConfig(config);
    var k := AsString(env, kind, BackendType, true);
    Parsed(BackendSection(k.value, c.value), c.problems + k.problems + ConfigProblems(k.value, c.value))
  }

  function ParseBackend(env: Env, b: Dict): Parsed<BackendSection>
  {
    ParseBackendFields(env, Get(b, "config"), Get(b, "type"))
  }

  // ---------- legacy layout ----------

  const LEGACY_AGENT_KEYS: set<string> := {"working_dir", "http_endpoint", "system_prompt_file"}

  function Restrict(d: Dict, keys: set<string>): Dict
  {
    map k | k in d && k in keys :: d[k]
  }

  // dict(value or {}); None when dict() raises.
  function Section(env: Env, v: Json): Option<Dict>
  {
    if !Truthy(v) then Some(map[])
    else
      match v
      case Obj(fields) => Some(fields)
      case Arr(items) => env.pairs(items)
      case _ => None
  }

  // Root-level agent keys fill the gaps of the agent section.
  function LegacyAgent(raw: Dict, agent: Dict): Dict
  {
    Restrict(raw, LEGACY_AGENT_KEYS) + agent
  }

  function LegacyBackend(raw: Dict, backend: Dict): Dict
  {
    if "backend_type" in raw && "type" !in backend then backend["type" := raw["backend_type"]] else backend
  }

  function Copied(container: Dict, source: string, target: string): Dict
  {
    if source in container then map[target := container[source]] else map[]
  }

  function ConvertVolume(env: Env, volume: Dict): Json
  {
    Obj(map[
      "type" := Str(DetectMountType(TextOr(env.repr, Get(volume, "source")))),
      "source" := Get(volume, "source"),
      "target" := Get(volume, "target"),
      "mode" := Str(if Truthy(Get(volume, "read_only")) then "ro" else "rw")])
  }

  function ConvertVolumes(env: Env, items: seq<Json>): seq<Json>
  {
    if items == [] then []
    else (if items[0].Obj? then [ConvertVolume(env, items[0].fields)] else []) + ConvertVolumes(env, items[1..])
  }

  // Iterating text or a dict yields no object; a number cannot be iterated.
  function LegacyMounts(env: Env, v: Json): Option<seq<Json>>
  {
    if !Truthy(v) then Some([])
    else
      match v
      case Arr(items) => Some(ConvertVolumes(env, items))
      case Str(_) => Some([])
      case Obj(_) => Some([])
      case _ => None
  }

  function LegacyRuntime(env: Env, container: Json, runtime: Dict): Option<Dict>
  {
    match container
    case Obj(c) =>
      var copied :=
        Copied(c, "image", "image") + Copied(c, "entrypoint", "entrypoint") + Copied(c, "command", "command")
        + Copied(c, "extra_env", "env") + Copied(c, "env_passthrough", "env_passthrough") + runtime;
      if "volumes" in c && "mounts" !in copied then
        (match LegacyMounts(env, c["volumes"])
         case None => None
         case Some(mounts) => Some(copied["mounts" := Arr(mounts)]))
      else Some(copied)
    case _ => Some(runtime)
  }

  function WithDriver(runtime: Dict): Dict
  {
    if "driver" in runtime then runtime else runtime["driver" := Str("docker")]
  }

  datatype Sections = Sections(agent: Dict, runtime: Dict, backend: Dict)

  // _LegacyNormalizer.normalize: the three sections after legacy keys moved in.
  function Normalize(env: Env, raw: Dict): Option<Sections>
  {
    match (Section(env, Get(raw, "agent")), Section(env, Get(raw, "runtime")), Section(env, Get(raw, "backend")))
    case (Some(agent), Some(runtime), Some(backend)) =>
      (match LegacyRuntime(env, Get(raw, "container"), runtime)
       case None => None
       case Some(moved) =>
         Some(Sections(LegacyAgent(raw, agent), WithDriver(moved), LegacyBackend(raw, backend))))
    case _ => None
  }

  // ---------- manifests ----------

  datatype Manifest = Manifest(
    slug: string, displayName: string, status: string, agent: AgentSection, runtime: RuntimeSection,
    backend: BackendSection, autoStart: bool)

  function BackendKind(env: Env, backend: Dict): string
  {
    Strip(TextOr(env.repr, Get(backend, "type")))
  }

  // The problems come in the order in which the parser visits the fields.
  function Combine(
    status: Parsed<string>, slug: Parsed<string>, name: Parsed<string>, agent: Parsed<AgentSection>,
    runtime: Parsed<RuntimeSection>, backend: Parsed<BackendSection>, autoStart: Parsed<bool>): (p: Parsed<Manifest>)
    ensures p.problems == [] <==>
      (&& status.problems == [] && slug.problems == [] && name.problems == [] && agent.problems == []
       && runtime.problems == [] && backend.problems == [] && autoStart.problems == [])
  {
    Parsed(Manifest(slug.value, name.value, status.value, agent.value, runtime.value, backend.value, autoStart.value),
           status.problems + slug.problems + name.problems + agent.problems + runtime.problems + backend.problems
           + autoStart.problems)
  }

  function ParseFields(env: Env, status: Json, slug: Json, name: Json, autoStart: Json, s: Sections): Parsed<Manifest>
  {
    Combine(ParseStatus(env, status), AsString(env, slug, Slug, true), AsString(env, name, DisplayName, true),
            ParseAgent(env, s.agent), ParseRuntime(env, s.runtime, !IsKnownBackend(BackendKind(env, s.backend))),
            ParseBackend(env, s.backend), AsBool(autoStart, AutoStart))
  }

  // The sections parsed, one by one.
  lemma Combined(env: Env, status: Json, slug: Json, name: Json, autoStart: Json, s: Sections, imageRequired: bool)
    requires imageRequired == !IsKnownBackend(BackendKind(env, s.backend))
    ensures ParseFields(env, status, slug, name, autoStart, s) ==
            Combine(ParseStatus(env, status), AsString(env, slug, Slug, true), AsString(env, name, DisplayName, true),
                    ParseAgent(env, s.agent), ParseRuntime(env, s.runtime, imageRequired), ParseBackend(env, s.backend),
                    AsBool(autoStart, AutoStart))
  {
  }

  function ParseSections(env: Env, raw: Dict, s: Sections): Parsed<Manifest>
  {
    ParseFields(env, GetOr(raw, "status", Str("active")), Get(raw, "slug"), Get(raw, "display_name"),
                Get(raw, "auto_start"), s)
  }

  function Verdict(p: Parsed<Manifest>): Result<Manifest, seq<Problem>>
  {
    if p.problems == [] then Ok(p.value) else Err(p.problems)
  }

  // _ManifestParser.parse: accepted exactly when no problem was collected.
  function ParseManifest(env: Env, raw: Dict): Result<Manifest, seq<Problem>>
  {
    match Normalize(env, raw)
    case None => Err([Unreadable])
    case Some(s) => Verdict(ParseSections(env, raw, s))
  }
}
