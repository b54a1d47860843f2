// Validation and normalisation of ingest requests (src/core/agent_log_analysis:
// validation_ingest*.py, validation_scalars.py, validation_json.py,
// validation_time.py). Accepted requests are fixed points of validation.
module IngestValidation {

  import opened Wrappers
  import opened PyText
  import opened JsonModel
  import Cursors

  // What validation takes from outside: the clock's text form, how containers
  // print, the order in which a dict is iterated, sizes, and the limits.
  datatype Env = Env(
    clock: Cursors.Clock,
    repr: Repr,
    order: Dict -> seq<string>,
    utf8Length: string -> nat,
    jsonSize: Dict -> nat,
    maxLabels: nat,
    maxMetadataBytes: nat,
    maxRawPayloadBytes: nat,
    maxRawMessageBytes: nat,
    maxErrorBytes: nat)

  type Error = string

  // ---------- scalars ----------

  function RequiredText(env: Env, v: Json): (r: Result<string, Error>)
    ensures r.Ok? ==> CleanText(r.value)
    ensures v.Str? && CleanText(v.s) ==> r == Ok(v.s)
  {
    var t := Strip(TextOr(env.repr, v));
    if t == "" then Err("is required") else Ok(t)
  }

  function OptionalText(env: Env, v: Json): (r: Option<string>)
    ensures r.Some? ==> CleanText(r.value)
    ensures v.Str? && CleanText(v.s) ==> r == Some(v.s)
    ensures v.Null? ==> r == None
  {
    var t := Strip(TextOr(env.repr, v));
    if t == "" then None else Some(t)
  }

  function BoundedText(env: Env, v: Json, maxBytes: nat): Result<string, Error>
  {
    match RequiredText(env, v)
    case Err(e) => Err(e)
    case Ok(t) => if env.utf8Length(t) > maxBytes then Err("exceeds the byte limit") else Ok(t)
  }

  function ParseTimestamp(env: Env, v: Json): Result<int, Error>
  {
    match RequiredText(env, v)
    case Err(e) => Err(e)
    case Ok(t) =>
      match env.clock.parse(t)
      case None => Err("must be an ISO-8601 timestamp")
      case Some(time) => Ok(time)
  }

  function ParseEnum(env: Env, v: Json, members: set<string>): Result<string, Error>
  {
    match RequiredText(env, v)
    case Err(e) => Err(e)
    case Ok(t) => if t in members then Ok(t) else Err("is invalid")
  }

  function CoerceMapping(v: Json): Result<Dict, Error>
  {
    match v
    case Null => Ok(map[])
    case Obj(fields) => Ok(fields)
    case _ => Err("must be an object")
  }

  function CoerceOptionalMapping(v: Json): Result<Option<Dict>, Error>
  {
    match v
    case Null => Ok(None)
    case Obj(fields) => Ok(Some(fields))
    case _ => Err("must be an object")
  }

  // ---------- requests ----------

  // Labels keep the order in which the dict yields them.
  datatype Request = Request(
    eventId: string,
    eventType: string,
    occurredAt: string,
    agentSlug: string,
    runId: Option<string>,
    threadId: Option<string>,
    correlationId: Option<string>,
    parentEventId: Option<string>,
    labels: seq<(string, Json)>,
    metadata: Dict,
    rawPayload: Option<Dict>,
    inference: Option<Dict>,
    action: Option<Dict>,
    rawLogs: seq<Dict>)

  function CoerceRawLogs(v: Json): Result<seq<Dict>, Error>
  {
    match v
    case Null => Ok([])
    case Arr(items) => CoerceObjects(items)
    case _ => Err("raw_logs must be a list")
  }

  function CoerceObjects(items: seq<Json>): Result<seq<Dict>, Error>
  {
    if items == [] then Ok([])
    else
      match CoerceObjects(items[..|items| - 1])
      case Err(e) => Err(e)
      case Ok(done) =>
        match items[|items| - 1]
        case Obj(fields) => Ok(done + [fields])
        case _ => Err("raw_logs items must be objects")
  }

  function Items(env: Env, d: Dict): seq<(string, Json)>
  {
    var keys := env.order(d);
    seq(|keys|, i requires 0 <= i < |keys| => (keys[i], Get(d, keys[i])))
  }

  // coerce_event_request on a wire payload.
  function CoerceEventRequest(env: Env, payload: Json): Result<Request, Error>
  {
    match CoerceMapping(payload)
    case Err(e) => Err(e)
    case Ok(m) =>
      match (CoerceMapping(GetOr(m, "labels", Obj(map[]))), CoerceMapping(GetOr(m, "metadata", Obj(map[]))),
             CoerceOptionalMapping(Get(m, "raw_payload")), CoerceOptionalMapping(Get(m, "inference")),
             CoerceOptionalMapping(Get(m, "action")), CoerceRawLogs(GetOr(m, "raw_logs", Arr([]))))
      case (Ok(labels), Ok(metadata), Ok(rawPayload), Ok(inference), Ok(action), Ok(rawLogs)) =>
        Ok(Request(
          TextOr(env.repr, Get(m, "event_id")), TextOr(env.repr, Get(m, "event_type")),
          TextOr(env.repr, Get(m, "occurred_at")), TextOr(env.repr, Get(m, "agent_slug")),
          OptionalText(env, Get(m, "run_id")), OptionalText(env, Get(m, "thread_id")),
          OptionalText(env, Get(m, "correlation_id")), OptionalText(env, Get(m, "parent_event_id")),
          Items(env, labels), metadata, rawPayload, inference, action, rawLogs))
      case _ => Err("must be an object")
  }

  // ---------- labels ----------

  const MAX_LABEL_KEY_LENGTH := 64
  const MAX_LABEL_VALUE_LENGTH := 256

  predicate LabelFits(key: string, value: string)
  {
    |key| <= MAX_LABEL_KEY_LENGTH && |value| <= MAX_LABEL_VALUE_LENGTH
  }

  function IndexOfKey(d: seq<(string, Json)>, key: string): (i: nat)
    ensures i <= |d|
    ensures i < |d| ==> d[i].0 == key
    ensures forall k :: 0 <= k < i ==> d[k].0 != key
  {
    if d == [] || d[0].0 == key then 0 else 1 + IndexOfKey(d[1..], key)
  }

  // result[key] = value on an insertion-ordered dict.
  function Put(d: seq<(string, Json)>, key: string, value: Json): seq<(string, Json)>
  {
    var i := IndexOfKey(d, key);
    if i < |d| then d[i := (key, value)] else d + [(key, value)]
  }

  function NormalizeLabel(env: Env, item: (string, Json)): Result<(string, Json), Error>
  {
    match (RequiredText(env, Str(item.0)), RequiredText(env, item.1))
    case (Ok(k), Ok(v)) => if LabelFits(k, v) then Ok((k, Str(v))) else Err("label too long")
    case _ => Err("label is required")
  }

  function NormalizeItems(env: Env, items: seq<(string, Json)>): Result<seq<(string, Json)>, Error>
  {
    if items == [] then Ok([])
    else
      match NormalizeItems(env, items[..|items| - 1])
      case Err(e) => Err(e)
      case Ok(done) =>
        match NormalizeLabel(env, items[|items| - 1])
        case Err(e) => Err(e)
        case Ok(kv) => Ok(Put(done, kv.0, kv.1))
  }

  function NormalizedLabels(env: Env, payload: seq<(string, Json)>): Result<seq<(string, Json)>, Error>
  {
    if |payload| > env.maxLabels then Err("too many labels") else NormalizeItems(env, payload)
  }

  method NormalizeLabels(env: Env, payload: seq<(string, Json)>) returns (r: Result<seq<(string, Json)>, Error>)
    ensures r == NormalizedLabels(env, payload)
  {
    if |payload| > env.maxLabels {
      return Err("too many labels");
    }
    var result: seq<(string, Json)> := [];
    for i := 0 to |payload|
      invariant NormalizeItems(env, payload[..i]) == Ok(result)
    {
      assert payload[..i + 1][..i] == payload[..i];
      var kv := NormalizeLabel(env, payload[i]);
      if kv.Err? {
        LaterErrors(env, payload, i + 1);
        return Err(kv.error);
      }
      result := Put(result, kv.value.0, kv.value.1);
    }
    assert payload[..|payload|] == payload;
    return Ok(result);
  }

  lemma {:induction false} LaterErrors(env: Env, items: seq<(string, Json)>, i: nat)
    requires i <= |items| && NormalizeItems(env, items[..i]).Err?
    ensures NormalizeItems(env, items) == NormalizeItems(env, items[..i])
    decreases |items|
  {
    if i == |items| {
      assert items[..i] == items;
    } else {
      assert items[..|items| - 1][..i] == items[..i];
      LaterErrors(env, items[..|items| - 1], i);
    }
  }

  predicate CleanLabel(item: (string, Json))
  {
    CleanText(item.0) && item.1.Str? && CleanText(item.1.s) && LabelFits(item.0, item.1.s)
  }

  // Accepted labels: trimmed keys, each once, with trimmed values that fit.
  predicate CleanLabels(d: seq<(string, Json)>)
  {
    && (forall i :: 0 <= i < |d| ==> CleanLabel(d[i]))
    && (forall i, j :: 0 <= i < j < |d| ==> d[i].0 != d[j].0)
  }

  lemma LabelIsClean(env: Env, item: (string, Json))
    ensures NormalizeLabel(env, item).Ok? ==> CleanLabel(NormalizeLabel(env, item).value)
    ensures CleanLabel(item) ==> NormalizeLabel(env, item) == Ok(item)
  {
  }

  lemma PutKeepsClean(d: seq<(string, Json)>, item: (string, Json))
    requires CleanLabels(d) && CleanLabel(item)
    ensures CleanLabels(Put(d, item.0, item.1)) && |Put(d, item.0, item.1)| <= |d| + 1
  {
    var i := IndexOfKey(d, item.0);
    assert forall k :: 0 <= k < |d| && k != i ==> d[k].0 != item.0;
  }

  lemma {:induction false} NormalizedAreClean(env: Env, items: seq<(string, Json)>)
    requires NormalizeItems(env, items).Ok?
    ensures CleanLabels(NormalizeItems(env, items).value)
    ensures |NormalizeItems(env, items).value| <= |items|
  {
    if items != [] {
      var n := |items| - 1;
      NormalizedAreClean(env, items[..n]);
      LabelIsClean(env, items[n]);
      PutKeepsClean(NormalizeItems(env, items[..n]).value, NormalizeLabel(env, items[n]).value);
    }
  }

  lemma PutNewKey(d: seq<(string, Json)>, item: (string, Json))
    requires forall i :: 0 <= i < |d| ==> d[i].0 != item.0
    ensures Put(d, item.0, item.1) == d + [item]
  {
  }

  lemma CleanPrefix(d: seq<(string, Json)>)
    requires CleanLabels(d) && d != []
    ensures var n := |d| - 1; CleanLabels(d[..n]) && CleanLabel(d[n]) && forall i :: 0 <= i < n ==> d[..n][i].0 != d[n].0
  {
  }

  lemma CleanStep(env: Env, d: seq<(string, Json)>)
    requires CleanLabels(d) && d != []
    ensures var n := |d| - 1;
            CleanLabels(d[..n]) && NormalizeLabel(env, d[n]) == Ok(d[n]) && Put(d[..n], d[n].0, d[n].1) == d[..n] + [d[n]]
  {
    var n := |d| - 1;
    CleanPrefix(d);
    LabelIsClean(env, d[n]);
    PutNewKey(d[..n], d[n]);
  }

  lemma {:induction false} CleanAreFixed(env: Env, d: seq<(string, Json)>)
    requires CleanLabels(d)
    ensures NormalizeItems(env, d) == Ok(d)
  {
    if d != [] {
      var init, last := d[..|d| - 1], d[|d| - 1];
      assert d == init + [last];
      CleanStep(env, d);
      CleanAreFixed(env, init);
      FixedItem(env, init, last);
    }
  }

  lemma FixedItem(env: Env, items: seq<(string, Json)>, item: (string, Json))
    requires NormalizeItems(env, items) == Ok(items) && NormalizeLabel(env, item) == Ok(item)
    requires Put(items, item.0, item.1) == items + [item]
    ensures NormalizeItems(env, items + [item]) == Ok(items + [item])
  {
    assert (items + [item])[..|items|] == items;
  }

  // ---------- inference and action records ----------

  datatype FieldKind = TextField | EnumField(members: set<string>) | CountField | ErrorField

  type Spec = map<string, FieldKind>

  const REQUEST_KINDS: set<string> := {"chat", "completion", "tool-selection", "other"}
  const INFERENCE_STATUSES: set<string> := {"success", "error", "timeout", "cancelled"}
  const ACTION_KINDS: set<string> :=
    {"tool_call", "message_send", "http_request", "state_transition", "task_update", "other"}
  const ACTION_STATUSES: set<string> := {"success", "error", "timeout", "cancelled", "rejected"}
  const EVENT_TYPES: set<string> := {"inference_event", "action_event"}
  const LOG_LEVELS: set<string> := {"DEBUG", "INFO", "WARNING", "ERROR", "CRITICAL"}

  const INFERENCE_FIELDS: Spec := map[
    "model_name" := TextField, "provider_name" := TextField,
    "request_kind" := EnumField(REQUEST_KINDS), "status" := EnumField(INFERENCE_STATUSES),
    "latency_ms" := CountField, "input_tokens" := CountField, "output_tokens" := CountField,
    "error_message" := ErrorField]

  const ACTION_FIELDS: Spec := map[
    "target_name" := TextField, "target_agent_slug" := TextField,
    "action_kind" := EnumField(ACTION_KINDS), "status" := EnumField(ACTION_STATUSES),
    "latency_ms" := CountField, "error_message" := ErrorField]

  function TextJson(t: Result<string, Error>): Result<Json, Error>
  {
    match t
    case Err(e) => Err(e)
    case Ok(text) => Ok(Str(text))
  }

  function OptionJson(t: Option<string>): Json
  {
    match t
    case None => Null
    case Some(text) => Str(text)
  }

  // What one field becomes: nothing when absent, its normal form, or an error.
  function NormalizeField(env: Env, kind: FieldKind, v: Json): Result<Json, Error>
  {
    match kind
    case TextField => Ok(OptionJson(OptionalText(env, v)))
    case EnumField(members) => if v.Null? then Ok(Null) else TextJson(ParseEnum(env, v, members))
    case CountField =>
      if v.Null? then Ok(Null) else if v.Num? && v.n >= 0 then Ok(v) else Err("must be a non-negative integer")
    case ErrorField => if v.Null? then Ok(Null) else TextJson(BoundedText(env, v, env.maxErrorBytes))
  }

  lemma OptionalIsFixed(env: Env, v: Json)
    ensures OptionalText(env, OptionJson(OptionalText(env, v))) == OptionalText(env, v)
  {
  }

  lemma EnumIsFixed(env: Env, v: Json, members: set<string>)
    requires ParseEnum(env, v, members).Ok?
    ensures ParseEnum(env, Str(ParseEnum(env, v, members).value), members) == ParseEnum(env, v, members)
  {
  }

  lemma BoundedIsFixed(env: Env, v: Json, maxBytes: nat)
    requires BoundedText(env, v, maxBytes).Ok?
    ensures BoundedText(env, Str(BoundedText(env, v, maxBytes).value), maxBytes) == BoundedText(env, v, maxBytes)
  {
  }

  lemma FieldIsFixed(env: Env, kind: FieldKind, v: Json)
    requires NormalizeField(env, kind, v).Ok?
    ensures NormalizeField(env, kind, NormalizeField(env, kind, v).value) == NormalizeField(env, kind, v)
  {
    match kind
    case TextField => OptionalIsFixed(env, v);
    case EnumField(members) => if !v.Null? { EnumIsFixed(env, v, members); }
    case CountField =>
    case ErrorField => if !v.Null? { BoundedIsFixed(env, v, env.maxErrorBytes); }
  }

  predicate RecordAccepted(env: Env, spec: Spec, payload: Dict)
  {
    forall k :: k in spec ==> NormalizeField(env, spec[k], Get(payload, k)).Ok?
  }

  // normalize_inference and normalize_action: only known fields, only those present.
  function NormalizeRecord(env: Env, spec: Spec, payload: Option<Dict>): Result<Option<Dict>, Error>
  {
    match payload
    case None => Ok(None)
    case Some(d) =>
      if !RecordAccepted(env, spec, d) then Err("record is invalid")
      else Ok(Some(map k | k in spec && NormalizeField(env, spec[k], Get(d, k)) != Ok(Null) ::
                     NormalizeField(env, spec[k], Get(d, k)).value))
  }

  lemma RecordIsFixed(env: Env, spec: Spec, payload: Option<Dict>)
    requires NormalizeRecord(env, spec, payload).Ok?
    ensures NormalizeRecord(env, spec, NormalizeRecord(env, spec, payload).value) == NormalizeRecord(env, spec, payload)
  {
    if payload.Some? {
      var d := payload.value;
      var out := NormalizeRecord(env, spec, payload).value.value;
      forall k | k in spec
        ensures NormalizeField(env, spec[k], Get(out, k)) == NormalizeField(env, spec[k], Get(d, k))
      {
        FieldIsFixed(env, spec[k], Get(d, k));
        assert Get(out, k) == NormalizeField(env, spec[k], Get(d, k)).value;
      }
      assert NormalizeRecord(env, spec, Some(out)).value.value == out;
    }
  }

  // ---------- raw logs ----------

  datatype Defaults = Defaults(
    eventId: string, agentSlug: string, runId: Option<string>, threadId: Option<string>, correlationId: Option<string>)

  function OrDefault(own: Option<string>, default: Option<string>): Json
  {
    match own
    case Some(t) => Str(t)
    case None => (match default case Some(t) => Str(t) case None => Null)
  }

  const RAW_LOG_FIELDS: set<string> := {
    "event_id", "occurred_at", "agent_slug", "run_id", "thread_id", "correlation_id",
    "source", "level", "raw_message", "raw_payload_json"
  }

  datatype RawKind = InheritedField(default: Option<string>) | TimeField | LevelField | MessageField | PayloadField

  datatype Slot = EventSlot | AgentSlot | RunSlot | ThreadSlot | CorrelationSlot | FixedSlot(kind: RawKind)

  function SlotOf(k: string): Slot
  {
    if k == "event_id" then EventSlot
    else if k == "agent_slug" then AgentSlot
    else if k == "run_id" then RunSlot
    else if k == "thread_id" then ThreadSlot
    else if k == "correlation_id" then CorrelationSlot
    else if k == "source" then FixedSlot(InheritedField(None))
    else if k == "occurred_at" then FixedSlot(TimeField)
    else if k == "level" then FixedSlot(LevelField)
    else if k == "raw_message" then FixedSlot(MessageField)
    else FixedSlot(PayloadField)
  }

  function KindAt(defaults: Defaults, slot: Slot): RawKind
  {
    match slot
    case EventSlot => InheritedField(Some(defaults.eventId))
    case AgentSlot => InheritedField(Some(defaults.agentSlug))
    case RunSlot => InheritedField(defaults.runId)
    case ThreadSlot => InheritedField(defaults.threadId)
    case CorrelationSlot => InheritedField(defaults.correlationId)
    case FixedSlot(kind) => kind
  }

  function RawKindOf(defaults: Defaults, k: string): RawKind
  {
    KindAt(defaults, SlotOf(k))
  }

  predicate HasRaw(d: Defaults, key: string, kind: RawKind)
  {
    key in RAW_LOG_FIELDS && RawKindOf(d, key) == kind
  }

  // The ten fields of a raw log, and how each is normalised.
  lemma RawFields(d: Defaults)
    ensures RAW_LOG_FIELDS == {"event_id", "agent_slug", "run_id", "thread_id", "correlation_id", "source", "occurred_at",
                               "level", "raw_message", "raw_payload_json"}
    ensures HasRaw(d, "event_id", InheritedField(Some(d.eventId)))
    ensures HasRaw(d, "agent_slug", InheritedField(Some(d.agentSlug)))
    ensures HasRaw(d, "run_id", InheritedField(d.runId)) && HasRaw(d, "thread_id", InheritedField(d.threadId))
    ensures HasRaw(d, "correlation_id", InheritedField(d.correlationId)) && HasRaw(d, "source", InheritedField(None))
    ensures HasRaw(d, "occurred_at", TimeField) && HasRaw(d, "level", LevelField)
    ensures HasRaw(d, "raw_message", MessageField) && HasRaw(d, "raw_payload_json", PayloadField)
  {
  }

  function NormalizeTime(env: Env, v: Json): Result<Json, Error>
  {
    match ParseTimestamp(env, v)
    case Err(e) => Err(e)
    case Ok(t) => Ok(Str(env.clock.serialize(t)))
  }

  function NormalizePayload(env: Env, v: Json): Result<Json, Error>
  {
    match CoerceOptionalMapping(v)
    case Err(e) => Err(e)
    case Ok(None) => Ok(Null)
    case Ok(Some(d)) => if env.jsonSize(d) > env.maxRawPayloadBytes then Err("exceeds the byte limit") else Ok(Obj(d))
  }

  function NormalizeRawField(env: Env, kind: RawKind, v: Json): Result<Json, Error>
  {
    match kind
    case InheritedField(default) => Ok(OrDefault(OptionalText(env, v), default))
    case TimeField => NormalizeTime(env, v)
    case LevelField => TextJson(ParseEnum(env, v, LOG_LEVELS))
    case MessageField => TextJson(BoundedText(env, v, env.maxRawMessageBytes))
    case PayloadField => NormalizePayload(env, v)
  }

  predicate RawLogAccepted(env: Env, defaults: Defaults, payload: Dict)
  {
    forall k :: k in RAW_LOG_FIELDS ==> NormalizeRawField(env, RawKindOf(defaults, k), Get(payload, k)).Ok?
  }

  function RawLogOf(env: Env, defaults: Defaults, payload: Dict): Dict
    requires RawLogAccepted(env, defaults, payload)
  {
    map k | k in RAW_LOG_FIELDS :: NormalizeRawField(env, RawKindOf(defaults, k), Get(payload, k)).value
  }

  function NormalizeRawLog(env: Env, defaults: Defaults, payload: Dict): Result<Dict, Error>
  {
    if RawLogAccepted(env, defaults, payload) then Ok(RawLogOf(env, defaults, payload)) else Err("raw log is invalid")
  }

  // Item after item, up to the first that is refused.
  function NormalizeEach(logs: seq<Dict>, normalize: Dict -> Result<Dict, Error>): Result<seq<Dict>, Error>
  {
    if logs == [] then Ok([])
    else
      match NormalizeEach(logs[..|logs| - 1], normalize)
      case Err(e) => Err(e)
      case Ok(done) =>
        match normalize(logs[|logs| - 1])
        case Err(e) => Err(e)
        case Ok(log) => Ok(done + [log])
  }

  function RawLogNormalizer(env: Env, defaults: Defaults): Dict -> Result<Dict, Error>
  {
    log => NormalizeRawLog(env, defaults, log)
  }

  function NormalizeRawLogs(env: Env, defaults: Defaults, logs: seq<Dict>): Result<seq<Dict>, Error>
  {
    NormalizeEach(logs, RawLogNormalizer(env, defaults))
  }

  // Ids are absent or trimmed and non-empty.
  predicate CleanId(id: Option<string>)
  {
    id.Some? ==> CleanText(id.value)
  }

  // optional_text on an already coerced id.
  function CleanOptional(env: Env, id: Option<string>): (r: Option<string>)
    ensures CleanId(r)
    ensures CleanId(id) ==> r == id
  {
    match id
    case None => None
    case Some(t) => OptionalText(env, Str(t))
  }

  // ---------- raw logs validated again ----------

  // The defaults of a second pass: the ids as the first pass left them.
  function SecondDefaults(env: Env, d: Defaults): Defaults
  {
    Defaults(d.eventId, d.agentSlug, CleanOptional(env, d.runId), CleanOptional(env, d.threadId),
             CleanOptional(env, d.correlationId))
  }

  function SecondKind(env: Env, kind: RawKind): RawKind
  {
    match kind
    case InheritedField(default) => InheritedField(CleanOptional(env, default))
    case _ => kind
  }

  predicate FieldSettles(env: Env, kind: RawKind, v: Json)
  {
    kind.InheritedField? ==> OptionalText(env, v).Some? || CleanId(kind.default)
  }

  lemma InheritedSettlesIff(env: Env, default: Option<string>, v: Json)
    ensures var once := OrDefault(OptionalText(env, v), default);
            OrDefault(OptionalText(env, once), CleanOptional(env, default)) == once
            <==> OptionalText(env, v).Some? || CleanId(default)
  {
  }

  lemma TimeIsFixed(env: Env, v: Json)
    requires Cursors.Faithful(env.clock) && NormalizeTime(env, v).Ok?
    ensures NormalizeTime(env, NormalizeTime(env, v).value) == NormalizeTime(env, v)
  {
    var t := ParseTimestamp(env, v).value;
    SerializedParses(env, t, env.clock.serialize(t));
  }

  lemma SerializedParses(env: Env, time: int, text: string)
    requires Cursors.Faithful(env.clock) && text == env.clock.serialize(time)
    ensures ParseTimestamp(env, Str(text)) == Ok(time)
  {
    assert env.clock.parse(text) == Some(time);
  }

  lemma FieldSettlesIff(env: Env, kind: RawKind, v: Json)
    requires Cursors.Faithful(env.clock) && NormalizeRawField(env, kind, v).Ok?
    ensures var once := NormalizeRawField(env, kind, v);
            NormalizeRawField(env, SecondKind(env, kind), once.value) == once <==> FieldSettles(env, kind, v)
  {
    match kind
    case InheritedField(default) => InheritedSettlesIff(env, default, v);
    case TimeField => TimeIsFixed(env, v);
    case LevelField => EnumIsFixed(env, v, LOG_LEVELS);
    case MessageField => BoundedIsFixed(env, v, env.maxRawMessageBytes);
    case PayloadField =>
  }

  // A raw log settles in one pass when each of its three ids is its own or comes
  // from a clean id of the request.
  predicate LogSettles(env: Env, d: Defaults, log: Dict)
  {
    && (OptionalText(env, Get(log, "run_id")).Some? || CleanId(d.runId))
    && (OptionalText(env, Get(log, "thread_id")).Some? || CleanId(d.threadId))
    && (OptionalText(env, Get(log, "correlation_id")).Some? || CleanId(d.correlationId))
  }

  lemma SlotName(k: string)
    ensures var slot := SlotOf(k);
            && (slot.RunSlot? ==> k == "run_id") && (slot.ThreadSlot? ==> k == "thread_id")
            && (slot.CorrelationSlot? ==> k == "correlation_id") && PlainSlot(slot)
  {
  }

  lemma SlotSettles(env: Env, d: Defaults, slot: Slot, own: Json)
    requires CleanText(d.eventId) && CleanText(d.agentSlug) && PlainSlot(slot)
    requires slot.RunSlot? ==> OptionalText(env, own).Some? || CleanId(d.runId)
    requires slot.ThreadSlot? ==> OptionalText(env, own).Some? || CleanId(d.threadId)
    requires slot.CorrelationSlot? ==> OptionalText(env, own).Some? || CleanId(d.correlationId)
    ensures FieldSettles(env, KindAt(d, slot), own)
  {
  }

  lemma EachFieldSettles(env: Env, d: Defaults, log: Dict, k: string)
    requires CleanText(d.eventId) && CleanText(d.agentSlug) && LogSettles(env, d, log)
    ensures FieldSettles(env, RawKindOf(d, k), Get(log, k))
  {
    SlotName(k);
    SlotSettles(env, d, SlotOf(k), Get(log, k));
  }

  lemma LogSettlesByField(env: Env, d: Defaults, log: Dict)
    requires CleanText(d.eventId) && CleanText(d.agentSlug)
    ensures LogSettles(env, d, log) <==>
            forall k :: k in RAW_LOG_FIELDS ==> FieldSettles(env, RawKindOf(d, k), Get(log, k))
  {
    if LogSettles(env, d, log) {
      forall k | k in RAW_LOG_FIELDS
        ensures FieldSettles(env, RawKindOf(d, k), Get(log, k))
      {
        EachFieldSettles(env, d, log, k);
      }
    }
    if forall k :: k in RAW_LOG_FIELDS ==> FieldSettles(env, RawKindOf(d, k), Get(log, k)) {
      RawFields(d);
      assert FieldSettles(env, RawKindOf(d, "run_id"), Get(log, "run_id"));
      assert FieldSettles(env, RawKindOf(d, "thread_id"), Get(log, "thread_id"));
      assert FieldSettles(env, RawKindOf(d, "correlation_id"), Get(log, "correlation_id"));
    }
  }

  // Defaults other than the ids stay as they are.
  predicate PlainSlot(slot: Slot)
  {
    slot.FixedSlot? ==> slot.kind.InheritedField? ==> slot.kind.default.None?
  }

  lemma SecondKindAt(env: Env, d: Defaults, slot: Slot)
    requires CleanText(d.eventId) && CleanText(d.agentSlug) && PlainSlot(slot)
    ensures KindAt(SecondDefaults(env, d), slot) == SecondKind(env, KindAt(d, slot))
  {
  }

  lemma SlotIsPlain(k: string)
    ensures PlainSlot(SlotOf(k))
  {
  }

  // A complete raw log is a fixed point when every field of it is.
  lemma LogFixedByField(env: Env, d: Defaults, log: Dict)
    requires log.Keys == RAW_LOG_FIELDS
    ensures NormalizeRawLog(env, d, log) == Ok(log) <==>
            forall k :: k in RAW_LOG_FIELDS ==> NormalizeRawField(env, RawKindOf(d, k), Get(log, k)) == Ok(Get(log, k))
  {
    if RawLogAccepted(env, d, log) {
      var again := RawLogOf(env, d, log);
      assert again == log <==> forall k :: k in RAW_LOG_FIELDS ==> again[k] == Get(log, k);
    }
  }

  lemma RawLogFixedIff(env: Env, d: Defaults, payload: Dict, out: Dict)
    requires Cursors.Faithful(env.clock) && CleanText(d.eventId) && CleanText(d.agentSlug)
    requires NormalizeRawLog(env, d, payload) == Ok(out)
    ensures NormalizeRawLog(env, SecondDefaults(env, d), out) == Ok(out) <==> LogSettles(env, d, payload)
  {
    var second := SecondDefaults(env, d);
    forall k | k in RAW_LOG_FIELDS
      ensures NormalizeRawField(env, RawKindOf(second, k), Get(out, k)) == Ok(Get(out, k))
              <==> FieldSettles(env, RawKindOf(d, k), Get(payload, k))
    {
      assert Ok(Get(out, k)) == NormalizeRawField(env, RawKindOf(d, k), Get(payload, k));
      SlotIsPlain(k);
      SecondKindAt(env, d, SlotOf(k));
      FieldSettlesIff(env, RawKindOf(d, k), Get(payload, k));
    }
    LogFixedByField(env, second, out);
    LogSettlesByField(env, d, payload);
  }

  predicate AllLogs(logs: seq<Dict>, holds: Dict -> bool)
  {
    logs == [] || (AllLogs(logs[..|logs| - 1], holds) && holds(logs[|logs| - 1]))
  }

  lemma {:induction false} AllLogsMeaning(logs: seq<Dict>, holds: Dict -> bool)
    ensures AllLogs(logs, holds) <==> forall log :: log in logs ==> holds(log)
  {
    if logs != [] {
      var n := |logs| - 1;
      AllLogsMeaning(logs[..n], holds);
      assert logs == logs[..n] + [logs[n]];
    }
  }

  predicate AllSettle(env: Env, d: Defaults, logs: seq<Dict>)
  {
    AllLogs(logs, log => LogSettles(env, d, log))
  }

  lemma AllSettleMeaning(env: Env, d: Defaults, logs: seq<Dict>)
    ensures AllSettle(env, d, logs) <==> forall log :: log in logs ==> LogSettles(env, d, log)
  {
    AllLogsMeaning(logs, log => LogSettles(env, d, log));
  }

  lemma {:induction false} RawLogsFixedIff(env: Env, d: Defaults, logs: seq<Dict>)
    requires Cursors.Faithful(env.clock) && CleanText(d.eventId) && CleanText(d.agentSlug)
    requires NormalizeRawLogs(env, d, logs).Ok?
    ensures var out := NormalizeRawLogs(env, d, logs).value;
            NormalizeRawLogs(env, SecondDefaults(env, d), out) == Ok(out) <==> AllSettle(env, d, logs)
  {
    if logs != [] {
      var n := |logs| - 1;
      var done, last := NormalizeRawLogs(env, d, logs[..n]).value, NormalizeRawLog(env, d, logs[n]).value;
      RawLogsFixedIff(env, d, logs[..n]);
      RawLogFixedIff(env, d, logs[n], last);
      LastOfLogs(env, SecondDefaults(env, d), done, last);
    }
  }

  lemma LastOfLogs(env: Env, d: Defaults, logs: seq<Dict>, last: Dict)
    ensures NormalizeRawLogs(env, d, logs + [last]) == Ok(logs + [last])
            <==> NormalizeRawLogs(env, d, logs) == Ok(logs) && NormalizeRawLog(env, d, last) == Ok(last)
  {
    var all := logs + [last];
    assert all[..|all| - 1] == logs && all[|all| - 1] == last;
    if NormalizeRawLogs(env, d, all) == Ok(all) {
      var done := NormalizeRawLogs(env, d, logs).value;
      assert (done + [NormalizeRawLog(env, d, last).value])[..|all| - 1] == done;
    }
  }

  // ---------- whole requests ----------

  function Within(env: Env, payload: Option<Dict>, maxBytes: nat): bool
  {
    payload.None? || env.jsonSize(payload.value) <= maxBytes
  }

  predicate ShapeHolds(eventType: string, inference: Option<Dict>, action: Option<Dict>)
  {
    if eventType == "inference_event" then inference.Some? && action.None? else action.Some? && inference.None?
  }

  function DefaultsOf(r: Request, eventId: string, agentSlug: string): Defaults
  {
    Defaults(eventId, agentSlug, r.runId, r.threadId, r.correlationId)
  }

  datatype Context = Context(eventId: string, agentSlug: string, eventType: string, time: int)

  function BuildContext(env: Env, eventId: string, agentSlug: string, eventType: string, occurredAt: string):
    Result<Context, Error>
  {
    match (RequiredText(env, Str(eventId)), RequiredText(env, Str(agentSlug)),
           ParseEnum(env, Str(eventType), EVENT_TYPES), ParseTimestamp(env, Str(occurredAt)))
    case (Ok(id), Ok(slug), Ok(kind), Ok(time)) => Ok(Context(id, slug, kind, time))
    case _ => Err("context is invalid")
  }

  datatype Parts = Parts(
    labels: seq<(string, Json)>, metadata: Dict, rawPayload: Option<Dict>, inference: Option<Dict>, action: Option<Dict>)

  function NormalizeParts(env: Env, p: Parts): Result<Parts, Error>
  {
    match (NormalizedLabels(env, p.labels), NormalizeRecord(env, INFERENCE_FIELDS, p.inference),
           NormalizeRecord(env, ACTION_FIELDS, p.action))
    case (Ok(labels), Ok(inference), Ok(action)) =>
      if !Within(env, Some(p.metadata), env.maxMetadataBytes) || !Within(env, p.rawPayload, env.maxRawPayloadBytes)
      then Err("exceeds the byte limit")
      else Ok(Parts(labels, p.metadata, p.rawPayload, inference, action))
    case _ => Err("payload is invalid")
  }

  function PartsOf(r: Request): Parts
  {
    Parts(r.labels, r.metadata, r.rawPayload, r.inference, r.action)
  }

  function BuildRequest(env: Env, r: Request, c: Context, p: Parts, rawLogs: seq<Dict>): Request
  {
    Request(c.eventId, c.eventType, env.clock.serialize(c.time), c.agentSlug,
            CleanOptional(env, r.runId), CleanOptional(env, r.threadId), CleanOptional(env, r.correlationId),
            CleanOptional(env, r.parentEventId), p.labels, p.metadata, p.rawPayload, p.inference, p.action, rawLogs)
  }

  // _validate_request: the context, the payload parts, the shape, the raw logs.
  function ValidateRequest(env: Env, r: Request): Result<Request, Error>
  {
    match BuildContext(env, r.eventId, r.agentSlug, r.eventType, r.occurredAt)
    case Err(e) => Err(e)
    case Ok(c) =>
      match NormalizeParts(env, PartsOf(r))
      case Err(e) => Err(e)
      case Ok(p) =>
        if !ShapeHolds(c.eventType, p.inference, p.action) then Err("payload does not fit the event type")
        else
          match NormalizeRawLogs(env, DefaultsOf(r, c.eventId, c.agentSlug), r.rawLogs)
          case Err(e) => Err(e)
          case Ok(rawLogs) => Ok(BuildRequest(env, r, c, p, rawLogs))
  }

  // The ids that raw logs inherit are clean, as they are in every request
  // coerced from the wire.
  predicate CleanIds(r: Request)
  {
    CleanId(r.runId) && CleanId(r.threadId) && CleanId(r.correlationId)
  }

  lemma CoercedIdsAreClean(env: Env, payload: Json)
    requires CoerceEventRequest(env, payload).Ok?
    ensures CleanIds(CoerceEventRequest(env, payload).value)
  {
  }

  lemma LabelsAreFixed(env: Env, payload: seq<(string, Json)>)
    requires NormalizedLabels(env, payload).Ok?
    ensures NormalizedLabels(env, NormalizedLabels(env, payload).value) == NormalizedLabels(env, payload)
  {
    NormalizedAreClean(env, payload);
    CleanAreFixed(env, NormalizeItems(env, payload).value);
  }

  lemma ContextIsFixed(env: Env, eventId: string, agentSlug: string, eventType: string, occurredAt: string)
    requires Cursors.Faithful(env.clock) && BuildContext(env, eventId, agentSlug, eventType, occurredAt).Ok?
    ensures var c := BuildContext(env, eventId, agentSlug, eventType, occurredAt).value;
            BuildContext(env, c.eventId, c.agentSlug, c.eventType, env.clock.serialize(c.time)) == Ok(c)
  {
    var c := BuildContext(env, eventId, agentSlug, eventType, occurredAt).value;
    assert env.clock.parse(env.clock.serialize(c.time)) == Some(c.time);
  }

  lemma PartsAreFixed(env: Env, p: Parts)
    requires NormalizeParts(env, p).Ok?
    ensures NormalizeParts(env, NormalizeParts(env, p).value) == NormalizeParts(env, p)
  {
    LabelsAreFixed(env, p.labels);
    RecordIsFixed(env, INFERENCE_FIELDS, p.inference);
    RecordIsFixed(env, ACTION_FIELDS, p.action);
  }

  // A second validation returns the same request if and only if each of its raw
  // logs has its own run, thread and correlation id, or inherits a clean one.
  lemma RequestFixedIff(env: Env, r: Request)
    requires Cursors.Faithful(env.clock) && ValidateRequest(env, r).Ok?
    ensures var out := ValidateRequest(env, r).value;
            ValidateRequest(env, out) == Ok(out) <==>
            forall log :: log in r.rawLogs ==> LogSettles(env, DefaultsOf(r, out.eventId, out.agentSlug), log)
  {
    var c := BuildContext(env, r.eventId, r.agentSlug, r.eventType, r.occurredAt).value;
    var p := NormalizeParts(env, PartsOf(r)).value;
    var defaults := DefaultsOf(r, c.eventId, c.agentSlug);
    var rawLogs := NormalizeRawLogs(env, defaults, r.rawLogs).value;
    ContextIsFixed(env, r.eventId, r.agentSlug, r.eventType, r.occurredAt);
    PartsAreFixed(env, PartsOf(r));
    RawLogsFixedIff(env, defaults, r.rawLogs);
    AllSettleMeaning(env, defaults, r.rawLogs);
    SecondPass(env, BuildRequest(env, r, c, p, rawLogs), c, p, rawLogs);
  }

  // Once context and payload are fixed, only the raw logs decide.
  lemma SecondPass(env: Env, r: Request, c: Context, p: Parts, rawLogs: seq<Dict>)
    requires r == BuildRequest(env, r, c, p, rawLogs)
    requires BuildContext(env, r.eventId, r.agentSlug, r.eventType, r.occurredAt) == Ok(c)
    requires NormalizeParts(env, p) == Ok(p) && ShapeHolds(c.eventType, p.inference, p.action)
    ensures ValidateRequest(env, r) == Ok(r) <==>
            NormalizeRawLogs(env, DefaultsOf(r, c.eventId, c.agentSlug), rawLogs) == Ok(rawLogs)
  {
    assert PartsOf(r) == p;
  }

  // ---------- what an accepted request keeps ----------

  lemma RequiredMeaning(env: Env, v: Json)
    ensures var text := Strip(TextOr(env.repr, v));
            RequiredText(env, v) == if text == "" then Err("is required") else Ok(text)
  {
  }

  // A label as it would be stored: key and value stripped.
  function StrippedLabel(env: Env, item: (string, Json)): (string, string)
  {
    (Strip(item.0), Strip(TextOr(env.repr, item.1)))
  }

  predicate PairFits(pair: (string, string))
  {
    pair.0 != "" && pair.1 != "" && |pair.0| <= 64 && |pair.1| <= 256
  }

  lemma LabelAccepted(env: Env, item: (string, Json))
    ensures var pair := StrippedLabel(env, item);
            && (NormalizeLabel(env, item).Ok? <==> PairFits(pair))
            && (PairFits(pair) ==> NormalizeLabel(env, item) == Ok((pair.0, Str(pair.1))))
  {
    RequiredMeaning(env, Str(item.0));
    RequiredMeaning(env, item.1);
  }

  function StrippedLabels(env: Env, items: seq<(string, Json)>): (pairs: seq<(string, string)>)
    ensures |pairs| == |items|
  {
    if items == [] then []
    else StrippedLabels(env, items[..|items| - 1]) + [StrippedLabel(env, items[|items| - 1])]
  }

  // result[key] = value, pair after pair.
  function PutAll(pairs: seq<(string, string)>): seq<(string, Json)>
  {
    if pairs == [] then []
    else Put(PutAll(pairs[..|pairs| - 1]), pairs[|pairs| - 1].0, Str(pairs[|pairs| - 1].1))
  }

  predicate AllFit(pairs: seq<(string, string)>)
  {
    forall i :: 0 <= i < |pairs| ==> PairFits(pairs[i])
  }

  lemma AllFitLast(pairs: seq<(string, string)>, last: (string, string))
    ensures AllFit(pairs + [last]) <==> AllFit(pairs) && PairFits(last)
  {
    assert (pairs + [last])[|pairs|] == last;
    assert forall i :: 0 <= i < |pairs| ==> (pairs + [last])[i] == pairs[i];
  }

  lemma {:induction false} ItemsMeaning(env: Env, items: seq<(string, Json)>)
    ensures var pairs := StrippedLabels(env, items);
            && (NormalizeItems(env, items).Ok? <==> AllFit(pairs))
            && (AllFit(pairs) ==> NormalizeItems(env, items) == Ok(PutAll(pairs)))
  {
    if items != [] {
      var n := |items| - 1;
      var init, last := StrippedLabels(env, items[..n]), StrippedLabel(env, items[n]);
      ItemsMeaning(env, items[..n]);
      LabelAccepted(env, items[n]);
      AllFitLast(init, last);
      assert (init + [last])[..n] == init;
    }
  }

  // Labels are accepted exactly when there are not too many and every stripped
  // key and value is there and of bounded length; they are then put in order.
  lemma LabelsMeaning(env: Env, payload: seq<(string, Json)>)
    ensures var pairs := StrippedLabels(env, payload);
            && (NormalizedLabels(env, payload).Ok? <==> |payload| <= env.maxLabels && AllFit(pairs))
            && (NormalizedLabels(env, payload).Ok? ==> NormalizedLabels(env, payload).value == PutAll(pairs))
  {
    ItemsMeaning(env, payload);
  }

  predicate KeysDistinct(d: seq<(string, Json)>)
  {
    forall i, j :: 0 <= i < j < |d| ==> d[i].0 != d[j].0
  }

  lemma PutMeaning(d: seq<(string, Json)>, key: string, value: Json)
    requires KeysDistinct(d)
    ensures KeysDistinct(Put(d, key, value))
    ensures forall e :: e in Put(d, key, value) <==> e == (key, value) || (e in d && e.0 != key)
  {
    var r := Put(d, key, value);
    assert r[IndexOfKey(d, key)] == (key, value);
    forall e | e in d && e.0 != key
      ensures e in r
    {
      var i :| 0 <= i < |d| && d[i] == e;
      assert r[i] == e;
    }
  }

  // The stored labels are exactly the pairs given last under their key.
  lemma {:induction false} StoredLabels(pairs: seq<(string, string)>)
    ensures KeysDistinct(PutAll(pairs))
    ensures forall key, value :: (key, Str(value)) in PutAll(pairs) <==> GivenLast(pairs, key, value)
  {
    if pairs != [] {
      var n := |pairs| - 1;
      StoredLabels(pairs[..n]);
      PutMeaning(PutAll(pairs[..n]), pairs[n].0, Str(pairs[n].1));
      assert pairs == pairs[..n] + [pairs[n]];
      forall key, value
        ensures (key, Str(value)) in PutAll(pairs) <==> GivenLast(pairs, key, value)
      {
        GivenLastStep(pairs[..n], pairs[n], key, value);
      }
    }
  }

  // One field of a record: its normal form, absent when that is nothing.
  predicate FieldKept(env: Env, kind: FieldKind, key: string, given: Dict, out: Dict)
  {
    NormalizeField(env, kind, Get(given, key)) == Ok(Get(out, key))
  }

  lemma RecordFieldKept(env: Env, spec: Spec, d: Dict, key: string, kind: FieldKind)
    requires RecordAccepted(env, spec, d) && key in spec && spec[key] == kind
    ensures FieldKept(env, kind, key, d, NormalizeRecord(env, spec, Some(d)).value.value)
  {
  }

  lemma RecordKeys(env: Env, spec: Spec, d: Dict)
    requires RecordAccepted(env, spec, d)
    ensures NormalizeRecord(env, spec, Some(d)).value.value.Keys <= spec.Keys
  {
  }

  // The fields of the two records, and what each is normalised as.
  predicate Has(spec: Spec, key: string, kind: FieldKind)
  {
    key in spec && spec[key] == kind
  }

  lemma InferenceFields()
    ensures INFERENCE_FIELDS.Keys == {"model_name", "provider_name", "request_kind", "status", "latency_ms", "input_tokens",
                                      "output_tokens", "error_message"}
    ensures Has(INFERENCE_FIELDS, "model_name", TextField) && Has(INFERENCE_FIELDS, "provider_name", TextField)
    ensures Has(INFERENCE_FIELDS, "request_kind", EnumField({"chat", "completion", "tool-selection", "other"}))
    ensures Has(INFERENCE_FIELDS, "status", EnumField({"success", "error", "timeout", "cancelled"}))
    ensures Has(INFERENCE_FIELDS, "latency_ms", CountField) && Has(INFERENCE_FIELDS, "input_tokens", CountField)
    ensures Has(INFERENCE_FIELDS, "output_tokens", CountField) && Has(INFERENCE_FIELDS, "error_message", ErrorField)
  {
  }

  lemma ActionFields()
    ensures ACTION_FIELDS.Keys ==
            {"target_name", "target_agent_slug", "action_kind", "status", "latency_ms", "error_message"}
    ensures Has(ACTION_FIELDS, "target_name", TextField) && Has(ACTION_FIELDS, "target_agent_slug", TextField)
    ensures Has(ACTION_FIELDS, "action_kind",
                EnumField({"tool_call", "message_send", "http_request", "state_transition", "task_update", "other"}))
    ensures Has(ACTION_FIELDS, "status", EnumField({"success", "error", "timeout", "cancelled", "rejected"}))
    ensures Has(ACTION_FIELDS, "latency_ms", CountField) && Has(ACTION_FIELDS, "error_message", ErrorField)
  {
  }

  // A record keeps its own fields only, each in its normal form.
  lemma RecordMeaning(env: Env, spec: Spec, d: Dict)
    requires NormalizeRecord(env, spec, Some(d)).Ok?
    ensures var out := NormalizeRecord(env, spec, Some(d)).value.value;
            out.Keys <= spec.Keys && forall key, kind :: Has(spec, key, kind) ==> FieldKept(env, kind, key, d, out)
  {
    RecordKeys(env, spec, d);
    forall key, kind | Has(spec, key, kind)
      ensures FieldKept(env, kind, key, d, NormalizeRecord(env, spec, Some(d)).value.value)
    {
      RecordFieldKept(env, spec, d, key, kind);
    }
  }

  // What a normal form is, kind by kind.
  lemma TextFieldMeaning(env: Env, v: Json)
    ensures var text := Strip(TextOr(env.repr, v));
            NormalizeField(env, TextField, v) == Ok(if text == "" then Null else Str(text))
  {
  }

  lemma EnumMeaning(env: Env, v: Json, members: set<string>)
    ensures var text := Strip(TextOr(env.repr, v));
            && (ParseEnum(env, v, members).Ok? <==> text != "" && text in members)
            && (ParseEnum(env, v, members).Ok? ==> ParseEnum(env, v, members).value == text)
  {
    RequiredMeaning(env, v);
  }

  lemma EnumFieldMeaning(env: Env, v: Json, members: set<string>)
    ensures var r, text := NormalizeField(env, EnumField(members), v), Strip(TextOr(env.repr, v));
            && (r.Ok? <==> v == Null || (text != "" && text in members))
            && (r.Ok? ==> r.value == if v == Null then Null else Str(text))
  {
    EnumMeaning(env, v, members);
  }

  lemma CountFieldMeaning(env: Env, v: Json)
    ensures NormalizeField(env, CountField, v).Ok? <==> v == Null || (v.Num? && v.n >= 0)
    ensures NormalizeField(env, CountField, v).Ok? ==> NormalizeField(env, CountField, v).value == v
  {
  }

  lemma BoundedMeaning(env: Env, v: Json, maxBytes: nat)
    ensures var text := Strip(TextOr(env.repr, v));
            && (BoundedText(env, v, maxBytes).Ok? <==> text != "" && env.utf8Length(text) <= maxBytes)
            && (BoundedText(env, v, maxBytes).Ok? ==> BoundedText(env, v, maxBytes).value == text)
  {
    RequiredMeaning(env, v);
  }

  lemma ErrorFieldMeaning(env: Env, v: Json)
    ensures var r, text := NormalizeField(env, ErrorField, v), Strip(TextOr(env.repr, v));
            && (r.Ok? <==> v == Null || (text != "" && env.utf8Length(text) <= env.maxErrorBytes))
            && (r.Ok? ==> r.value == if v == Null then Null else Str(text))
  {
    BoundedMeaning(env, v, env.maxErrorBytes);
  }

  predicate RawKept(env: Env, kind: RawKind, key: string, given: Dict, out: Dict)
  {
    NormalizeRawField(env, kind, Get(given, key)) == Ok(Get(out, key))
  }

  lemma RawLogKey(env: Env, d: Defaults, payload: Dict, key: string, kind: RawKind)
    requires RawLogAccepted(env, d, payload) && HasRaw(d, key, kind)
    ensures RawKept(env, kind, key, payload, RawLogOf(env, d, payload))
  {
  }

  // A raw log has its ten fields and no other, each in its normal form.
  lemma RawLogMeaning(env: Env, d: Defaults, payload: Dict)
    requires NormalizeRawLog(env, d, payload).Ok?
    ensures var out := NormalizeRawLog(env, d, payload).value;
            out.Keys == RAW_LOG_FIELDS && forall key, kind :: HasRaw(d, key, kind) ==> RawKept(env, kind, key, payload, out)
  {
    forall key, kind | HasRaw(d, key, kind)
      ensures RawKept(env, kind, key, payload, RawLogOf(env, d, payload))
    {
      RawLogKey(env, d, payload, key, kind);
    }
  }

  // An id is the log's own, or else the one inherited.
  lemma InheritedMeaning(env: Env, default: Option<string>, v: Json)
    ensures var own := Strip(TextOr(env.repr, v));
            NormalizeRawField(env, InheritedField(default), v) == Ok(if own != "" then Str(own) else OptionJson(default))
  {
  }

  lemma LevelMeaning(env: Env, v: Json)
    ensures var r, text := NormalizeRawField(env, LevelField, v), Strip(TextOr(env.repr, v));
            && (r.Ok? <==> text == "DEBUG" || text == "INFO" || text == "WARNING" || text == "ERROR" || text == "CRITICAL")
            && (r.Ok? ==> r.value == Str(text))
  {
    EnumMeaning(env, v, LOG_LEVELS);
    LevelNames(Strip(TextOr(env.repr, v)));
  }

  lemma LevelNames(text: string)
    ensures text in LOG_LEVELS <==>
            text == "DEBUG" || text == "INFO" || text == "WARNING" || text == "ERROR" || text == "CRITICAL"
    ensures text in LOG_LEVELS ==> text != ""
  {
  }

  lemma MessageMeaning(env: Env, v: Json)
    ensures var r, text := NormalizeRawField(env, MessageField, v), Strip(TextOr(env.repr, v));
            && (r.Ok? <==> text != "" && env.utf8Length(text) <= env.maxRawMessageBytes)
            && (r.Ok? ==> r.value == Str(text))
  {
    BoundedMeaning(env, v, env.maxRawMessageBytes);
  }

  lemma TimeAndPayloadMeaning(env: Env, v: Json)
    ensures NormalizeRawField(env, TimeField, v) == NormalizeTime(env, v)
    ensures NormalizeRawField(env, PayloadField, v).Ok?
            <==> v == Null || (v.Obj? && env.jsonSize(v.fields) <= env.maxRawPayloadBytes)
    ensures NormalizeRawField(env, PayloadField, v).Ok? ==> NormalizeRawField(env, PayloadField, v).value == v
  {
  }

  predicate EachNormalized(logs: seq<Dict>, normalize: Dict -> Result<Dict, Error>, out: seq<Dict>)
  {
    |out| == |logs| && forall i :: 0 <= i < |logs| ==> normalize(logs[i]) == Ok(out[i])
  }

  // Accepted exactly when each item is; they stay in order, each normalised for
  // itself.
  lemma {:induction false} EachMeaning(logs: seq<Dict>, normalize: Dict -> Result<Dict, Error>)
    ensures var r := NormalizeEach(logs, normalize);
            && (r.Ok? <==> forall i :: 0 <= i < |logs| ==> normalize(logs[i]).Ok?)
            && (r.Ok? ==> EachNormalized(logs, normalize, r.value))
  {
    if logs != [] {
      var n := |logs| - 1;
      EachMeaning(logs[..n], normalize);
      assert forall i :: 0 <= i < n ==> logs[..n][i] == logs[i];
    }
  }

  // Identity and time of an accepted request.
  lemma ContextMeaning(env: Env, eventId: string, agentSlug: string, eventType: string, occurredAt: string)
    requires BuildContext(env, eventId, agentSlug, eventType, occurredAt).Ok?
    ensures var c := BuildContext(env, eventId, agentSlug, eventType, occurredAt).value;
            && c.eventId == Strip(eventId) && c.eventId != "" && c.agentSlug == Strip(agentSlug) && c.agentSlug != ""
            && c.eventType == Strip(eventType) && c.eventType in EVENT_TYPES
            && NormalizeTime(env, Str(occurredAt)) == Ok(Str(env.clock.serialize(c.time)))
  {
    var c := BuildContext(env, eventId, agentSlug, eventType, occurredAt).value;
    ContextParts(env, eventId, agentSlug, eventType, occurredAt, c);
    GivenText(env, eventId, c.eventId);
    GivenText(env, agentSlug, c.agentSlug);
    GivenType(env, eventType, c.eventType);
    TimeMeaning(env, Str(occurredAt), c.time);
  }

  lemma GivenText(env: Env, given: string, text: string)
    requires RequiredText(env, Str(given)) == Ok(text)
    ensures text == Strip(given) && text != ""
  {
    RequiredMeaning(env, Str(given));
  }

  lemma GivenType(env: Env, given: string, eventType: string)
    requires ParseEnum(env, Str(given), EVENT_TYPES) == Ok(eventType)
    ensures eventType == Strip(given) && eventType in EVENT_TYPES
  {
    EnumMeaning(env, Str(given), EVENT_TYPES);
  }

  lemma ContextParts(env: Env, eventId: string, agentSlug: string, eventType: string, occurredAt: string, c: Context)
    requires BuildContext(env, eventId, agentSlug, eventType, occurredAt) == Ok(c)
    ensures RequiredText(env, Str(eventId)) == Ok(c.eventId) && RequiredText(env, Str(agentSlug)) == Ok(c.agentSlug)
    ensures ParseEnum(env, Str(eventType), EVENT_TYPES) == Ok(c.eventType)
    ensures ParseTimestamp(env, Str(occurredAt)) == Ok(c.time)
  {
  }

  lemma TimeMeaning(env: Env, v: Json, time: int)
    requires ParseTimestamp(env, v) == Ok(time)
    ensures NormalizeTime(env, v) == Ok(Str(env.clock.serialize(time)))
  {
  }

  lemma EventTypes(t: string)
    ensures t in EVENT_TYPES <==> t == "inference_event" || t == "action_event"
  {
  }

  // Every part of an accepted request, from the part given.
  lemma AcceptedIdentity(env: Env, r: Request)
    requires ValidateRequest(env, r).Ok?
    ensures var out := ValidateRequest(env, r).value;
            && out.eventId == Strip(r.eventId) && out.eventId != ""
            && out.agentSlug == Strip(r.agentSlug) && out.agentSlug != ""
            && out.eventType == Strip(r.eventType) && (out.eventType == "inference_event" || out.eventType == "action_event")
            && NormalizeTime(env, Str(r.occurredAt)) == Ok(Str(out.occurredAt))
            && out.runId == CleanOptional(env, r.runId) && out.threadId == CleanOptional(env, r.threadId)
            && out.correlationId == CleanOptional(env, r.correlationId)
            && out.parentEventId == CleanOptional(env, r.parentEventId)
  {
    var c, p, rawLogs := Accepted(env, r);
    ContextMeaning(env, r.eventId, r.agentSlug, r.eventType, r.occurredAt);
    EventTypes(Strip(r.eventType));
  }

  lemma PartsMeaning(env: Env, p: Parts)
    requires NormalizeParts(env, p).Ok?
    ensures var out := NormalizeParts(env, p).value;
            && NormalizedLabels(env, p.labels) == Ok(out.labels)
            && out.metadata == p.metadata && env.jsonSize(p.metadata) <= env.maxMetadataBytes
            && out.rawPayload == p.rawPayload
            && (p.rawPayload.Some? ==> env.jsonSize(p.rawPayload.value) <= env.maxRawPayloadBytes)
            && NormalizeRecord(env, INFERENCE_FIELDS, p.inference) == Ok(out.inference)
            && NormalizeRecord(env, ACTION_FIELDS, p.action) == Ok(out.action)
  {
  }

  // The three stages an accepted request went through.
  lemma Accepted(env: Env, r: Request) returns (c: Context, p: Parts, rawLogs: seq<Dict>)
    requires ValidateRequest(env, r).Ok?
    ensures BuildContext(env, r.eventId, r.agentSlug, r.eventType, r.occurredAt) == Ok(c)
    ensures NormalizeParts(env, PartsOf(r)) == Ok(p) && ShapeHolds(c.eventType, p.inference, p.action)
    ensures NormalizeRawLogs(env, DefaultsOf(r, c.eventId, c.agentSlug), r.rawLogs) == Ok(rawLogs)
    ensures ValidateRequest(env, r) == Ok(BuildRequest(env, r, c, p, rawLogs))
  {
    c := BuildContext(env, r.eventId, r.agentSlug, r.eventType, r.occurredAt).value;
    p := NormalizeParts(env, PartsOf(r)).value;
    rawLogs := NormalizeRawLogs(env, DefaultsOf(r, c.eventId, c.agentSlug), r.rawLogs).value;
  }

  lemma AcceptedParts(env: Env, r: Request)
    requires ValidateRequest(env, r).Ok?
    ensures var out := ValidateRequest(env, r).value;
            && NormalizedLabels(env, r.labels) == Ok(out.labels)
            && out.metadata == r.metadata && env.jsonSize(r.metadata) <= env.maxMetadataBytes
            && out.rawPayload == r.rawPayload
            && (r.rawPayload.Some? ==> env.jsonSize(r.rawPayload.value) <= env.maxRawPayloadBytes)
            && NormalizeRecord(env, INFERENCE_FIELDS, r.inference) == Ok(out.inference)
            && NormalizeRecord(env, ACTION_FIELDS, r.action) == Ok(out.action)
  {
    var c, p, rawLogs := Accepted(env, r);
    PartsMeaning(env, PartsOf(r));
  }

  lemma AcceptedShape(env: Env, r: Request)
    requires ValidateRequest(env, r).Ok?
    ensures var out := ValidateRequest(env, r).value;
            && (out.inference.Some? <==> out.eventType == "inference_event")
            && (out.action.Some? <==> out.eventType != "inference_event")
  {
    var c, p, rawLogs := Accepted(env, r);
    var out := BuildRequest(env, r, c, p, rawLogs);
    assert out.inference == p.inference && out.action == p.action && out.eventType == c.eventType;
  }

  lemma AcceptedRawLogs(env: Env, r: Request)
    requires ValidateRequest(env, r).Ok?
    ensures var out := ValidateRequest(env, r).value;
            var defaults := Defaults(out.eventId, out.agentSlug, r.runId, r.threadId, r.correlationId);
            EachNormalized(r.rawLogs, RawLogNormalizer(env, defaults), out.rawLogs)
  {
    var c, p, rawLogs := Accepted(env, r);
    EachMeaning(r.rawLogs, RawLogNormalizer(env, DefaultsOf(r, c.eventId, c.agentSlug)));
  }

  // A wire payload's text field, as it arrives in the request.
  predicate TextArrives(env: Env, m: Dict, key: string, value: string)
  {
    value == TextOr(env.repr, Get(m, key))
  }

  predicate IdArrives(env: Env, m: Dict, key: string, id: Option<string>)
  {
    id == OptionalText(env, Get(m, key))
  }

  predicate DictArrives(m: Dict, key: string, d: Option<Dict>)
  {
    if Get(m, key) == Null then d == None else d.Some? && Get(m, key) == Obj(d.value)
  }

  // Which key of the wire payload fills which part of the request.
  lemma WireKeys(env: Env, m: Dict)
    requires CoerceEventRequest(env, Obj(m)).Ok?
    ensures var r := CoerceEventRequest(env, Obj(m)).value;
            && TextArrives(env, m, "event_id", r.eventId) && TextArrives(env, m, "event_type", r.eventType)
            && TextArrives(env, m, "occurred_at", r.occurredAt) && TextArrives(env, m, "agent_slug", r.agentSlug)
            && IdArrives(env, m, "run_id", r.runId) && IdArrives(env, m, "thread_id", r.threadId)
            && IdArrives(env, m, "correlation_id", r.correlationId) && IdArrives(env, m, "parent_event_id", r.parentEventId)
            && DictArrives(m, "raw_payload", r.rawPayload) && DictArrives(m, "inference", r.inference)
            && DictArrives(m, "action", r.action)
  {
  }

  lemma WireContainers(env: Env, m: Dict)
    requires CoerceEventRequest(env, Obj(m)).Ok?
    ensures var r := CoerceEventRequest(env, Obj(m)).value;
            && (Get(m, "metadata") == Null ==> r.metadata == map[])
            && (Get(m, "metadata") != Null ==> Get(m, "metadata") == Obj(r.metadata))
            && (Get(m, "labels") == Null ==> r.labels == Items(env, map[]))
            && (Get(m, "labels") != Null ==> Get(m, "labels").Obj? && r.labels == Items(env, Get(m, "labels").fields))
            && (Get(m, "raw_logs") == Null ==> r.rawLogs == [])
            && (Get(m, "raw_logs") != Null ==> Get(m, "raw_logs").Arr? && SameObjects(Get(m, "raw_logs").items, r.rawLogs))
  {
    if Get(m, "raw_logs") != Null {
      ObjectsAlike(Get(m, "raw_logs").items);
    }
  }

  predicate SameObjects(items: seq<Json>, objects: seq<Dict>)
  {
    |objects| == |items| && forall i :: 0 <= i < |items| ==> items[i] == Obj(objects[i])
  }

  lemma {:induction false} ObjectsAlike(items: seq<Json>)
    requires CoerceObjects(items).Ok?
    ensures SameObjects(items, CoerceObjects(items).value)
  {
    if items != [] {
      ObjectsAlike(items[..|items| - 1]);
    }
  }

  // ---------- a request that does not settle ----------

  function SmallLog(time: string): Dict
  {
    map["occurred_at" := Str(time), "level" := Str("INFO"), "raw_message" := Str("m")]
  }

  // Built in process with a blank run id, and one raw log without its own.
  function BlankIdRequest(time: string): Request
  {
    Request("e", "action_event", time, "a", Some(" "), None, None, None, [], map[], None, None, Some(map[]), [SmallLog(time)])
  }

  lemma SmallLogField(env: Env, d: Defaults, time: int, k: string)
    requires Cursors.Faithful(env.clock) && env.utf8Length("m") <= env.maxRawMessageBytes
    ensures NormalizeRawField(env, RawKindOf(d, k), Get(SmallLog(env.clock.serialize(time)), k)).Ok?
  {
    var text := env.clock.serialize(time);
    assert env.clock.parse(text) == Some(time) && CleanText(text);
    var log := SmallLog(text);
    assert CleanText("INFO") && "INFO" in LOG_LEVELS && CleanText("m");
    assert SlotOf(k) == FixedSlot(PayloadField) ==> Get(log, k) == Null;
  }

  lemma SmallLogAccepted(env: Env, d: Defaults, time: int)
    requires Cursors.Faithful(env.clock) && env.utf8Length("m") <= env.maxRawMessageBytes
    ensures var log := NormalizeRawLog(env, d, SmallLog(env.clock.serialize(time)));
            log.Ok? && Get(log.value, "run_id") == OrDefault(None, d.runId)
  {
    var log := SmallLog(env.clock.serialize(time));
    forall k | k in RAW_LOG_FIELDS
      ensures NormalizeRawField(env, RawKindOf(d, k), Get(log, k)).Ok?
    {
      SmallLogField(env, d, time, k);
    }
    assert "run_id" in RAW_LOG_FIELDS && SlotOf("run_id") == RunSlot && Get(log, "run_id") == Null;
  }

  lemma EmptyAction(env: Env)
    ensures NormalizeRecord(env, ACTION_FIELDS, Some(map[])) == Ok(Some(map[]))
  {
    var empty: Dict := map[];
    forall k | k in ACTION_FIELDS
      ensures NormalizeField(env, ACTION_FIELDS[k], Get(empty, k)) == Ok(Null)
    {
      assert Get(empty, k) == Null;
    }
  }

  lemma SmallContext(env: Env, time: int)
    requires Cursors.Faithful(env.clock)
    ensures BuildContext(env, "e", "a", "action_event", env.clock.serialize(time)) == Ok(Context("e", "a", "action_event", time))
  {
    var text := env.clock.serialize(time);
    assert env.clock.parse(text) == Some(time) && CleanText(text);
    assert CleanText("e") && CleanText("a") && CleanText("action_event") && "action_event" in EVENT_TYPES;
  }

  lemma SmallParts(env: Env)
    requires env.jsonSize(map[]) <= env.maxMetadataBytes
    ensures var p := Parts([], map[], None, None, Some(map[])); NormalizeParts(env, p) == Ok(p)
  {
    EmptyAction(env);
  }

  lemma OneLog(env: Env, d: Defaults, payload: Dict, log: Dict)
    requires NormalizeRawLog(env, d, payload) == Ok(log)
    ensures NormalizeRawLogs(env, d, [payload]) == Ok([log])
  {
    var logs := [payload];
    assert logs[..|logs| - 1] == [] && logs[|logs| - 1] == payload;
    assert NormalizeRawLogs(env, d, logs[..|logs| - 1]) == Ok([]);
    assert [] + [log] == [log];
  }

  lemma AcceptedFromParts(env: Env, r: Request, c: Context, p: Parts, rawLogs: seq<Dict>)
    requires BuildContext(env, r.eventId, r.agentSlug, r.eventType, r.occurredAt) == Ok(c)
    requires NormalizeParts(env, PartsOf(r)) == Ok(p) && ShapeHolds(c.eventType, p.inference, p.action)
    requires NormalizeRawLogs(env, DefaultsOf(r, c.eventId, c.agentSlug), r.rawLogs) == Ok(rawLogs)
    ensures ValidateRequest(env, r) == Ok(BuildRequest(env, r, c, p, rawLogs))
  {
  }

  lemma BlankIsNoId(env: Env)
    ensures CleanOptional(env, Some(" ")) == None && !CleanId(Some(" "))
  {
    assert Strip(" ") == "";
  }

  lemma WithoutOwnId(env: Env, d: Defaults, log: Dict)
    requires !CleanId(d.runId) && Get(log, "run_id") == Null
    ensures !LogSettles(env, d, log)
  {
  }

  lemma UnsettledIsNotFixed(env: Env, r: Request, log: Dict)
    requires Cursors.Faithful(env.clock) && ValidateRequest(env, r).Ok? && log in r.rawLogs
    requires forall eventId, agentSlug :: !LogSettles(env, DefaultsOf(r, eventId, agentSlug), log)
    ensures ValidateRequest(env, ValidateRequest(env, r).value) != ValidateRequest(env, r)
  {
    RequestFixedIff(env, r);
  }

  lemma InheritedBlank(env: Env, r: Request, c: Context, payload: Dict, log: Dict)
    requires Cursors.Faithful(env.clock) && r.rawLogs == [payload] && Get(payload, "run_id") == Null
    requires CleanOptional(env, r.runId) == None && !CleanId(r.runId)
    requires BuildContext(env, r.eventId, r.agentSlug, r.eventType, r.occurredAt) == Ok(c)
    requires NormalizeParts(env, PartsOf(r)) == Ok(PartsOf(r)) && ShapeHolds(c.eventType, r.inference, r.action)
    requires NormalizeRawLog(env, DefaultsOf(r, c.eventId, c.agentSlug), payload) == Ok(log)
    ensures var once := ValidateRequest(env, r);
            once.Ok? && once.value.rawLogs == [log] && once.value.runId == None && ValidateRequest(env, once.value) != once
  {
    OneLog(env, DefaultsOf(r, c.eventId, c.agentSlug), payload, log);
    AcceptedFromParts(env, r, c, PartsOf(r), [log]);
    forall eventId, agentSlug
      ensures !LogSettles(env, DefaultsOf(r, eventId, agentSlug), payload)
    {
      WithoutOwnId(env, DefaultsOf(r, eventId, agentSlug), payload);
    }
    UnsettledIsNotFixed(env, r, payload);
  }

  // Such a request is accepted; the log inherits the blank id, which the request
  // itself loses, so that a second validation takes it from the log as well.
  lemma BlankIdDoesNotSettle(env: Env, time: int)
    requires Cursors.Faithful(env.clock) && env.utf8Length("m") <= env.maxRawMessageBytes
    requires env.jsonSize(map[]) <= env.maxMetadataBytes
    ensures var once := ValidateRequest(env, BlankIdRequest(env.clock.serialize(time)));
            && once.Ok? && |once.value.rawLogs| == 1 && Get(once.value.rawLogs[0], "run_id") == Str(" ")
            && once.value.runId == None && ValidateRequest(env, once.value) != once
  {
    var text := env.clock.serialize(time);
    SmallContext(env, time);
    SmallParts(env);
    SmallLogAccepted(env, DefaultsOf(BlankIdRequest(text), "e", "a"), time);
    BlankIsNoId(env);
    BlankIdRequestIs(env, text);
    InheritedBlank(env, BlankIdRequest(text), Context("e", "a", "action_event", time), SmallLog(text),
                   NormalizeRawLog(env, DefaultsOf(BlankIdRequest(text), "e", "a"), SmallLog(text)).value);
  }

  lemma BlankIdRequestIs(env: Env, time: string)
    ensures var r := BlankIdRequest(time);
            && r.rawLogs == [SmallLog(time)] && Get(SmallLog(time), "run_id") == Null && r.runId == Some(" ")
            && PartsOf(r) == Parts([], map[], None, None, Some(map[])) && ShapeHolds("action_event", r.inference, r.action)
  {
  }

  // Validating an accepted request again accepts it and changes nothing.
  lemma Retraction(env: Env, r: Request)
    requires Cursors.Faithful(env.clock) && CleanIds(r)
    requires ValidateRequest(env, r).Ok?
    ensures ValidateRequest(env, ValidateRequest(env, r).value) == ValidateRequest(env, r)
  {
    RequestFixedIff(env, r);
  }

  // What the service stores for any accepted wire payload is a fixed point.
  lemma WireRetraction(env: Env, payload: Json)
    requires Cursors.Faithful(env.clock)
    requires CoerceEventRequest(env, payload).Ok? && ValidateRequest(env, CoerceEventRequest(env, payload).value).Ok?
    ensures var r := ValidateRequest(env, CoerceEventRequest(env, payload).value).value;
            ValidateRequest(env, r) == Ok(r)
  {
    CoercedIdsAreClean(env, payload);
    Retraction(env, CoerceEventRequest(env, payload).value);
  }

  // What ingest accepts can be paged over: the cursor of an accepted event
  // comes back intact, even when its id holds the separator.
  lemma AcceptedEventCursor(env: Env, r: Request, time: int)
    requires Cursors.Faithful(env.clock) && ValidateRequest(env, r).Ok?
    ensures var id := ValidateRequest(env, r).value.eventId;
            Cursors.ParseEventCursor(env.clock, Cursors.OptionalText(Cursors.CursorText(env.clock, time, id)))
            == Ok((Some(time), Some(id)))
  {
    var id := ValidateRequest(env, r).value.eventId;
    assert CleanText(id);
    Cursors.EventCursorRoundTrip(env.clock, time, id);
  }
}
