// The thread and event tables of OrchestraThreads and the transactions that
// change them (src/core/orchestra_thread: common.py, schema.sql, store_*.py).
// Each transaction is one atomic step; now is the clock value it read.
module ThreadModel {

  import opened Wrappers
  import opened PyText

  datatype Thread = Thread(
    threadId: string,
    rootId: string,
    parentId: Option<string>,
    owner: string,
    participantA: string,
    participantB: string,
    status: string,
    lastSequenceNo: nat,
    lastMessageSender: Option<string>,
    lastActivityAt: Option<int>,
    lastInactivityAt: Option<int>,
    createdAt: int,
    updatedAt: int,
    terminalAt: Option<int>)

  datatype Event = Event(
    eventId: string,
    threadId: string,
    sequenceNo: nat,
    kind: string,
    notificationStatus: Option<string>,
    fromSlug: string,
    toSlug: string,
    text: string,
    interruptsRuntime: bool,
    requiresResponse: bool,
    pending: bool,
    attempts: nat,
    nextAttemptAt: Option<int>,
    deliveredAt: Option<int>,
    lastError: Option<string>,
    createdAt: int)

  // Both tables, each by its primary key.
  datatype Db = Db(threads: map<string, Thread>, events: map<string, Event>)

  const EMPTY_DB: Db := Db(map[], map[])

  datatype AppendRequest = AppendRequest(
    eventId: string,
    threadId: string,
    kind: string,
    notificationStatus: Option<string>,
    fromSlug: string,
    toSlug: string,
    text: string,
    interruptsRuntime: bool,
    requiresResponse: bool,
    touchActivity: bool,
    updateLastMessageSender: bool,
    setStatus: Option<string>,
    setTerminal: bool)

  // A root request has no parent and is its own root.
  datatype CreateRequest = CreateRequest(
    threadId: string,
    rootId: string,
    parentId: Option<string>,
    owner: string,
    fromSlug: string,
    toSlug: string)

  datatype Step =
    | Create(create: CreateRequest, now: int)
    | Append(request: AppendRequest, now: int)
    | Delivered(eventId: string, now: int)
    | Failed(eventId: string, error: string, retryBase: int, retryMax: int, now: int)
    | Cancel(threadId: string, reason: string)
    | SetTerminal(threadId: string, status: string, now: int)
    | InactivitySent(threadId: string, now: int)

  type History = seq<Step>

  // ---------- statuses and participants ----------

  const TERMINAL_STATUSES: set<string> := {"done", "closed"}

  function NormalizeStatus(s: string): string
  {
    Lower(Strip(s))
  }

  // What the SQL compares: status NOT IN ('done', 'closed').
  predicate IsOpen(t: Thread)
  {
    t.status !in TERMINAL_STATUSES
  }

  lemma OpenMeaning(t: Thread)
    ensures IsOpen(t) <==> t.status != "done" && t.status != "closed"
  {
  }

  function NormalizeParticipants(first: string, second: string): (string, string)
  {
    var left, right := Strip(first), Strip(second);
    if left == right || TextLess(left, right) then (left, right) else (right, left)
  }

  // Who writes first does not matter.
  lemma ParticipantsUnordered(first: string, second: string)
    ensures NormalizeParticipants(first, second) == NormalizeParticipants(second, first)
    ensures var p := NormalizeParticipants(first, second);
            {p.0, p.1} == {Strip(first), Strip(second)} && !TextLess(p.1, p.0)
  {
    TextLessTotal(Strip(first), Strip(second));
  }

  // ---------- steps ----------

  // An open thread between the pair under the given parent.
  predicate OpenBetween(t: Thread, parentId: Option<string>, pair: (string, string))
  {
    t.parentId == parentId && (t.participantA, t.participantB) == pair && IsOpen(t)
  }

  predicate HasOpenBetween(db: Db, parentId: Option<string>, pair: (string, string))
  {
    exists id :: id in db.threads && OpenBetween(db.threads[id], parentId, pair)
  }

  predicate CanCreate(db: Db, c: CreateRequest)
  {
    && !HasOpenBetween(db, c.parentId, NormalizeParticipants(c.fromSlug, c.toSlug))
    && c.threadId !in db.threads
    && (c.parentId.Some? ==> c.parentId.value in db.threads)
  }

  function NewThread(c: CreateRequest, now: int): Thread
  {
    var pair := NormalizeParticipants(c.fromSlug, c.toSlug);
    Thread(c.threadId, if c.parentId.None? then c.threadId else c.rootId, c.parentId, c.owner, pair.0, pair.1,
           "open", 0, None, None, None, now, now, None)
  }

  predicate CanAppend(db: Db, r: AppendRequest)
  {
    && r.threadId in db.threads
    && NormalizeStatus(db.threads[r.threadId].status) !in TERMINAL_STATUSES
    && r.eventId !in db.events
  }

  function NewEvent(t: Thread, r: AppendRequest, now: int): Event
  {
    Event(r.eventId, r.threadId, t.lastSequenceNo + 1, r.kind, r.notificationStatus, r.fromSlug, r.toSlug, r.text,
          r.interruptsRuntime, r.requiresResponse, r.interruptsRuntime, 0,
          if r.interruptsRuntime then Some(now) else None, None, None, now)
  }

  function Coalesce<T>(a: Option<T>, b: T): T
  {
    if a.Some? then a.value else b
  }

  function TouchThread(t: Thread, r: AppendRequest, now: int): Thread
  {
    t.(updatedAt := now,
       status := Coalesce(r.setStatus, t.status),
       lastActivityAt := if r.touchActivity then Some(now) else t.lastActivityAt,
       lastMessageSender := if r.updateLastMessageSender then Some(r.fromSlug) else t.lastMessageSender,
       terminalAt := if r.setTerminal then Some(Coalesce(t.terminalAt, now)) else t.terminalAt,
       lastSequenceNo := t.lastSequenceNo + 1)
  }

  const MAX_RETRY_EXPONENT := 10

  function Pow2(n: nat): nat
  {
    if n == 0 then 1 else 2 * Pow2(n - 1)
  }

  function Min(a: int, b: int): int
  {
    if a <= b then a else b
  }

  function RetryDelay(attempt: nat, retryBase: int, retryMax: int): int
    requires attempt >= 1
  {
    Min(retryMax, retryBase * Pow2(Min(attempt - 1, MAX_RETRY_EXPONENT)))
  }

  function CancelEvent(e: Event, threadId: string, reason: string): Event
  {
    if e.threadId == threadId && e.pending
    then e.(pending := false, nextAttemptAt := None, lastError := Some(Coalesce(e.lastError, reason)))
    else e
  }

  // error_text[:4000]
  function Clip(s: string): string
  {
    if |s| <= 4000 then s else s[..4000]
  }

  function Apply(db: Db, step: Step): Db
  {
    match step
    case Create(c, now) =>
      if CanCreate(db, c) then db.(threads := db.threads[c.threadId := NewThread(c, now)]) else db
    case Append(r, now) =>
      if CanAppend(db, r) then
        var t := db.threads[r.threadId];
        Db(db.threads[r.threadId := TouchThread(t, r, now)], db.events[r.eventId := NewEvent(t, r, now)])
      else db
    case Delivered(id, now) =>
      if id in db.events then
        db.(events := db.events[id := db.events[id].(
              pending := false, deliveredAt := Some(now), nextAttemptAt := None, lastError := None)])
      else db
    case Failed(id, error, retryBase, retryMax, now) =>
      if id in db.events then
        var n := db.events[id].attempts + 1;
        db.(events := db.events[id := db.events[id].(
              attempts := n, nextAttemptAt := Some(now + RetryDelay(n, retryBase, retryMax)), lastError := Some(Clip(error)))])
      else db
    case Cancel(threadId, reason) =>
      db.(events := map id | id in db.events :: CancelEvent(db.events[id], threadId, Clip(reason)))
    case SetTerminal(id, status, now) =>
      if id in db.threads && IsOpen(db.threads[id]) then
        db.(threads := db.threads[id := db.threads[id].(
              status := status, terminalAt := Some(Coalesce(db.threads[id].terminalAt, now)), updatedAt := now)])
      else db
    case InactivitySent(id, now) =>
      if id in db.threads then
        db.(threads := db.threads[id := db.threads[id].(lastInactivityAt := Some(now), updatedAt := now)])
      else db
  }

  function RunFrom(db: Db, steps: History): Db
  {
    if steps == [] then db else Apply(RunFrom(db, steps[..|steps| - 1]), steps[|steps| - 1])
  }

  // The tables after a history, starting from empty ones.
  function Run(h: History): Db
  {
    RunFrom(EMPTY_DB, h)
  }

  lemma RunExtend(h: History, step: Step)
    ensures Run(h + [step]) == Apply(Run(h), step)
  {
    assert (h + [step])[..|h|] == h;
  }

  lemma {:induction false} RunSplit(h: History, more: History)
    ensures Run(h + more) == RunFrom(Run(h), more)
  {
    if more == [] {
      assert h + more == h;
    } else {
      assert (h + more)[..|h + more| - 1] == h + more[..|more| - 1];
      RunSplit(h, more[..|more| - 1]);
    }
  }

  // ---------- queries ----------

  // list_due_pending_events: which events its WHERE clause selects.
  predicate Due(db: Db, id: string, now: int)
  {
    && id in db.events
    && db.events[id].pending
    && db.events[id].threadId in db.threads
    && IsOpen(db.threads[db.events[id].threadId])
    && Coalesce(db.events[id].nextAttemptAt, db.events[id].createdAt) <= now
  }

  // list_inactivity_candidates at time now.
  predicate InactivityCandidate(t: Thread, now: int, timeout: int)
  {
    && IsOpen(t)
    && t.lastMessageSender.Some?
    && t.lastActivityAt.Some? && t.lastActivityAt.value <= now - timeout
    && (t.lastInactivityAt.None? || t.lastInactivityAt.value <= now - timeout)
  }
}
