// The thread store as the service holds it: two tables updated in place by
// transactions (src/core/orchestra_thread: store_thread_creation.py,
// store_thread_events.py, store_delivery.py, store_notifications.py).
module ThreadStore {

  import opened Wrappers
  import opened PyText
  import opened ThreadModel

  datatype StoreError =
    | UnknownThread            // KeyError
    | AlreadyTerminal          // ValueError
    | DuplicateEventId         // unique violation, transaction rolled back
    | UnknownParent            // foreign key violation, transaction rolled back
    | ConflictWithoutThread    // RuntimeError

  // The columns of a thread just created.
  predicate IsFresh(t: Thread, c: CreateRequest, now: int)
  {
    && t.threadId == c.threadId && t.parentId == c.parentId && t.owner == c.owner
    && t.rootId == (if c.parentId.Some? then c.rootId else c.threadId)
    && {t.participantA, t.participantB} == {Strip(c.fromSlug), Strip(c.toSlug)} && !TextLess(t.participantB, t.participantA)
    && t.status == "open" && t.lastSequenceNo == 0 && t.createdAt == t.updatedAt == now
    && t.lastActivityAt.None? && t.lastMessageSender.None? && t.lastInactivityAt.None? && t.terminalAt.None?
  }

  lemma NewThreadIsFresh(c: CreateRequest, now: int)
    ensures var t := NewThread(c, now);
            IsFresh(t, c, now) && OpenBetween(t, c.parentId, NormalizeParticipants(c.fromSlug, c.toSlug))
  {
    ParticipantsUnordered(c.fromSlug, c.toSlug);
    OpenMeaning(NewThread(c, now));
  }

  class Store {
    var threads: map<string, Thread>
    var events: map<string, Event>
    ghost var history: History

    ghost function State(): Db
      reads this
    {
      Db(threads, events)
    }

    // The tables are what the history of transactions makes of empty ones.
    ghost predicate Valid()
      reads this
    {
      State() == Run(history)
    }

    constructor ()
      ensures Valid() && history == []
    {
      threads, events, history := map[], map[], [];
    }

    // Shared by the root and the child variant, which differ in the parent only.
    method GetOrCreate(c: CreateRequest, now: int) returns (r: Result<(Thread, bool), StoreError>)
      requires Valid()
      modifies this
      ensures Valid() && history == old(history) + [Create(c, now)]
      ensures r.Ok? ==>
                && r.value.0 in threads.Values
                && OpenBetween(r.value.0, c.parentId, NormalizeParticipants(c.fromSlug, c.toSlug))
                && (r.value.1 <==> old(CanCreate(State(), c)))
                && (r.value.1 ==>
                      && IsFresh(r.value.0, c, now) && c.threadId !in old(threads)
                      && threads == old(threads)[c.threadId := r.value.0])
                && (!r.value.1 ==> threads == old(threads))
      ensures events == old(events)
      ensures r.Err? ==>
                && State() == old(State())
                && !HasOpenBetween(State(), c.parentId, NormalizeParticipants(c.fromSlug, c.toSlug))
                && (r.error == UnknownParent ==> c.parentId.Some? && c.parentId.value !in threads)
                && (r.error != UnknownParent ==> c.threadId in threads)
    {
      history := history + [Create(c, now)];
      RunExtend(old(history), Create(c, now));
      var pair := NormalizeParticipants(c.fromSlug, c.toSlug);
      if id :| id in threads && OpenBetween(threads[id], c.parentId, pair) {
        return Ok((threads[id], false));
      }
      if c.threadId in threads {
        // ON CONFLICT DO NOTHING inserts nothing and the second lookup finds nothing.
        return Err(ConflictWithoutThread);
      }
      if c.parentId.Some? && c.parentId.value !in threads {
        return Err(UnknownParent);
      }
      var created := NewThread(c, now);
      NewThreadIsFresh(c, now);
      threads := threads[c.threadId := created];
      assert threads[c.threadId] == created;
      return Ok((created, true));
    }

    method AppendThreadEvent(request: AppendRequest, now: int) returns (r: Result<(Event, Thread), StoreError>)
      requires Valid()
      modifies this
      ensures Valid() && history == old(history) + [Append(request, now)]
      ensures r.Ok? <==> old(CanAppend(State(), request))
      ensures r.Ok? ==>
                && request.eventId in events && r.value.0 == events[request.eventId]
                && request.threadId in threads && r.value.1 == threads[request.threadId]
                && r.value.0.sequenceNo == r.value.1.lastSequenceNo == old(threads)[request.threadId].lastSequenceNo + 1
      // Every column of the event is the request's own.
      ensures r.Ok? ==>
                var e := r.value.0;
                && e.eventId == request.eventId && e.threadId == request.threadId
                && e.kind == request.kind && e.notificationStatus == request.notificationStatus
                && e.fromSlug == request.fromSlug && e.toSlug == request.toSlug && e.text == request.text
                && e.interruptsRuntime == e.pending == request.interruptsRuntime
                && e.requiresResponse == request.requiresResponse
                && e.attempts == 0 && e.deliveredAt.None? && e.lastError.None? && e.createdAt == now
                && e.nextAttemptAt == (if request.interruptsRuntime then Some(now) else None)
                && events == old(events)[request.eventId := e]
      // What the request leaves open stays as it was in the thread.
      ensures r.Ok? ==>
                var was, row := old(threads)[request.threadId], r.value.1;
                && row.status == (if request.setStatus.Some? then request.setStatus.value else was.status)
                && row.lastActivityAt == (if request.touchActivity then Some(now) else was.lastActivityAt)
                && row.lastMessageSender ==
                   (if request.updateLastMessageSender then Some(request.fromSlug) else was.lastMessageSender)
                && row.terminalAt ==
                   (if request.setTerminal && was.terminalAt.None? then Some(now) else was.terminalAt)
                && row.updatedAt == now && row.createdAt == was.createdAt && row.lastInactivityAt == was.lastInactivityAt
                && row.threadId == was.threadId && row.rootId == was.rootId && row.parentId == was.parentId
                && row.owner == was.owner && row.participantA == was.participantA && row.participantB == was.participantB
                && threads == old(threads)[request.threadId := row]
      ensures r.Err? ==> State() == old(State())
      ensures r.Err? ==>
                && (r.error == UnknownThread <==> request.threadId !in threads)
                && (r.error == AlreadyTerminal <==>
                      request.threadId in threads && Lower(Strip(threads[request.threadId].status)) in {"done", "closed"})
    {
      history := history + [Append(request, now)];
      RunExtend(old(history), Append(request, now));
      if request.threadId !in threads {
        return Err(UnknownThread);
      }
      var thread := threads[request.threadId];
      if NormalizeStatus(thread.status) in TERMINAL_STATUSES {
        return Err(AlreadyTerminal);
      }
      if request.eventId in events {
        return Err(DuplicateEventId);
      }
      var event := NewEvent(thread, request, now);
      events := events[request.eventId := event];
      thread := TouchThread(thread, request, now);
      threads := threads[request.threadId := thread];
      return Ok((event, thread));
    }

    method MarkEventDelivered(eventId: string, now: int)
      requires Valid()
      modifies this
      ensures Valid() && history == old(history) + [Delivered(eventId, now)]
      ensures threads == old(threads)
      ensures eventId !in old(events) ==> events == old(events)
      ensures eventId in old(events) ==>
                && eventId in events && events == old(events)[eventId := events[eventId]]
                && events[eventId] == old(events)[eventId].(
                   pending := false, deliveredAt := Some(now), nextAttemptAt := None, lastError := None)
    {
      history := history + [Delivered(eventId, now)];
      RunExtend(old(history), Delivered(eventId, now));
      if eventId in events {
        events := events[eventId := events[eventId].(
          pending := false, deliveredAt := Some(now), nextAttemptAt := None, lastError := None)];
      }
    }

    method MarkEventFailed(eventId: string, errorText: string, retryBase: int, retryMax: int, now: int)
      requires Valid()
      modifies this
      ensures Valid() && history == old(history) + [Failed(eventId, errorText, retryBase, retryMax, now)]
      ensures threads == old(threads)
      ensures eventId !in old(events) ==> events == old(events)
      ensures eventId in old(events) ==>
                var n := old(events)[eventId].attempts + 1;
                && eventId in events && events == old(events)[eventId := events[eventId]]
                && events[eventId] == old(events)[eventId].(
                   attempts := n, nextAttemptAt := Some(now + RetryDelay(n, retryBase, retryMax)),
                   lastError := Some(if |errorText| <= 4000 then errorText else errorText[..4000]))
    {
      history := history + [Failed(eventId, errorText, retryBase, retryMax, now)];
      RunExtend(old(history), Failed(eventId, errorText, retryBase, retryMax, now));
      if eventId !in events {
        return;
      }
      var attempts := events[eventId].attempts + 1;
      var delay := RetryDelay(attempts, retryBase, retryMax);
      events := events[eventId := events[eventId].(
        attempts := attempts, nextAttemptAt := Some(now + delay), lastError := Some(Clip(errorText)))];
    }

    method CancelPendingEvents(threadId: string, reason: string) returns (cancelled: nat)
      requires Valid()
      modifies this
      ensures Valid() && history == old(history) + [Cancel(threadId, reason)]
      ensures threads == old(threads)
      ensures cancelled == |set id | id in old(events) && old(events)[id].threadId == threadId && old(events)[id].pending|
      ensures forall id :: id in events && events[id].threadId == threadId ==> !events[id].pending
      ensures events.Keys == old(events).Keys
      ensures forall id :: id in events ==>
                var e := old(events)[id];
                events[id] ==
                if e.threadId != threadId || !e.pending then e
                else e.(pending := false, nextAttemptAt := None,
                        lastError := if e.lastError.Some? then e.lastError
                                     else Some(if |reason| <= 4000 then reason else reason[..4000]))
    {
      history := history + [Cancel(threadId, reason)];
      RunExtend(old(history), Cancel(threadId, reason));
      var hit := set id | id in events && events[id].threadId == threadId && events[id].pending;
      events := map id | id in events :: CancelEvent(events[id], threadId, Clip(reason));
      cancelled := |hit|;
    }

    // Returns the row after the update, or as it is when nothing was updated.
    method UpdateThreadTerminalStatus(threadId: string, status: string, now: int) returns (row: Option<Thread>)
      requires Valid()
      modifies this
      ensures Valid() && history == old(history) + [SetTerminal(threadId, status, now)]
      ensures events == old(events)
      ensures row == if threadId in threads then Some(threads[threadId]) else None
      ensures threadId !in old(threads) || old(threads)[threadId].status in {"done", "closed"} ==> threads == old(threads)
      ensures threadId in old(threads) && old(threads)[threadId].status !in {"done", "closed"} ==>
                && row.Some? && threads == old(threads)[threadId := row.value]
                && row.value == old(threads)[threadId].(
                   status := status, updatedAt := now,
                   terminalAt := if old(threads)[threadId].terminalAt.Some? then old(threads)[threadId].terminalAt else Some(now))
    {
      history := history + [SetTerminal(threadId, status, now)];
      RunExtend(old(history), SetTerminal(threadId, status, now));
      if threadId !in threads {
        return None;
      }
      var thread := threads[threadId];
      if IsOpen(thread) {
        thread := thread.(status := status, terminalAt := Some(Coalesce(thread.terminalAt, now)), updatedAt := now);
        threads := threads[threadId := thread];
      }
      return Some(thread);
    }

    method MarkInactivitySent(threadId: string, now: int)
      requires Valid()
      modifies this
      ensures Valid() && history == old(history) + [InactivitySent(threadId, now)]
      ensures events == old(events)
      ensures threadId !in old(threads) ==> threads == old(threads)
      ensures threadId in old(threads) ==>
                threads == old(threads)[threadId := old(threads)[threadId].(lastInactivityAt := Some(now), updatedAt := now)]
    {
      history := history + [InactivitySent(threadId, now)];
      RunExtend(old(history), InactivitySent(threadId, now));
      if threadId in threads {
        threads := threads[threadId := threads[threadId].(lastInactivityAt := Some(now), updatedAt := now)];
      }
    }

    // list_due_pending_events: never fewer than one row when any is due; by
    // attempt time, then creation time, then number.
    method DuePendingEvents(now: int, limit: int) returns (page: seq<string>)
      requires Valid()
      ensures DuePage(State(), now, if limit < 1 then 1 else limit, page)
      ensures forall i, j :: 0 <= i < j < |page| ==>
                && page[i] in events && page[j] in events
                && var a, b := events[page[i]], events[page[j]];
                   var s := if a.nextAttemptAt.Some? then a.nextAttemptAt.value else a.createdAt;
                   var t := if b.nextAttemptAt.Some? then b.nextAttemptAt.value else b.createdAt;
                   || s < t
                   || (s == t && (a.createdAt < b.createdAt || (a.createdAt == b.createdAt && a.sequenceNo <= b.sequenceNo)))
    {
      var due := set id | id in events
        && events[id].pending
        && events[id].threadId in threads
        && IsOpen(threads[events[id].threadId])
        && Coalesce(events[id].nextAttemptAt, events[id].createdAt) <= now;
      DueOrder(events, due);
      page := EarliestFirst(due, DueBefore(events), if limit < 1 then 1 else limit);
      forall i, j | 0 <= i < j < |page|
        ensures page[i] in events && page[j] in events && !Before(events[page[j]], events[page[i]])
      {
        assert !DueBefore(events)(page[j], page[i]);
      }
    }

    // list_inactivity_candidates: never fewer than one thread when any is a
    // candidate; the longest silent first.
    method InactivityCandidates(now: int, timeout: int, limit: int) returns (page: seq<string>)
      ensures |page| <= if limit < 1 then 1 else limit
      ensures forall i, j :: 0 <= i < j < |page| ==> page[i] != page[j]
      ensures forall id :: id in page ==>
                && id in threads && threads[id].status !in {"done", "closed"}
                && threads[id].lastMessageSender.Some?
                && threads[id].lastActivityAt.Some? && threads[id].lastActivityAt.value <= now - timeout
                && (threads[id].lastInactivityAt.Some? ==> threads[id].lastInactivityAt.value <= now - timeout)
      ensures forall i, j :: 0 <= i < j < |page| ==>
                threads[page[i]].lastActivityAt.value <= threads[page[j]].lastActivityAt.value
      ensures forall id :: id in threads && InactivityCandidate(threads[id], now, timeout) && id !in page ==>
                && |page| == (if limit < 1 then 1 else limit)
                && forall i :: 0 <= i < |page| ==>
                     threads[page[i]].lastActivityAt.value <= threads[id].lastActivityAt.value
    {
      var silent := set id | id in threads
        && IsOpen(threads[id])
        && threads[id].lastMessageSender.Some?
        && threads[id].lastActivityAt.Some? && threads[id].lastActivityAt.value <= now - timeout
        && (threads[id].lastInactivityAt.None? || threads[id].lastInactivityAt.value <= now - timeout);
      QuietOrder(threads, silent);
      page := EarliestFirst(silent, QuietBefore(threads), if limit < 1 then 1 else limit);
    }
  }

  // ---------- ORDER BY ... LIMIT n ----------

  // Strict, and a third row lies on one side of any two rows in order.
  ghost predicate WeakOrder(rows: set<string>, before: (string, string) -> bool)
  {
    && (forall a, b :: a in rows && b in rows && before(a, b) ==> !before(b, a))
    && (forall a, b, c :: a in rows && b in rows && c in rows && before(a, b) ==> before(a, c) || before(c, b))
  }

  // n of the wanted rows, none before its predecessor, and none left out that
  // comes before one returned.
  ghost predicate FirstRows(wanted: set<string>, before: (string, string) -> bool, n: nat, page: seq<string>)
  {
    && |page| <= n
    && (forall i :: 0 <= i < |page| ==> page[i] in wanted)
    && (forall i, j :: 0 <= i < j < |page| ==> page[i] != page[j] && !before(page[j], page[i]))
    && (forall e :: e in wanted && e !in page ==> |page| == n && forall i :: 0 <= i < |page| ==> !before(e, page[i]))
  }

  predicate Before(a: Event, b: Event)
  {
    var s, t := Coalesce(a.nextAttemptAt, a.createdAt), Coalesce(b.nextAttemptAt, b.createdAt);
    || s < t
    || (s == t && (a.createdAt < b.createdAt || (a.createdAt == b.createdAt && a.sequenceNo < b.sequenceNo)))
  }

  function DueBefore(events: map<string, Event>): (string, string) -> bool
  {
    (a, b) => a in events && b in events && Before(events[a], events[b])
  }

  function QuietBefore(threads: map<string, Thread>): (string, string) -> bool
  {
    (a, b) =>
      && a in threads && b in threads && threads[a].lastActivityAt.Some? && threads[b].lastActivityAt.Some?
      && threads[a].lastActivityAt.value < threads[b].lastActivityAt.value
  }

  lemma BeforeIsOrder(a: Event, b: Event, c: Event)
    requires Before(a, b)
    ensures !Before(b, a) && (Before(a, c) || Before(c, b))
  {
  }

  lemma DueOrder(events: map<string, Event>, rows: set<string>)
    requires rows <= events.Keys
    ensures WeakOrder(rows, DueBefore(events))
  {
    var before := DueBefore(events);
    forall a, b, c | a in rows && b in rows && c in rows && before(a, b)
      ensures !before(b, a) && (before(a, c) || before(c, b))
    {
      BeforeIsOrder(events[a], events[b], events[c]);
    }
    assert forall a, b :: a in rows && b in rows && before(a, b) ==> !before(b, a);
  }

  lemma QuietOrder(threads: map<string, Thread>, rows: set<string>)
    requires forall id :: id in rows ==> id in threads && threads[id].lastActivityAt.Some?
    ensures WeakOrder(rows, QuietBefore(threads))
  {
    var before := QuietBefore(threads);
    forall a, b | a in rows && b in rows && before(a, b)
      ensures !before(b, a)
    {
    }
    forall a, b, c | a in rows && b in rows && c in rows && before(a, b)
      ensures before(a, c) || before(c, b)
    {
    }
  }

  ghost predicate DuePage(db: Db, now: int, n: nat, page: seq<string>)
  {
    FirstRows((set id | id in db.events && Due(db, id, now)), DueBefore(db.events), n, page)
  }

  method Earliest(rows: set<string>, before: (string, string) -> bool) returns (first: string)
    requires rows != {} && WeakOrder(rows, before)
    ensures first in rows && forall e :: e in rows ==> !before(e, first)
  {
    first :| first in rows;
    var todo := rows - {first};
    while todo != {}
      invariant todo <= rows && first in rows
      invariant forall e :: e in rows && e !in todo ==> !before(e, first)
      decreases |todo|
    {
      var next :| next in todo;
      ghost var was := first;
      if before(next, first) {
        first := next;
        forall e | e in rows && e !in todo
          ensures !before(e, next)
        {
          assert before(e, next) ==> before(e, was) || before(was, next);
        }
      }
      todo := todo - {next};
    }
  }

  method EarliestFirst(wanted: set<string>, before: (string, string) -> bool, n: nat) returns (page: seq<string>)
    requires WeakOrder(wanted, before)
    ensures FirstRows(wanted, before, n, page)
  {
    page := [];
    var left := wanted;
    while left != {} && |page| < n
      invariant left <= wanted && |page| <= n
      invariant forall e :: e in wanted <==> e in left || e in page
      invariant forall e :: e in page ==> e !in left
      invariant forall i, j :: 0 <= i < j < |page| ==> page[i] != page[j] && !before(page[j], page[i])
      invariant forall e, i :: e in left && 0 <= i < |page| ==> !before(e, page[i])
      decreases |left|
    {
      var first := Earliest(left, before);
      page := page + [first];
      left := left - {first};
    }
  }
}
