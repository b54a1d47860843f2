// Ingest of validated events: write-once rows, duplicate and conflict
// detection, raw logs (src/core/agent_log_analysis: store_ingest.py,
// store_raw_logs.py, ingest_service.py, ingest_service_support.py, schema.sql).
module IngestStore {

  import opened Wrappers

  // A raw log names an event; its other columns are kept as one value.
  datatype RawLog = RawLog(eventId: string, content: string)

  // payload_json, the part that duplicates are compared on.
  datatype Payload = Payload(labels: map<string, string>, rawLogs: seq<RawLog>, body: string)

  // header stands for the columns outside payload_json: type, time, agent, ids.
  datatype Request = Request(eventId: string, header: string, payload: Payload)

  datatype EventRow = EventRow(header: string, payload: Payload, receivedAt: int)

  datatype RawRow = RawRow(log: RawLog, receivedAt: int)

  // events by event_id; labels by (event_id, label_key); raw logs in log_id order.
  datatype Db = Db(events: map<string, EventRow>, labels: map<(string, string), string>, rawLogs: seq<RawRow>)

  const EMPTY_DB: Db := Db(map[], map[], [])

  datatype Outcome =
    | Inserted
    | Duplicate
    | Conflict    // EventConflictError
    | Aborted     // the database refused a raw log: its event_id is unknown

  // ---------- one event ----------

  function AddLabels(labels: map<(string, string), string>, eventId: string, more: map<string, string>):
    map<(string, string), string>
  {
    labels + map k | k in more :: (eventId, k) := more[k]
  }

  // Raw logs go in one by one until the foreign key refuses one.
  function KnownPrefix(known: set<string>, logs: seq<RawLog>): (r: seq<RawLog>)
    ensures r <= logs
    ensures forall l :: l in r ==> l.eventId in known
    ensures |r| < |logs| ==> logs[|r|].eventId !in known
  {
    if logs == [] || logs[0].eventId !in known then [] else [logs[0]] + KnownPrefix(known, logs[1..])
  }

  predicate AllKnown(known: set<string>, logs: seq<RawLog>)
  {
    forall l :: l in logs ==> l.eventId in known
  }

  function Stamped(logs: seq<RawLog>, now: int): (r: seq<RawRow>)
    ensures |r| == |logs|
  {
    seq(|logs|, i requires 0 <= i < |logs| => RawRow(logs[i], now))
  }

  function WithEvent(db: Db, r: Request, now: int): Db
  {
    Db(db.events[r.eventId := EventRow(r.header, r.payload, now)],
       AddLabels(db.labels, r.eventId, r.payload.labels),
       db.rawLogs)
  }

  function OutcomeOf(db: Db, r: Request): Outcome
  {
    if r.eventId in db.events then
      (if db.events[r.eventId].payload == r.payload then Duplicate else Conflict)
    else if AllKnown(db.events.Keys + {r.eventId}, r.payload.rawLogs) then Inserted
    else Aborted
  }

  function AfterPersist(db: Db, r: Request, now: int): Db
  {
    if r.eventId in db.events then db
    else
      var kept := KnownPrefix(db.events.Keys + {r.eventId}, r.payload.rawLogs);
      WithEvent(db, r, now).(rawLogs := db.rawLogs + Stamped(kept, now))
  }

  // A run of ingests, single or in batches, is a sequence of persisted requests.
  datatype Call = Call(request: Request, now: int)

  function Run(db: Db, calls: seq<Call>): Db
    decreases |calls|
  {
    if calls == [] then db
    else Run(AfterPersist(db, calls[0].request, calls[0].now), calls[1..])
  }

  // ---------- write-once ----------

  ghost predicate Keeps(before: Db, after: Db)
  {
    && (forall id :: id in before.events ==> id in after.events && after.events[id] == before.events[id])
    && (forall k :: k in before.labels && k.0 in before.events ==> k in after.labels && after.labels[k] == before.labels[k])
    && before.rawLogs <= after.rawLogs
  }

  lemma PersistKeeps(db: Db, r: Request, now: int)
    ensures Keeps(db, AfterPersist(db, r, now))
  {
  }

  function IdsOf(calls: seq<Call>): set<string>
  {
    set i | 0 <= i < |calls| :: calls[i].request.eventId
  }

  // What a call adds to the raw logs: those it keeps, if its event id is new.
  function Gain(known: set<string>, call: Call): seq<RawRow>
  {
    var id := call.request.eventId;
    if id in known then [] else Stamped(KnownPrefix(known + {id}, call.request.payload.rawLogs), call.now)
  }

  // The raw logs of a run: each call adds its own exactly when its event id was
  // neither stored before the run nor sent earlier in it.
  function Gained(known: set<string>, calls: seq<Call>): seq<RawRow>
  {
    if calls == [] then []
    else
      var n := |calls| - 1;
      Gained(known, calls[..n]) + Gain(known + IdsOf(calls[..n]), calls[n])
  }

  lemma IdsOfLast(calls: seq<Call>)
    requires calls != []
    ensures IdsOf(calls) == IdsOf(calls[..|calls| - 1]) + {calls[|calls| - 1].request.eventId}
  {
    var n := |calls| - 1;
    forall id | id in IdsOf(calls)
      ensures id in IdsOf(calls[..n]) + {calls[n].request.eventId}
    {
      var i :| 0 <= i < |calls| && calls[i].request.eventId == id;
      if i < n {
        assert calls[..n][i] == calls[i];
      }
    }
    forall id | id in IdsOf(calls[..n])
      ensures id in IdsOf(calls)
    {
      var i :| 0 <= i < n && calls[..n][i].request.eventId == id;
      assert calls[i].request.eventId == id;
    }
  }

  lemma {:induction false} RunLast(db: Db, calls: seq<Call>)
    requires calls != []
    ensures var last := calls[|calls| - 1];
            Run(db, calls) == AfterPersist(Run(db, calls[..|calls| - 1]), last.request, last.now)
    decreases |calls|
  {
    if |calls| > 1 {
      assert calls[1..][..|calls| - 2] == calls[..|calls| - 1][1..];
      RunLast(AfterPersist(db, calls[0].request, calls[0].now), calls[1..]);
    }
  }

  lemma {:induction false} RunKeeps(db: Db, calls: seq<Call>)
    ensures Keeps(db, Run(db, calls))
    decreases |calls|
  {
    if calls != [] {
      PersistKeeps(db, calls[0].request, calls[0].now);
      RunKeeps(AfterPersist(db, calls[0].request, calls[0].now), calls[1..]);
    }
  }

  lemma {:induction false} RunStores(db: Db, calls: seq<Call>)
    ensures Run(db, calls).events.Keys == db.events.Keys + IdsOf(calls)
    decreases |calls|
  {
    if calls != [] {
      var n := |calls| - 1;
      RunStores(db, calls[..n]);
      RunLast(db, calls);
      IdsOfLast(calls);
      PersistGains(Run(db, calls[..n]), calls[n]);
    }
  }

  lemma {:induction false} RunGains(db: Db, calls: seq<Call>)
    ensures Run(db, calls).rawLogs == db.rawLogs + Gained(db.events.Keys, calls)
    decreases |calls|
  {
    if calls != [] {
      var n := |calls| - 1;
      RunGains(db, calls[..n]);
      RunStores(db, calls[..n]);
      RunLast(db, calls);
      PersistGains(Run(db, calls[..n]), calls[n]);
    }
  }

  // Whatever is ingested later, a stored event, its labels and its raw logs
  // stay as the first accepted request left them, and the raw logs of a run are
  // those of its first accepted requests, each once.
  lemma WriteOnce(db: Db, calls: seq<Call>)
    ensures Keeps(db, Run(db, calls))
    ensures Run(db, calls).events.Keys == db.events.Keys + IdsOf(calls)
    ensures Run(db, calls).rawLogs == db.rawLogs + Gained(db.events.Keys, calls)
  {
    RunKeeps(db, calls);
    RunStores(db, calls);
    RunGains(db, calls);
  }

  lemma PersistGains(db: Db, call: Call)
    ensures var next := AfterPersist(db, call.request, call.now);
            && next.events.Keys == db.events.Keys + {call.request.eventId}
            && next.rawLogs == db.rawLogs + Gain(db.events.Keys, call)
  {
  }

  lemma {:induction false} KnownPrefixWhole(known: set<string>, logs: seq<RawLog>)
    ensures KnownPrefix(known, logs) == logs <==> AllKnown(known, logs)
  {
    if logs != [] && logs[0].eventId in known {
      KnownPrefixWhole(known, logs[1..]);
      assert logs == [logs[0]] + logs[1..];
      assert AllKnown(known, logs) <==> AllKnown(known, logs[1..]);
    } else if logs != [] {
      assert logs[0] in logs;
    }
  }

  // The raw logs of a first accepted event are all stored, once and in order,
  // exactly when each names a stored event or this one. Otherwise the call
  // fails after the event is in, with the logs before the offending one stored.
  lemma RawLogsStoredIff(db: Db, r: Request, now: int)
    requires r.eventId !in db.events
    ensures AfterPersist(db, r, now).rawLogs == db.rawLogs + Stamped(r.payload.rawLogs, now)
            <==> AllKnown(db.events.Keys + {r.eventId}, r.payload.rawLogs)
    ensures OutcomeOf(db, r) == Aborted ==> r.eventId in AfterPersist(db, r, now).events
  {
    var known := db.events.Keys + {r.eventId};
    var kept := KnownPrefix(known, r.payload.rawLogs);
    KnownPrefixWhole(known, r.payload.rawLogs);
    if |kept| < |r.payload.rawLogs| {
      assert |AfterPersist(db, r, now).rawLogs| < |db.rawLogs + Stamped(r.payload.rawLogs, now)|;
    }
  }

  // A raw log that names an event the store does not have.
  lemma UnknownEventLosesLogs()
    ensures var log := RawLog("other", "lost");
            var r := Request("e", "h", Payload(map[], [log], "b"));
            && OutcomeOf(EMPTY_DB, r) == Aborted
            && AfterPersist(EMPTY_DB, r, 0).rawLogs == []
            && OutcomeOf(AfterPersist(EMPTY_DB, r, 0), r) == Duplicate
  {
    var log := RawLog("other", "lost");
    var r := Request("e", "h", Payload(map[], [log], "b"));
    assert log in r.payload.rawLogs && log.eventId !in EMPTY_DB.events.Keys + {"e"};
  }

  // ---------- replay ----------

  // What a request that was persisted before gets when it comes again, at any
  // later time.
  function Again(first: Outcome): Outcome
  {
    if first == Conflict then Conflict else Duplicate
  }

  lemma ReplayOne(db: Db, r: Request, now: int, later: seq<Call>, retryAt: int)
    ensures var after := Run(AfterPersist(db, r, now), later);
            && OutcomeOf(after, r) == Again(OutcomeOf(db, r))
            && AfterPersist(after, r, retryAt) == after
  {
    WriteOnce(AfterPersist(db, r, now), later);
  }

  function Outcomes(db: Db, calls: seq<Call>): (r: seq<Outcome>)
    ensures |r| == |calls|
    decreases |calls|
  {
    if calls == [] then []
    else
      [OutcomeOf(db, calls[0].request)] + Outcomes(AfterPersist(db, calls[0].request, calls[0].now), calls[1..])
  }

  // A call met somewhere in a run, when it comes again after the whole run.
  lemma {:induction false} ReplayAt(db: Db, calls: seq<Call>, i: nat, retryAt: int)
    requires i < |calls|
    ensures var after := Run(db, calls);
            && OutcomeOf(after, calls[i].request) == Again(Outcomes(db, calls)[i])
            && AfterPersist(after, calls[i].request, retryAt) == after
    decreases |calls|
  {
    if i == 0 {
      ReplayOne(db, calls[0].request, calls[0].now, calls[1..], retryAt);
    } else {
      ReplayAt(AfterPersist(db, calls[0].request, calls[0].now), calls[1..], i - 1, retryAt);
    }
  }

  // Calls whose events are all stored change nothing and are judged one by one.
  lemma {:induction false} SettledRun(db: Db, calls: seq<Call>)
    requires forall i :: 0 <= i < |calls| ==> calls[i].request.eventId in db.events
    ensures Run(db, calls) == db
    ensures forall i :: 0 <= i < |calls| ==> Outcomes(db, calls)[i] == OutcomeOf(db, calls[i].request)
    decreases |calls|
  {
    if calls != [] {
      assert AfterPersist(db, calls[0].request, calls[0].now) == db;
      SettledRun(db, calls[1..]);
    }
  }

  // Sending everything again, at other times, changes nothing: every earlier
  // acceptance becomes a duplicate and every conflict stays a conflict.
  lemma ReplayChangesNothing(db: Db, calls: seq<Call>, again: seq<Call>)
    requires |again| == |calls| && forall i :: 0 <= i < |again| ==> again[i].request == calls[i].request
    ensures Run(Run(db, calls), again) == Run(db, calls)
    ensures forall i :: 0 <= i < |again| ==> Outcomes(Run(db, calls), again)[i] == Again(Outcomes(db, calls)[i])
  {
    var after := Run(db, calls);
    forall i | 0 <= i < |again|
      ensures again[i].request.eventId in after.events
      ensures OutcomeOf(after, again[i].request) == Again(Outcomes(db, calls)[i])
    {
      ReplayAt(db, calls, i, again[i].now);
    }
    SettledRun(after, again);
  }

  lemma StampedCons(log: RawLog, rest: seq<RawLog>, now: int)
    ensures Stamped([log] + rest, now) == [RawRow(log, now)] + Stamped(rest, now)
  {
  }

  lemma KnownFirst(known: set<string>, logs: seq<RawLog>)
    requires logs != []
    ensures AllKnown(known, logs) <==> logs[0].eventId in known && AllKnown(known, logs[1..])
    ensures logs[0].eventId !in known ==> Stamped(KnownPrefix(known, logs), 0) == []
  {
    assert logs == [logs[0]] + logs[1..];
  }

  // What the i-th call of a run is answered, told from the calls before it.
  lemma OutcomeMeaning(db: Db, calls: seq<Call>, i: nat)
    requires i < |calls|
    ensures var id, payload := calls[i].request.eventId, calls[i].request.payload;
            var outcome, after := Outcomes(db, calls)[i], Run(db, calls);
            && id in after.events
            && (outcome == Inserted || outcome == Aborted <==>
                  id !in db.events && forall j :: 0 <= j < i ==> calls[j].request.eventId != id)
            && (outcome == Duplicate <==>
                  !(outcome == Inserted || outcome == Aborted) && after.events[id].payload == payload)
  {
    var prefix := calls[..i];
    OutcomesAt(db, calls, i);
    RunKeeps(Run(db, prefix), calls[i..]);
    RunStores(db, prefix);
    RunStores(db, calls);
    var id := calls[i].request.eventId;
    if id in IdsOf(prefix) {
      var j :| 0 <= j < |prefix| && prefix[j].request.eventId == id;
      assert calls[j].request.eventId == id;
    } else {
      forall j | 0 <= j < i
        ensures calls[j].request.eventId != id
      {
        assert prefix[j].request.eventId in IdsOf(prefix);
      }
    }
    assert calls[i].request.eventId in IdsOf(calls);
  }

  lemma {:induction false} OutcomesAt(db: Db, calls: seq<Call>, i: nat)
    requires i < |calls|
    ensures Outcomes(db, calls)[i] == OutcomeOf(Run(db, calls[..i]), calls[i].request)
    ensures Run(db, calls) == Run(Run(db, calls[..i]), calls[i..])
    decreases |calls|
  {
    if i > 0 {
      var next := AfterPersist(db, calls[0].request, calls[0].now);
      assert calls[..i][1..] == calls[1..][..i - 1] && calls[1..][i - 1..] == calls[i..];
      OutcomesAt(next, calls[1..], i - 1);
    } else {
      assert calls[0..] == calls;
    }
  }

  // ---------- the store and the service ----------

  class Store {
    var events: map<string, EventRow>
    var labels: map<(string, string), string>
    var rawLogs: seq<RawRow>

    constructor ()
      ensures State() == EMPTY_DB
    {
      events, labels, rawLogs := map[], map[], [];
    }

    ghost function State(): Db
      reads this
    {
      Db(events, labels, rawLogs)
    }

    // True when inserted, false for a duplicate, an error for a conflict.
    method InsertEvent(r: Request, now: int) returns (inserted: Result<bool, Outcome>)
      modifies this
      ensures inserted == Ok(true) <==> r.eventId !in old(events)
      ensures inserted == Ok(true) ==> State() == WithEvent(old(State()), r, now)
      ensures inserted != Ok(true) ==> State() == old(State())
      ensures inserted == Ok(false) <==> old(OutcomeOf(State(), r)) == Duplicate
      ensures inserted == Err(Conflict) <==> old(OutcomeOf(State(), r)) == Conflict
      // A stored event is told apart by its payload; a new one is stored as it is,
      // with one label row per label.
      ensures r.eventId in old(events) ==>
                inserted == if old(events)[r.eventId].payload == r.payload then Ok(false) else Err(Conflict)
      ensures inserted == Ok(true) ==>
                && events == old(events)[r.eventId := EventRow(r.header, r.payload, now)]
                && (forall k :: k in r.payload.labels ==>
                      (r.eventId, k) in labels && labels[(r.eventId, k)] == r.payload.labels[k])
                && (forall key: (string, string) :: !(key.0 == r.eventId && key.1 in r.payload.labels) ==>
                      (key in labels <==> key in old(labels)) && (key in labels ==> labels[key] == old(labels)[key]))
                && rawLogs == old(rawLogs)
    {
      if r.eventId in events {
        if events[r.eventId].payload == r.payload {
          return Ok(false);
        }
        return Err(Conflict);
      }
      events := events[r.eventId := EventRow(r.header, r.payload, now)];
      labels := AddLabels(labels, r.eventId, r.payload.labels);
      return Ok(true);
    }

    // REFERENCES agent_log_events(event_id)
    method InsertRawLog(log: RawLog, now: int) returns (ok: bool)
      modifies this`rawLogs
      ensures ok <==> log.eventId in events
      ensures rawLogs == if ok then old(rawLogs) + [RawRow(log, now)] else old(rawLogs)
    {
      if log.eventId !in events {
        return false;
      }
      rawLogs := rawLogs + [RawRow(log, now)];
      return true;
    }

    // _insert_raw_log_rows: the head first, then the rest.
    method InsertRawLogs(logs: seq<RawLog>, now: int) returns (ok: bool)
      modifies this`rawLogs
      ensures ok <==> AllKnown(events.Keys, logs)
      ensures rawLogs == old(rawLogs) + Stamped(KnownPrefix(events.Keys, logs), now)
      decreases |logs|
    {
      if logs == [] {
        return true;
      }
      KnownFirst(events.Keys, logs);
      ok := InsertRawLog(logs[0], now);
      if ok {
        ok := InsertRawLogs(logs[1..], now);
        StampedCons(logs[0], KnownPrefix(events.Keys, logs[1..]), now);
      }
    }

    // _persist_event: the event, then its raw logs.
    method PersistEvent(r: Request, now: int) returns (outcome: Outcome)
      modifies this
      ensures outcome == OutcomeOf(old(State()), r)
      ensures State() == AfterPersist(old(State()), r, now)
      ensures outcome == Duplicate <==> r.eventId in old(events) && old(events)[r.eventId].payload == r.payload
      ensures outcome == Conflict <==> r.eventId in old(events) && old(events)[r.eventId].payload != r.payload
      ensures outcome == Inserted <==>
                r.eventId !in old(events) && forall l :: l in r.payload.rawLogs ==> l.eventId in events
      ensures r.eventId in events && (r.eventId in old(events) ==> State() == old(State()))
    {
      var inserted := InsertEvent(r, now);
      if inserted == Ok(false) {
        return Duplicate;
      }
      if inserted.Err? {
        return Conflict;
      }
      assert events.Keys == old(events).Keys + {r.eventId};
      var ok := InsertRawLogs(r.payload.rawLogs, now);
      return if ok then Inserted else Aborted;
    }
  }
}
