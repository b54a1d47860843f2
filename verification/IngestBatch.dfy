// Batch ingest: partial success and results in input order
// (src/core/agent_log_analysis: validation_ingest.py, ingest_service.py,
// ingest_service_support.py).
module IngestBatch {

  import opened Wrappers
  import opened IngestStore

  // What validation made of one input item.
  datatype Validated = Valid(request: Request) | Invalid(code: string, message: string)

  datatype ItemResult =
    | Accepted(eventId: string, duplicate: bool)
    | Rejected(eventId: string, code: string, message: string)

  datatype Indexed<T> = Indexed(index: nat, item: T)

  const EVENT_ID_CONFLICT := "EVENT_ID_CONFLICT"

  // ---------- validation outcomes, in input order ----------

  function Events(vs: seq<Validated>): seq<Indexed<Request>>
  {
    if vs == [] then []
    else
      var n := |vs| - 1;
      Events(vs[..n]) + (if vs[n].Valid? then [Indexed(n, vs[n].request)] else [])
  }

  function Errors(vs: seq<Validated>): seq<Indexed<Validated>>
  {
    if vs == [] then []
    else
      var n := |vs| - 1;
      Errors(vs[..n]) + (if vs[n].Invalid? then [Indexed(n, vs[n])] else [])
  }

  // nameOf gives the id an error carries: "batch-index-" and the index.
  function ErrorResult(nameOf: nat -> string, e: Indexed<Validated>): ItemResult
  {
    if e.item.Invalid? then Rejected(nameOf(e.index), e.item.code, e.item.message)
    else Rejected(nameOf(e.index), "VALIDATION_ERROR", "validation failed")
  }

  function ErrorResults(nameOf: nat -> string, es: seq<Indexed<Validated>>): (r: seq<ItemResult>)
    ensures |r| == |es|
  {
    if es == [] then [] else ErrorResults(nameOf, es[..|es| - 1]) + [ErrorResult(nameOf, es[|es| - 1])]
  }

  function ValidateAll<R>(validate: R -> Validated, items: seq<R>): (vs: seq<Validated>)
    ensures |vs| == |items| && forall i :: 0 <= i < |items| ==> vs[i] == validate(items[i])
  {
    seq(|items|, i requires 0 <= i < |items| => validate(items[i]))
  }

  // validate_batch: every item lands in exactly one of the two lists.
  method ValidateBatch<R>(validate: R -> Validated, items: seq<R>)
      returns (events: seq<Indexed<Request>>, errors: seq<Indexed<Validated>>)
    ensures events == Events(ValidateAll(validate, items)) && errors == Errors(ValidateAll(validate, items))
  {
    events, errors := [], [];
    ghost var vs := ValidateAll(validate, items);
    for i := 0 to |items|
      invariant events == Events(vs[..i]) && errors == Errors(vs[..i])
    {
      assert vs[..i + 1][..i] == vs[..i];
      var v := validate(items[i]);
      match v
      case Valid(r) => events := events + [Indexed(i, r)];
      case Invalid(_, _) => errors := errors + [Indexed(i, v)];
    }
    assert vs[..|items|] == vs;
  }

  // ---------- putting results back in order ----------

  // list.insert: an index past the end appends.
  function ListInsert<T>(s: seq<T>, at: nat, x: T): seq<T>
  {
    if at >= |s| then s + [x] else s[..at] + [x] + s[at..]
  }

  function InsertAll<T>(s: seq<T>, inserts: seq<Indexed<T>>): (r: seq<T>)
    ensures |r| == |s| + |inserts|
  {
    if inserts == [] then s
    else
      var last := inserts[|inserts| - 1];
      ListInsert(InsertAll(s, inserts[..|inserts| - 1]), last.index, last.item)
  }

  // The results by input position, given the event results in order.
  function ByPosition(nameOf: nat -> string, vs: seq<Validated>, rs: seq<ItemResult>): (r: seq<ItemResult>)
    requires |rs| == |Events(vs)|
    ensures |r| == |vs|
  {
    if vs == [] then []
    else
      var n := |vs| - 1;
      if vs[n].Valid? then ByPosition(nameOf, vs[..n], rs[..|rs| - 1]) + [rs[|rs| - 1]]
      else ByPosition(nameOf, vs[..n], rs) + [ErrorResult(nameOf, Indexed(n, vs[n]))]
  }

  function WithIndexes(es: seq<Indexed<Request>>, rs: seq<ItemResult>): (r: seq<Indexed<ItemResult>>)
    requires |rs| == |es|
    ensures |r| == |es|
  {
    seq(|es|, i requires 0 <= i < |es| => Indexed(es[i].index, rs[i]))
  }

  // Items split into the two lists without loss, and the k-th event has at most
  // k events and all errors before it.
  lemma {:induction false} SplitShape(vs: seq<Validated>)
    ensures |Events(vs)| + |Errors(vs)| == |vs|
    ensures forall k :: 0 <= k < |Events(vs)| ==> Events(vs)[k].index <= |Errors(vs)| + k && Events(vs)[k].index < |vs|
  {
    if vs != [] {
      SplitShape(vs[..|vs| - 1]);
    }
  }

  // A last element stays last while insertions happen before it.
  lemma {:induction false} InsertBefore<T>(s: seq<T>, x: T, inserts: seq<Indexed<T>>)
    requires forall k :: 0 <= k < |inserts| ==> inserts[k].index <= |s| + k
    ensures InsertAll(s + [x], inserts) == InsertAll(s, inserts) + [x]
  {
    if inserts != [] {
      var n := |inserts| - 1;
      InsertBefore(s, x, inserts[..n]);
      var mid := InsertAll(s, inserts[..n]);
      var at := inserts[n].index;
      assert at <= |mid|;
      assert (mid + [x])[..at] == mid[..at] && (mid + [x])[at..] == mid[at..] + [x];
    }
  }

  // Starting from the error results and inserting each event result at its own
  // index puts every result at the position of its input.
  lemma {:induction false} OrderRestored(nameOf: nat -> string, vs: seq<Validated>, rs: seq<ItemResult>)
    requires |rs| == |Events(vs)|
    ensures InsertAll(ErrorResults(nameOf, Errors(vs)), WithIndexes(Events(vs), rs)) == ByPosition(nameOf, vs, rs)
  {
    if vs != [] {
      var n := |vs| - 1;
      SplitShape(vs[..n]);
      if vs[n].Valid? {
        OrderRestored(nameOf, vs[..n], rs[..|rs| - 1]);
        ValidLast(nameOf, vs, rs);
      } else {
        OrderRestored(nameOf, vs[..n], rs);
        InvalidLast(nameOf, vs, rs);
      }
    }
  }

  lemma ValidLast(nameOf: nat -> string, vs: seq<Validated>, rs: seq<ItemResult>)
    requires |rs| == |Events(vs)| && vs != [] && vs[|vs| - 1].Valid?
    requires |Events(vs[..|vs| - 1])| + |Errors(vs[..|vs| - 1])| == |vs| - 1
    ensures var n, k := |vs| - 1, |rs| - 1;
            InsertAll(ErrorResults(nameOf, Errors(vs)), WithIndexes(Events(vs), rs)) ==
            InsertAll(ErrorResults(nameOf, Errors(vs[..n])), WithIndexes(Events(vs[..n]), rs[..k])) + [rs[k]]
  {
    var n, k := |vs| - 1, |rs| - 1;
    var ins := WithIndexes(Events(vs), rs);
    assert ins[..k] == WithIndexes(Events(vs[..n]), rs[..k]);
    assert ins[k] == Indexed(n, rs[k]);
    assert Errors(vs) == Errors(vs[..n]);
  }

  lemma InvalidLast(nameOf: nat -> string, vs: seq<Validated>, rs: seq<ItemResult>)
    requires vs != [] && vs[|vs| - 1].Invalid?
    requires |rs| == |Events(vs[..|vs| - 1])| && Events(vs) == Events(vs[..|vs| - 1])
    ensures var n := |vs| - 1;
            InsertAll(ErrorResults(nameOf, Errors(vs)), WithIndexes(Events(vs), rs)) ==
            InsertAll(ErrorResults(nameOf, Errors(vs[..n])), WithIndexes(Events(vs[..n]), rs))
              + [ErrorResult(nameOf, Indexed(n, vs[n]))]
  {
    var n := |vs| - 1;
    var x := ErrorResult(nameOf, Indexed(n, vs[n]));
    SplitShape(vs[..n]);
    assert Errors(vs) == Errors(vs[..n]) + [Indexed(n, vs[n])];
    assert Errors(vs)[..|Errors(vs)| - 1] == Errors(vs[..n]);
    assert ErrorResults(nameOf, Errors(vs)) == ErrorResults(nameOf, Errors(vs[..n])) + [x];
    InsertBefore(ErrorResults(nameOf, Errors(vs[..n])), x, WithIndexes(Events(vs[..n]), rs));
  }

  // Position i of the answer belongs to input i: an error for an invalid item,
  // and for a valid one the result of the event of the same rank.
  lemma {:induction false} PositionBelongs(nameOf: nat -> string, vs: seq<Validated>, rs: seq<ItemResult>, i: nat)
    requires |rs| == |Events(vs)| && i < |vs|
    ensures |Events(vs[..i])| <= |rs|
    ensures vs[i].Invalid? ==> ByPosition(nameOf, vs, rs)[i] == Rejected(nameOf(i), vs[i].code, vs[i].message)
    ensures vs[i].Valid? ==>
              |Events(vs[..i])| < |rs|
              && Events(vs)[|Events(vs[..i])|] == Indexed(i, vs[i].request)
              && ByPosition(nameOf, vs, rs)[i] == rs[|Events(vs[..i])|]
  {
    var n := |vs| - 1;
    if i < n {
      assert vs[..n][..i] == vs[..i];
      PositionBelongs(nameOf, vs[..n], if vs[n].Valid? then rs[..|rs| - 1] else rs, i);
    }
  }

  // ---------- persisting a batch ----------

  function ResultOf(outcome: Outcome, eventId: string): ItemResult
  {
    match outcome
    case Inserted => Accepted(eventId, false)
    case Duplicate => Accepted(eventId, true)
    case Conflict => Rejected(eventId, EVENT_ID_CONFLICT, eventId)
    case Aborted => Rejected(eventId, "", "")
  }

  // The calls a batch makes, one per event, at the given clock.
  function CallsOf(es: seq<Indexed<Request>>, clock: nat -> int, from: nat): (r: seq<Call>)
    ensures |r| == |es|
  {
    seq(|es|, i requires 0 <= i < |es| => Call(es[i].item, clock(from + i)))
  }

  // The results of the calls, each with the index of its item.
  function ResultsOf(es: seq<Indexed<Request>>, outs: seq<Outcome>): (r: seq<Indexed<ItemResult>>)
    requires |outs| == |es|
    ensures |r| == |es|
  {
    seq(|es|, i requires 0 <= i < |es| => Indexed(es[i].index, ResultOf(outs[i], es[i].item.eventId)))
  }

  // The calls up to and including the first that is aborted.
  function RunUntilAborted(db: Db, calls: seq<Call>): Db
    decreases |calls|
  {
    if calls == [] then db
    else
      var next := AfterPersist(db, calls[0].request, calls[0].now);
      if OutcomeOf(db, calls[0].request) == Aborted then next else RunUntilAborted(next, calls[1..])
  }

  lemma {:induction false} NothingAbortedRunsAll(db: Db, calls: seq<Call>)
    requires Aborted !in Outcomes(db, calls)
    ensures RunUntilAborted(db, calls) == Run(db, calls)
    decreases |calls|
  {
    if calls != [] {
      var next := AfterPersist(db, calls[0].request, calls[0].now);
      assert Outcomes(db, calls)[0] == OutcomeOf(db, calls[0].request);
      assert Outcomes(db, calls)[1..] == Outcomes(next, calls[1..]);
      NothingAbortedRunsAll(next, calls[1..]);
    }
  }

  // How a batch that goes through answers its i-th input, a valid one: under the
  // input's own event id, accepted when the id is new, and otherwise by the
  // payload first accepted under it.
  ghost predicate Answered(before: Db, after: Db, vs: seq<Validated>, i: nat, answer: ItemResult)
    requires i < |vs| && vs[i].Valid?
  {
    var id := vs[i].request.eventId;
    && id in after.events
    && (answer == Accepted(id, false) <==>
          id !in before.events && forall j :: 0 <= j < i && vs[j].Valid? ==> vs[j].request.eventId != id)
    && (answer == Accepted(id, true) <==>
          && (id in before.events || exists j :: 0 <= j < i && vs[j].Valid? && vs[j].request.eventId == id)
          && after.events[id].payload == vs[i].request.payload)
    && (answer.Accepted? ==> answer.eventId == id)
    && (answer.Rejected? ==> answer.eventId == id && answer.code == "EVENT_ID_CONFLICT")
  }

  lemma {:induction false} RankGrows(vs: seq<Validated>, j: nat, i: nat)
    requires j <= i <= |vs|
    ensures |Events(vs[..j])| <= |Events(vs[..i])| <= |Events(vs)|
    ensures j < i && vs[j].Valid? ==> |Events(vs[..j])| < |Events(vs[..i])|
    decreases |vs| - j
  {
    if j < i {
      assert vs[..j + 1][..j] == vs[..j];
      RankGrows(vs, j + 1, i);
    } else if i < |vs| {
      assert vs[..i + 1][..i] == vs[..i];
      RankGrows(vs, i + 1, i + 1);
    } else {
      assert vs[..i] == vs;
    }
  }

  // The m-th event is the valid input of rank m.
  lemma {:induction false} EventAtRank(vs: seq<Validated>, m: nat)
    requires m < |Events(vs)|
    ensures var j := Events(vs)[m].index;
            j < |vs| && vs[j].Valid? && Events(vs)[m].item == vs[j].request && |Events(vs[..j])| == m
  {
    var n := |vs| - 1;
    if m < |Events(vs[..n])| {
      EventAtRank(vs[..n], m);
      assert vs[..n][..Events(vs)[m].index] == vs[..Events(vs)[m].index];
    }
  }

  // The events before input i are the valid inputs before it.
  lemma EventsBefore(nameOf: nat -> string, vs: seq<Validated>, rs: seq<ItemResult>, i: nat, id: string)
    requires |rs| == |Events(vs)| && i < |vs|
    ensures var k := |Events(vs[..i])|;
            && k <= |Events(vs)|
            && ((exists m :: 0 <= m < k && Events(vs)[m].item.eventId == id) <==>
                  exists j :: 0 <= j < i && vs[j].Valid? && vs[j].request.eventId == id)
  {
    var k := |Events(vs[..i])|;
    RankGrows(vs, i, i);
    forall m | 0 <= m < k && Events(vs)[m].item.eventId == id
      ensures exists j :: 0 <= j < i && vs[j].Valid? && vs[j].request.eventId == id
    {
      EventAtRank(vs, m);
      var j := Events(vs)[m].index;
      if j >= i {
        RankGrows(vs, i, j);
      }
      assert j < i;
    }
    forall j | 0 <= j < i && vs[j].Valid? && vs[j].request.eventId == id
      ensures exists m :: 0 <= m < k && Events(vs)[m].item.eventId == id
    {
      PositionBelongs(nameOf, vs, rs, j);
      RankGrows(vs, j, i);
      assert Events(vs)[|Events(vs[..j])|].item.eventId == id;
    }
  }

  // How one call of a batch that goes through is answered.
  ghost predicate AnsweredCall(before: Db, after: Db, calls: seq<Call>, k: nat, answer: ItemResult)
    requires k < |calls|
  {
    var id, payload := calls[k].request.eventId, calls[k].request.payload;
    var unseen := id !in before.events && forall j :: 0 <= j < k ==> calls[j].request.eventId != id;
    && id in after.events
    && (answer == Accepted(id, false) <==> unseen)
    && (answer == Accepted(id, true) <==> !unseen && after.events[id].payload == payload)
    && (answer.Accepted? ==> answer.eventId == id)
    && (answer.Rejected? ==> answer.eventId == id && answer.code == "EVENT_ID_CONFLICT")
  }

  lemma CallAnswer(db: Db, calls: seq<Call>, k: nat)
    requires k < |calls| && Aborted !in Outcomes(db, calls)
    ensures AnsweredCall(db, Run(db, calls), calls, k, ResultOf(Outcomes(db, calls)[k], calls[k].request.eventId))
  {
    OutcomeMeaning(db, calls, k);
    assert Outcomes(db, calls)[k] in Outcomes(db, calls);
  }

  lemma BatchAnswers(db: Db, nameOf: nat -> string, vs: seq<Validated>, clock: nat -> int, i: nat)
    requires i < |vs| && vs[i].Valid? && Aborted !in Outcomes(db, CallsOf(Events(vs), clock, 0))
    ensures var calls := CallsOf(Events(vs), clock, 0);
            Answered(db, Run(db, calls), vs, i, ByPosition(nameOf, vs, InRank(vs, Outcomes(db, calls)))[i])
  {
    var calls := CallsOf(Events(vs), clock, 0);
    var rs := InRank(vs, Outcomes(db, calls));
    var k, id := |Events(vs[..i])|, vs[i].request.eventId;
    PositionBelongs(nameOf, vs, rs, i);
    EventsBefore(nameOf, vs, rs, i, id);
    CallAnswer(db, calls, k);
    CallsBefore(vs, calls, clock, k, id);
  }

  lemma CallsBefore(vs: seq<Validated>, calls: seq<Call>, clock: nat -> int, k: nat, id: string)
    requires calls == CallsOf(Events(vs), clock, 0) && k <= |calls|
    ensures (forall m :: 0 <= m < k ==> calls[m].request.eventId != id) <==>
            !(exists m :: 0 <= m < k && Events(vs)[m].item.eventId == id)
  {
    assert forall m :: 0 <= m < k ==> calls[m].request == Events(vs)[m].item;
  }

  // persist_batch_results: head, then tail; a conflict is reported and the batch
  // goes on, a refused raw log ends it with what was stored so far.
  method PersistBatchResults(store: Store, es: seq<Indexed<Request>>, clock: nat -> int, from: nat)
      returns (results: Option<seq<Indexed<ItemResult>>>)
    modifies store
    ensures results.Some? <==> Aborted !in Outcomes(old(store.State()), CallsOf(es, clock, from))
    ensures store.State() == RunUntilAborted(old(store.State()), CallsOf(es, clock, from))
    ensures results.Some? ==> results.value == ResultsOf(es, Outcomes(old(store.State()), CallsOf(es, clock, from)))
    ensures results.Some? ==>
              && |results.value| == |es|
              && forall k :: 0 <= k < |es| ==>
                   && results.value[k].index == es[k].index
                   && AnsweredCall(old(store.State()), store.State(), CallsOf(es, clock, from), k, results.value[k].item)
    decreases |es|
  {
    if es == [] {
      return Some([]);
    }
    ghost var start := store.State();
    var outcome := store.PersistEvent(es[0].item, clock(from));
    FirstCall(es, clock, from, start);
    if outcome == Aborted {
      return None;
    }
    var rest := PersistBatchResults(store, es[1..], clock, from + 1);
    if rest.None? {
      return None;
    }
    results := Some([Indexed(es[0].index, ResultOf(outcome, es[0].item.eventId))] + rest.value);
    AllAnswered(start, es, clock, from);
  }

  lemma AllAnswered(db: Db, es: seq<Indexed<Request>>, clock: nat -> int, from: nat)
    requires Aborted !in Outcomes(db, CallsOf(es, clock, from))
    ensures var calls := CallsOf(es, clock, from);
            forall k :: 0 <= k < |es| ==>
              && ResultsOf(es, Outcomes(db, calls))[k].index == es[k].index
              && AnsweredCall(db, RunUntilAborted(db, calls), calls, k, ResultsOf(es, Outcomes(db, calls))[k].item)
  {
    var calls := CallsOf(es, clock, from);
    NothingAbortedRunsAll(db, calls);
    forall k | 0 <= k < |es|
      ensures AnsweredCall(db, Run(db, calls), calls, k, ResultsOf(es, Outcomes(db, calls))[k].item)
    {
      CallAnswer(db, calls, k);
    }
  }

  lemma FirstCall(es: seq<Indexed<Request>>, clock: nat -> int, from: nat, db: Db)
    requires es != []
    ensures var calls, tail := CallsOf(es, clock, from), CallsOf(es[1..], clock, from + 1);
            var next := AfterPersist(db, es[0].item, clock(from));
            && RunUntilAborted(db, calls) ==
               (if OutcomeOf(db, es[0].item) == Aborted then next else RunUntilAborted(next, tail))
            && Outcomes(db, calls) == [OutcomeOf(db, es[0].item)] + Outcomes(next, tail)
            && ResultsOf(es, Outcomes(db, calls)) ==
               [Indexed(es[0].index, ResultOf(OutcomeOf(db, es[0].item), es[0].item.eventId))]
               + ResultsOf(es[1..], Outcomes(next, tail))
  {
    var tail := CallsOf(es[1..], clock, from + 1);
    FirstStep(db, es[0].item, clock(from), CallsOf(es, clock, from), tail);
    FirstResult(es, OutcomeOf(db, es[0].item), Outcomes(AfterPersist(db, es[0].item, clock(from)), tail));
  }

  lemma FirstStep(db: Db, request: Request, now: int, calls: seq<Call>, tail: seq<Call>)
    requires calls != [] && calls[0] == Call(request, now) && calls[1..] == tail
    ensures Outcomes(db, calls) == [OutcomeOf(db, request)] + Outcomes(AfterPersist(db, request, now), tail)
    ensures RunUntilAborted(db, calls) ==
            if OutcomeOf(db, request) == Aborted then AfterPersist(db, request, now)
            else RunUntilAborted(AfterPersist(db, request, now), tail)
  {
  }

  lemma FirstResult(es: seq<Indexed<Request>>, first: Outcome, rest: seq<Outcome>)
    requires es != [] && |rest| == |es| - 1
    ensures ResultsOf(es, [first] + rest) ==
            [Indexed(es[0].index, ResultOf(first, es[0].item.eventId))] + ResultsOf(es[1..], rest)
  {
  }

  // _persist_batch: error results first, then every event result inserted at
  // its index. The answer has one result per input, each in its place.
  method PersistBatch(store: Store, nameOf: nat -> string, vs: seq<Validated>, clock: nat -> int)
      returns (items: Option<seq<ItemResult>>)
    modifies store
    ensures items.Some? <==> Aborted !in Outcomes(old(store.State()), CallsOf(Events(vs), clock, 0))
    ensures store.State() == RunUntilAborted(old(store.State()), CallsOf(Events(vs), clock, 0))
    ensures items.Some? ==>
              && store.State() == Run(old(store.State()), CallsOf(Events(vs), clock, 0))
              && items.value == ByPosition(nameOf, vs, InRank(vs, Outcomes(old(store.State()), CallsOf(Events(vs), clock, 0))))
              && |items.value| == |vs|
    ensures items.Some? ==>
              forall i :: 0 <= i < |vs| && vs[i].Valid? ==>
                Answered(old(store.State()), store.State(), vs, i, items.value[i])
  {
    ghost var start := store.State();
    var es := Events(vs);
    var inserts := PersistBatchResults(store, es, clock, 0);
    if inserts.None? {
      return None;
    }
    var results := ErrorResults(nameOf, Errors(vs));
    for i := 0 to |inserts.value|
      invariant results == InsertAll(ErrorResults(nameOf, Errors(vs)), inserts.value[..i])
    {
      assert inserts.value[..i + 1][..i] == inserts.value[..i];
      results := ListInsert(results, inserts.value[i].index, inserts.value[i].item);
    }
    assert inserts.value[..|inserts.value|] == inserts.value;
    ghost var outs := Outcomes(start, CallsOf(es, clock, 0));
    assert inserts.value == WithIndexes(es, InRank(vs, outs));
    OrderRestored(nameOf, vs, InRank(vs, outs));
    NothingAbortedRunsAll(start, CallsOf(es, clock, 0));
    forall i | 0 <= i < |vs| && vs[i].Valid?
      ensures Answered(start, store.State(), vs, i, results[i])
    {
      BatchAnswers(start, nameOf, vs, clock, i);
    }
    return Some(results);
  }

  // The event results in the order of the events.
  function InRank(vs: seq<Validated>, outs: seq<Outcome>): (r: seq<ItemResult>)
    requires |outs| == |Events(vs)|
    ensures |r| == |outs|
  {
    seq(|outs|, i requires 0 <= i < |outs| => ResultOf(outs[i], Events(vs)[i].item.eventId))
  }

  // ---------- sending a batch again ----------

  // How many calls of a batch are made: up to and including the first new event
  // with a raw log that names neither a stored event nor one sent up to here.
  function Reached(known: set<string>, calls: seq<Call>): (n: nat)
    ensures n <= |calls|
    decreases |calls|
  {
    if calls == [] then 0
    else
      var r := calls[0].request;
      if r.eventId !in known && !AllKnown(known + {r.eventId}, r.payload.rawLogs) then 1
      else 1 + Reached(known + {r.eventId}, calls[1..])
  }

  // No call is refused: every new event has raw logs of events known by then.
  predicate GoesThrough(known: set<string>, calls: seq<Call>)
    decreases |calls|
  {
    calls == [] ||
    var r := calls[0].request;
    && (r.eventId in known || AllKnown(known + {r.eventId}, r.payload.rawLogs))
    && GoesThrough(known + {r.eventId}, calls[1..])
  }

  // Whether a batch goes through can be told from ids alone, before sending it.
  lemma {:induction false} GoesThroughIff(db: Db, calls: seq<Call>)
    ensures Aborted !in Outcomes(db, calls) <==> GoesThrough(db.events.Keys, calls)
    decreases |calls|
  {
    if calls != [] {
      PersistGains(db, calls[0]);
      var next := AfterPersist(db, calls[0].request, calls[0].now);
      GoesThroughIff(next, calls[1..]);
      assert Outcomes(db, calls) == [OutcomeOf(db, calls[0].request)] + Outcomes(next, calls[1..]);
    }
  }

  lemma IdsOfFirst(calls: seq<Call>, k: nat)
    requires k < |calls|
    ensures IdsOf(calls[..k + 1]) == {calls[0].request.eventId} + IdsOf(calls[1..][..k])
  {
    var all, rest := calls[..k + 1], calls[1..][..k];
    forall id | id in IdsOf(all)
      ensures id in {calls[0].request.eventId} + IdsOf(rest)
    {
      var i :| 0 <= i < |all| && all[i].request.eventId == id;
      if i > 0 {
        assert rest[i - 1] == all[i];
      }
    }
    forall id | id in IdsOf(rest)
      ensures id in IdsOf(all)
    {
      var i :| 0 <= i < |rest| && rest[i].request.eventId == id;
      assert all[i + 1] == rest[i];
    }
    assert all[0] == calls[0];
  }

  // The events a batch leaves stored.
  lemma {:induction false} ReachedIsStored(db: Db, calls: seq<Call>)
    ensures RunUntilAborted(db, calls).events.Keys ==
            db.events.Keys + IdsOf(calls[..Reached(db.events.Keys, calls)])
    decreases |calls|
  {
    if calls != [] {
      PersistGains(db, calls[0]);
      IdsOfFirst(calls, Reached(db.events.Keys, calls) - 1);
      if OutcomeOf(db, calls[0].request) != Aborted {
        ReachedIsStored(AfterPersist(db, calls[0].request, calls[0].now), calls[1..]);
      }
    }
  }

  lemma RestReached(known: set<string>, calls: seq<Call>)
    requires calls != [] && IdsOf(calls) <= known + IdsOf(calls[..Reached(known, calls)])
    ensures var r, rest := calls[0].request, calls[1..];
            if r.eventId !in known && !AllKnown(known + {r.eventId}, r.payload.rawLogs)
            then IdsOf(rest) <= known + {r.eventId}
            else IdsOf(rest) <= known + {r.eventId} + IdsOf(rest[..Reached(known + {r.eventId}, rest)])
  {
    IdsOfFirst(calls, Reached(known, calls) - 1);
    IdsOfFirst(calls, |calls| - 1);
    assert calls[..|calls|] == calls && calls[1..][..|calls| - 1] == calls[1..];
    assert IdsOf(calls[1..][..0]) == {};
  }

  lemma StoredIds(db: Db, calls: seq<Call>)
    requires IdsOf(calls) <= db.events.Keys
    ensures Run(db, calls) == db
  {
    forall i | 0 <= i < |calls|
      ensures calls[i].request.eventId in db.events
    {
      assert calls[i].request.eventId in IdsOf(calls);
    }
    SettledRun(db, calls);
  }

  // What is left of a batch once all its events are stored changes nothing.
  lemma {:induction false} NothingLeftOut(db: Db, calls: seq<Call>)
    requires IdsOf(calls) <= db.events.Keys + IdsOf(calls[..Reached(db.events.Keys, calls)])
    ensures RunUntilAborted(db, calls) == Run(db, calls)
    decreases |calls|
  {
    if calls != [] {
      PersistGains(db, calls[0]);
      RestReached(db.events.Keys, calls);
      var next := AfterPersist(db, calls[0].request, calls[0].now);
      if OutcomeOf(db, calls[0].request) == Aborted {
        StoredIds(next, calls[1..]);
      } else {
        NothingLeftOut(next, calls[1..]);
      }
    }
  }

  // A batch that stores no new event had all of them stored before.
  lemma NothingStored(db: Db, calls: seq<Call>)
    requires RunUntilAborted(db, calls).events.Keys == db.events.Keys
    ensures IdsOf(calls) <= db.events.Keys
  {
    ReachedIsStored(db, calls);
    StopsAtNewEvent(db.events.Keys, calls);
  }

  lemma {:induction false} StopsAtNewEvent(known: set<string>, calls: seq<Call>)
    requires IdsOf(calls[..Reached(known, calls)]) <= known
    ensures IdsOf(calls) <= known
    decreases |calls|
  {
    if calls != [] {
      IdsOfFirst(calls, Reached(known, calls) - 1);
      IdsOfFirst(calls, |calls| - 1);
      assert calls[..|calls|] == calls && calls[1..][..|calls| - 1] == calls[1..];
      assert known + {calls[0].request.eventId} == known;
      StopsAtNewEvent(known, calls[1..]);
    }
  }

  // The calls of a batch sent again at other times.
  predicate SameRequests(calls: seq<Call>, again: seq<Call>)
  {
    |again| == |calls| && forall i :: 0 <= i < |again| ==> again[i].request == calls[i].request
  }

  lemma SameIds(calls: seq<Call>, again: seq<Call>)
    requires SameRequests(calls, again)
    ensures IdsOf(again) == IdsOf(calls)
  {
    forall id
      ensures id in IdsOf(again) <==> id in IdsOf(calls)
    {
      if id in IdsOf(again) {
        var i :| 0 <= i < |again| && again[i].request.eventId == id;
        assert calls[i].request.eventId == id;
      }
      if id in IdsOf(calls) {
        var i :| 0 <= i < |calls| && calls[i].request.eventId == id;
        assert again[i].request.eventId == id;
      }
    }
  }

  // Sending a batch again changes nothing if and only if the first send left
  // none of its events out: each was stored before or is reached.
  lemma ReplayStableIff(db: Db, calls: seq<Call>, again: seq<Call>)
    requires SameRequests(calls, again)
    ensures var after := RunUntilAborted(db, calls);
            RunUntilAborted(after, again) == after
            <==> IdsOf(calls) <= db.events.Keys + IdsOf(calls[..Reached(db.events.Keys, calls)])
  {
    var after := RunUntilAborted(db, calls);
    ReachedIsStored(db, calls);
    SameIds(calls, again);
    if IdsOf(calls) <= after.events.Keys {
      ReplayOutcomes(db, calls, again);
    }
    if RunUntilAborted(after, again) == after {
      NothingStored(after, again);
    }
  }

  // In that case the second send is answered in full: every earlier acceptance
  // is a duplicate, every conflict stays one.
  lemma ReplayOutcomes(db: Db, calls: seq<Call>, again: seq<Call>)
    requires SameRequests(calls, again)
    requires IdsOf(calls) <= db.events.Keys + IdsOf(calls[..Reached(db.events.Keys, calls)])
    ensures var after := RunUntilAborted(db, calls);
            && RunUntilAborted(after, again) == after
            && Aborted !in Outcomes(after, again)
            && forall i :: 0 <= i < |again| ==> Outcomes(after, again)[i] == Again(Outcomes(db, calls)[i])
  {
    NothingLeftOut(db, calls);
    ReplayChangesNothing(db, calls, again);
    NothingAbortedRunsAll(Run(db, calls), again);
  }

  // A batch sent again. The tables stay as they are exactly when the first send
  // left no event out; then nothing fails, accepted items come back as
  // duplicates and conflicts as conflicts. Otherwise the second send carries on
  // where the first was stopped, and goes through or not by the same rule.
  lemma BatchReplay(db: Db, vs: seq<Validated>, clock: nat -> int, later: nat -> int)
    ensures var first, again := CallsOf(Events(vs), clock, 0), CallsOf(Events(vs), later, 0);
            var after := RunUntilAborted(db, first);
            var stored := db.events.Keys + IdsOf(first[..Reached(db.events.Keys, first)]);
            && after.events.Keys == stored
            && (RunUntilAborted(after, again) == after <==> IdsOf(first) <= stored)
            && (Aborted !in Outcomes(after, again) <==> GoesThrough(stored, again))
            && (IdsOf(first) <= stored ==>
                  forall i :: 0 <= i < |again| ==>
                    var id := Events(vs)[i].item.eventId;
                    InRank(vs, Outcomes(after, again))[i] ==
                    if Outcomes(db, first)[i] == Conflict then Rejected(id, "EVENT_ID_CONFLICT", id) else Accepted(id, true))
  {
    var first, again := CallsOf(Events(vs), clock, 0), CallsOf(Events(vs), later, 0);
    ReachedIsStored(db, first);
    ReplayStableIff(db, first, again);
    GoesThroughIff(RunUntilAborted(db, first), again);
    if IdsOf(first) <= db.events.Keys + IdsOf(first[..Reached(db.events.Keys, first)]) {
      ReplayOutcomes(db, first, again);
    }
  }

  // A batch that goes through leaves no event out.
  lemma {:induction false} GoneThroughIsComplete(known: set<string>, calls: seq<Call>)
    requires GoesThrough(known, calls)
    ensures Reached(known, calls) == |calls|
    decreases |calls|
  {
    if calls != [] {
      GoneThroughIsComplete(known + {calls[0].request.eventId}, calls[1..]);
    }
  }

  // Two new events, each with a raw log of an event not known by then.
  predicate BothRefused(known: set<string>, calls: seq<Call>)
  {
    && |calls| == 2
    && var a, b := calls[0].request, calls[1].request;
       && a.eventId != b.eventId && a.eventId !in known && b.eventId !in known
       && !AllKnown(known + {a.eventId}, a.payload.rawLogs)
       && !AllKnown(known + {a.eventId} + {b.eventId}, b.payload.rawLogs)
  }

  lemma FirstIsReached(known: set<string>, calls: seq<Call>)
    requires BothRefused(known, calls)
    ensures Reached(known, calls) == 1 && IdsOf(calls[..1]) == {calls[0].request.eventId}
    ensures !GoesThrough(known, calls) && !GoesThrough(known + {calls[0].request.eventId}, calls)
    ensures calls[1].request.eventId in IdsOf(calls)
  {
    var id := calls[0].request.eventId;
    assert known + {id} + {id} == known + {id};
    assert !GoesThrough(known + {id}, calls[1..]);
    assert calls[..1][0] == calls[0];
  }

  // The first send of such a batch stores its first event only; sent again it
  // fails again, and the tables change.
  lemma StoppedBatchMovesOn(db: Db, calls: seq<Call>, again: seq<Call>)
    requires BothRefused(db.events.Keys, calls) && SameRequests(calls, again)
    ensures var after := RunUntilAborted(db, calls);
            Aborted in Outcomes(db, calls) && Aborted in Outcomes(after, again) && RunUntilAborted(after, again) != after
  {
    FirstIsReached(db.events.Keys, calls);
    FirstIsReached(db.events.Keys, again);
    GoesThroughIff(db, calls);
    ReachedIsStored(db, calls);
    GoesThroughIff(RunUntilAborted(db, calls), again);
    ReplayStableIff(db, calls, again);
  }

  // Such a batch exists: each event has a raw log of an event nobody has.
  lemma StoppedBatchExists(now: int, later: int)
    ensures var log := RawLog("x", "lost");
            var a, b := Request("e", "h", Payload(map[], [log], "b")), Request("f", "h", Payload(map[], [log], "b"));
            var calls, again := [Call(a, now), Call(b, now)], [Call(a, later), Call(b, later)];
            var after := RunUntilAborted(EMPTY_DB, calls);
            Aborted in Outcomes(after, again) && RunUntilAborted(after, again) != after
  {
    var log := RawLog("x", "lost");
    var a, b := Request("e", "h", Payload(map[], [log], "b")), Request("f", "h", Payload(map[], [log], "b"));
    assert log in a.payload.rawLogs && log in b.payload.rawLogs;
    assert BothRefused({}, [Call(a, now), Call(b, now)]);
    StoppedBatchMovesOn(EMPTY_DB, [Call(a, now), Call(b, now)], [Call(a, later), Call(b, later)]);
  }
}
