// Long polling of Telegram updates across crashes (telegram_bot_listener:
// update_polling.py, update_processor_runtime.py, update_state_interactions.py,
// state_store.py). An update is its id. Writing the state file is one step.
module UpdatePolling {

  function Max(a: int, b: int): int
  {
    if a >= b then a else b
  }

  // ---------- runs with crashes ----------

  // batch is what is left of the updates fetched last; marked says that the
  // first of them has been recorded but not yet handled.
  datatype State = State(
    last: int,
    batch: seq<int>,
    marked: bool,
    processed: seq<int>,
    lost: seq<int>,
    crashes: nat)

  const START: State := State(0, [], false, [], [], 0)

  datatype Step =
    | Poll(count: nat)   // the server returns so many updates at or above the offset
    | Mark               // the next update is recorded as processed
    | Handle             // and then handled
    | Crash              // the process dies and restarts from the state file

  // Every update id the server will ever hold, ascending and positive. What has
  // not arrived yet is what the count of a poll leaves out.
  predicate Ascending(s: seq<int>)
  {
    (forall i :: 0 <= i < |s| ==> s[i] >= 1) && forall i, j :: 0 <= i < j < |s| ==> s[i] < s[j]
  }

  // The updates at or above an offset, oldest first.
  function From(queue: seq<int>, offset: int): seq<int>
  {
    if queue == [] then []
    else if queue[0] >= offset then queue
    else From(queue[1..], offset)
  }

  function NextOffset(s: State): int
  {
    s.last + 1
  }

  // A step that does not apply in a state leaves it alone.
  function Apply(queue: seq<int>, s: State, step: Step): State
  {
    match step
    case Poll(n) =>
      if s.batch != [] then s
      else
        var updates := From(queue, NextOffset(s));
        s.(batch := if n <= |updates| then updates[..n] else updates)
    case Mark =>
      if s.batch == [] || s.marked then s
      else s.(last := if s.batch[0] == 0 then s.last else Max(s.last, s.batch[0]), marked := true)
    case Handle =>
      if s.batch == [] || !s.marked then s
      else s.(processed := s.processed + [s.batch[0]], batch := s.batch[1..], marked := false)
    case Crash =>
      s.(batch := [], marked := false, crashes := s.crashes + 1,
         lost := if s.batch != [] && s.marked then s.lost + [s.batch[0]] else s.lost)
  }

  function Run(queue: seq<int>, steps: seq<Step>): State
  {
    if steps == [] then START
    else Apply(queue, Run(queue, steps[..|steps| - 1]), steps[|steps| - 1])
  }

  predicate Increasing(s: seq<int>)
  {
    forall i, j :: 0 <= i < j < |s| ==> s[i] < s[j]
  }

  // The updates already settled, or being handled, are exactly the server's
  // updates up to last; the rest of the batch follows on.
  ghost predicate Inv(queue: seq<int>, s: State)
  {
    && s.last >= 0
    && Increasing(s.processed) && Increasing(s.lost)
    && (s.marked ==> s.batch != [] && s.batch[0] == s.last)
    && (forall x :: x in s.processed ==> x in queue && x <= s.last && (s.marked ==> x < s.last))
    && (forall x :: x in s.lost ==> x in queue && x <= s.last && (s.marked ==> x < s.last))
    && (forall x :: x in s.processed ==> x !in s.lost)
    && (forall x :: x in queue && x <= s.last && (s.marked ==> x < s.last) ==> x in s.processed || x in s.lost)
    && s.batch <= From(queue, if s.marked then s.last else s.last + 1)
    && |s.lost| <= s.crashes
  }

  lemma {:induction false} FromMeaning(queue: seq<int>, offset: int)
    requires Ascending(queue)
    ensures Ascending(From(queue, offset))
    ensures forall x :: x in From(queue, offset) <==> x in queue && x >= offset
  {
    if queue != [] {
      assert queue == [queue[0]] + queue[1..];
      FromMeaning(queue[1..], offset);
      if queue[0] >= offset {
        assert forall x :: x in queue ==> x >= queue[0];
      }
    }
  }

  // Below the first update from an offset there is nothing at or above it.
  lemma {:induction false} FromNext(queue: seq<int>, offset: int)
    requires Ascending(queue) && From(queue, offset) != []
    ensures From(queue, From(queue, offset)[0]) == From(queue, offset)
    ensures From(queue, From(queue, offset)[0] + 1) == From(queue, offset)[1..]
  {
    if queue[0] >= offset {
      if |queue| > 1 {
        assert From(queue, queue[0] + 1) == From(queue[1..], queue[0] + 1);
        assert queue[1] >= queue[0] + 1;
      } else {
        assert queue[1..] == [];
      }
    } else {
      FromMeaning(queue[1..], offset);
      var next := From(queue[1..], offset);
      assert next[0] in next;
      FromNext(queue[1..], offset);
    }
  }

  lemma AppendIncreasing(s: seq<int>, x: int)
    requires Increasing(s) && forall y :: y in s ==> y < x
    ensures Increasing(s + [x])
  {
    forall i, j | 0 <= i < j < |s + [x]|
      ensures (s + [x])[i] < (s + [x])[j]
    {
      assert s[i] in s;
    }
  }

  lemma MarkKeepsInv(queue: seq<int>, s: State)
    requires Ascending(queue) && Inv(queue, s) && s.batch != [] && !s.marked
    ensures Inv(queue, Apply(queue, s, Mark))
    ensures s.batch[0] > s.last && Apply(queue, s, Mark).last == s.batch[0]
  {
    var updates := From(queue, s.last + 1);
    FromMeaning(queue, s.last + 1);
    assert updates[0] == s.batch[0] && updates[0] in updates;
    FromNext(queue, s.last + 1);
    assert forall x :: x in updates ==> x >= updates[0];
    assert forall x :: x in queue && x < s.batch[0] ==> x <= s.last;
  }

  lemma HandleKeepsInv(queue: seq<int>, s: State)
    requires Ascending(queue) && Inv(queue, s) && s.marked
    ensures Inv(queue, Apply(queue, s, Handle))
  {
    var x := s.batch[0];
    var updates := From(queue, s.last);
    FromMeaning(queue, s.last);
    assert updates[0] == x && x in updates;
    FromNext(queue, s.last);
    AppendIncreasing(s.processed, x);
    assert s.batch[1..] <= updates[1..];
    forall y | y in queue && y <= s.last
      ensures y in s.processed + [x] || y in s.lost
    {
    }
  }

  lemma CrashKeepsInv(queue: seq<int>, s: State)
    requires Ascending(queue) && Inv(queue, s)
    ensures Inv(queue, Apply(queue, s, Crash))
  {
    if s.marked {
      FromMeaning(queue, s.last);
      assert From(queue, s.last)[0] in From(queue, s.last);
      AppendIncreasing(s.lost, s.batch[0]);
    }
  }

  lemma {:induction false} RunKeepsInv(queue: seq<int>, steps: seq<Step>)
    requires Ascending(queue)
    ensures Inv(queue, Run(queue, steps))
  {
    if steps != [] {
      var before, step := steps[..|steps| - 1], steps[|steps| - 1];
      RunKeepsInv(queue, before);
      var s := Run(queue, before);
      match step
      case Poll(_) =>
      case Mark =>
        if s.batch != [] && !s.marked {
          MarkKeepsInv(queue, s);
        }
      case Handle =>
        if s.marked {
          HandleKeepsInv(queue, s);
        }
      case Crash => CrashKeepsInv(queue, s);
    }
  }

  // Whenever and however often the process crashes: updates are handled in
  // order and at most once, each crash costs at most one of them, and every
  // update up to the recorded id was handled, was lost to a crash, or is the
  // one in hand.
  lemma AtMostOnce(queue: seq<int>, steps: seq<Step>)
    requires Ascending(queue)
    ensures var s := Run(queue, steps);
            && Increasing(s.processed)
            && |s.lost| <= s.crashes
            && (forall x :: x in s.processed ==> x !in s.lost)
            && (forall x :: x in queue && x <= s.last ==> x in s.processed || x in s.lost || (s.marked && x == s.last))
            && (forall x :: x in s.processed || x in s.lost ==> x in queue && x <= s.last)
  {
    RunKeepsInv(queue, steps);
  }

  // Without a crash nothing is lost: handled means exactly once.
  lemma NoCrashNoLoss(queue: seq<int>, steps: seq<Step>)
    requires Ascending(queue) && Run(queue, steps).crashes == 0 && !Run(queue, steps).marked
    ensures forall x :: x in queue && x <= Run(queue, steps).last <==> x in Run(queue, steps).processed
  {
    RunKeepsInv(queue, steps);
  }

  // The recorded id never goes back.
  lemma {:induction false} LastNeverDecreases(queue: seq<int>, steps: seq<Step>, more: seq<Step>)
    requires Ascending(queue)
    ensures Run(queue, steps).last <= Run(queue, steps + more).last
  {
    if more == [] {
      assert steps + more == steps;
    } else {
      assert (steps + more)[..|steps + more| - 1] == steps + more[..|more| - 1];
      LastNeverDecreases(queue, steps, more[..|more| - 1]);
    }
  }

  // ---------- the listener ----------

  class StateFile {
    var written: bool
    var last: int       // last_update_id as written

    constructor ()
      ensures !written
    {
      written, last := false, 0;
    }
  }

  class StateStore {
    const file: StateFile
    var memory: int     // last_update_id of the state held in memory

    constructor (file: StateFile)
      ensures this.file == file && memory == 0
    {
      this.file := file;
      memory := 0;
    }

    // What is in memory is what is on disk, and both are where the run stands.
    ghost predicate Mirrors(s: State)
      reads this, file
    {
      file.written && file.last == memory == s.last
    }

    // start(): the state file decides; without one, the new state is written.
    method Start(ghost s: State)
      requires if file.written then file.last == s.last else memory == s.last
      modifies this, file
      ensures Mirrors(s)
    {
      if file.written {
        memory := file.last;
      } else {
        file.written, file.last := true, memory;
      }
    }

    // set_last_update_id: the maximum, persisted before returning.
    method SetLastUpdateId(updateId: int)
      modifies this, file
      ensures file.written && file.last == memory == Max(old(memory), updateId)
    {
      memory := if updateId > memory then updateId else memory;
      file.written, file.last := true, memory;
    }

    // mark_processed_update: an update without an id is not recorded. This is
    // the run's Mark.
    method MarkProcessedUpdate(updateId: int, ghost queue: seq<int>, ghost s: State)
      requires Mirrors(s) && s.batch != [] && !s.marked && updateId == s.batch[0]
      modifies this, file
      ensures Mirrors(Apply(queue, s, Mark))
    {
      if updateId != 0 {
        SetLastUpdateId(updateId);
      }
    }
  }

  // A restart after a crash at any point: the new process finds the run where
  // the file says, which is where it stood.
  method Restart(file: StateFile, ghost queue: seq<int>, ghost s: State) returns (store: StateStore)
    requires if file.written then file.last == s.last else s.last == 0
    modifies file
    ensures fresh(store) && store.file == file && store.Mirrors(Apply(queue, s, Crash))
  {
    store := new StateStore(file);
    store.Start(Apply(queue, s, Crash));
  }

  // n updates recorded and handled in turn.
  function Turns(n: nat): seq<Step>
  {
    if n == 0 then [] else Turns(n - 1) + [Mark, Handle]
  }

  lemma RunExtend(queue: seq<int>, steps: seq<Step>, step: Step)
    ensures Run(queue, steps + [step]) == Apply(queue, Run(queue, steps), step)
  {
    assert (steps + [step])[..|steps|] == steps;
  }

  lemma RunTurn(queue: seq<int>, steps: seq<Step>, n: nat)
    ensures Run(queue, steps + Turns(n + 1)) ==
            Apply(queue, Apply(queue, Run(queue, steps + Turns(n)), Mark), Handle)
  {
    RunExtend(queue, steps + Turns(n), Mark);
    RunExtend(queue, steps + Turns(n) + [Mark], Handle);
    assert steps + Turns(n) + [Mark] + [Handle] == steps + Turns(n + 1);
  }

  // process_updates: each update is recorded, then handled, in the order given;
  // the store goes through the steps of the run.
  method ProcessUpdates(store: StateStore, updates: seq<int>, ghost queue: seq<int>, ghost steps: seq<Step>)
      returns (handled: seq<int>)
    requires store.Mirrors(Run(queue, steps))
    requires Run(queue, steps).batch == updates && !Run(queue, steps).marked
    modifies store, store.file
    ensures handled == updates
    ensures var before, after := Run(queue, steps), Run(queue, steps + Turns(|updates|));
            && store.Mirrors(after) && after.batch == [] && !after.marked
            && after.processed == before.processed + updates && after.lost == before.lost
  {
    handled := [];
    assert steps + Turns(0) == steps;
    for i := 0 to |updates|
      invariant handled == updates[..i]
      invariant var s := Run(queue, steps + Turns(i));
                && store.Mirrors(s) && s.batch == updates[i..] && !s.marked
                && s.processed == Run(queue, steps).processed + updates[..i] && s.lost == Run(queue, steps).lost
    {
      RunTurn(queue, steps, i);
      store.MarkProcessedUpdate(updates[i], queue, Run(queue, steps + Turns(i)));
      handled := handled + [updates[i]];
    }
  }

  // One round of run_forever: the offset asked for, and the server's answer.
  method PollOnce(store: StateStore, updates: seq<int>, ghost queue: seq<int>, ghost steps: seq<Step>)
      returns (offset: int, handled: seq<int>)
    requires store.Mirrors(Run(queue, steps)) && Run(queue, steps).batch == [] && !Run(queue, steps).marked
    requires updates <= From(queue, store.memory + 1)
    modifies store, store.file
    ensures offset == NextOffset(Run(queue, steps)) && handled == updates
    ensures var before, after := Run(queue, steps), Run(queue, steps + [Poll(|updates|)] + Turns(|updates|));
            && store.Mirrors(after) && after.batch == [] && !after.marked
            && after.processed == before.processed + updates && after.lost == before.lost
  {
    offset := store.memory + 1;
    RunExtend(queue, steps, Poll(|updates|));
    handled := ProcessUpdates(store, updates, queue, steps + [Poll(|updates|)]);
  }
}
