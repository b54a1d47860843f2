// What every history of the thread store keeps.
module ThreadInvariants {

  import opened Wrappers
  import opened PyText
  import opened ThreadModel

  ghost predicate Keyed(db: Db)
  {
    && (forall id :: id in db.threads ==> db.threads[id].threadId == id)
    && (forall id :: id in db.threads && db.threads[id].parentId.Some? ==> db.threads[id].parentId.value in db.threads)
    && (forall id :: id in db.events ==> db.events[id].eventId == id && db.events[id].threadId in db.threads)
  }

  ghost predicate HasSequence(db: Db, threadId: string, n: nat)
  {
    exists id :: id in db.events && db.events[id].threadId == threadId && db.events[id].sequenceNo == n
  }

  ghost predicate NumbersInRange(db: Db)
  {
    forall id ::
      id in db.events && db.events[id].threadId in db.threads ==>
        1 <= db.events[id].sequenceNo <= db.threads[db.events[id].threadId].lastSequenceNo
  }

  ghost predicate NumbersDistinct(db: Db)
  {
    forall id, other ::
      id in db.events && other in db.events && id != other && db.events[id].threadId == db.events[other].threadId ==>
        db.events[id].sequenceNo != db.events[other].sequenceNo
  }

  // The event numbers of every thread are exactly 1 .. last_sequence_no, each used once.
  ghost predicate Numbered(db: Db)
  {
    && NumbersInRange(db)
    && NumbersDistinct(db)
    && forall t, n: nat :: t in db.threads && 1 <= n <= db.threads[t].lastSequenceNo ==> HasSequence(db, t, n)
  }

  // The same agents, in whichever order, under the same parent.
  predicate SamePlace(a: Thread, b: Thread)
  {
    a.parentId == b.parentId && {a.participantA, a.participantB} == {b.participantA, b.participantB}
  }

  // At most one open thread per parent (or at the root) and unordered pair.
  ghost predicate OneOpenPerPair(db: Db)
  {
    forall id, other ::
      (&& id in db.threads && other in db.threads
       && IsOpen(db.threads[id]) && IsOpen(db.threads[other])
       && SamePlace(db.threads[id], db.threads[other])) ==> id == other
  }

  // The columns hold the pair in normal order, which the unique indexes rely on.
  predicate NormalPair(t: Thread)
  {
    NormalizeParticipants(t.participantA, t.participantB) == (t.participantA, t.participantB)
  }

  ghost predicate PairsNormal(db: Db)
  {
    forall id :: id in db.threads ==> NormalPair(db.threads[id])
  }

  lemma NewPairIsNormal(first: string, second: string)
    ensures var p := NormalizeParticipants(first, second); NormalizeParticipants(p.0, p.1) == p
  {
    TextLessTotal(Strip(first), Strip(second));
  }

  // In normal order a pair has one pair of columns.
  lemma NormalPairsAgree(a: Thread, b: Thread)
    requires NormalPair(a) && NormalPair(b) && {a.participantA, a.participantB} == {b.participantA, b.participantB}
    ensures a.participantA == b.participantA && a.participantB == b.participantB
  {
    assert a.participantA in {b.participantA, b.participantB} && a.participantB in {b.participantA, b.participantB};
    assert b.participantA in {a.participantA, a.participantB} && b.participantB in {a.participantA, a.participantB};
    ParticipantsUnordered(a.participantA, a.participantB);
  }

  lemma TerminalIsNormal(status: string)
    requires status in TERMINAL_STATUSES
    ensures NormalizeStatus(status) == status
  {
    assert Trimmed(status);
    assert Lower("done") == "done";
    assert Lower("closed") == "closed";
  }

  lemma AppendKeepsNumbering(db: Db, r: AppendRequest, now: int)
    requires Keyed(db) && Numbered(db) && CanAppend(db, r)
    ensures Numbered(Apply(db, Append(r, now)))
  {
    var next := Apply(db, Append(r, now));
    AppendKeepsDistinct(db, r, now);
    forall t, n: nat | t in next.threads && 1 <= n <= next.threads[t].lastSequenceNo
      ensures HasSequence(next, t, n)
    {
      if t == r.threadId && n == next.threads[t].lastSequenceNo {
        assert next.events[r.eventId].sequenceNo == n;
      } else {
        assert HasSequence(db, t, n);
        AppendKeepsEvents(db, r, now, t, n);
      }
    }
  }

  lemma AppendKeepsEvents(db: Db, r: AppendRequest, now: int, t: string, n: nat)
    requires CanAppend(db, r) && HasSequence(db, t, n)
    ensures HasSequence(Apply(db, Append(r, now)), t, n)
  {
    var id :| id in db.events && db.events[id].threadId == t && db.events[id].sequenceNo == n;
    assert Apply(db, Append(r, now)).events[id] == db.events[id];
  }

  lemma AppendKeepsDistinct(db: Db, r: AppendRequest, now: int)
    requires Keyed(db) && NumbersInRange(db) && NumbersDistinct(db) && CanAppend(db, r)
    ensures NumbersInRange(Apply(db, Append(r, now))) && NumbersDistinct(Apply(db, Append(r, now)))
  {
  }

  // No event is moved, renumbered, gained or lost, and no counter advances.
  ghost predicate SameNumbers(db: Db, next: Db)
  {
    && next.events.Keys == db.events.Keys
    && (forall id :: id in db.events ==>
          next.events[id].threadId == db.events[id].threadId && next.events[id].sequenceNo == db.events[id].sequenceNo)
    && db.threads.Keys <= next.threads.Keys
    && (forall t :: t in next.threads ==>
          next.threads[t].lastSequenceNo == if t in db.threads then db.threads[t].lastSequenceNo else 0)
  }

  lemma OtherStepsKeepNumbers(db: Db, step: Step)
    requires !step.Append? || !CanAppend(db, step.request)
    ensures SameNumbers(db, Apply(db, step))
  {
  }

  lemma SameNumbersStayNumbered(db: Db, next: Db)
    requires Keyed(db) && Numbered(db) && SameNumbers(db, next)
    ensures Numbered(next)
  {
    forall t, n: nat | t in next.threads && 1 <= n <= next.threads[t].lastSequenceNo
      ensures HasSequence(next, t, n)
    {
      assert HasSequence(db, t, n);
      var id :| id in db.events && db.events[id].threadId == t && db.events[id].sequenceNo == n;
      assert id in next.events;
    }
  }

  lemma StepKeepsPairsNormal(db: Db, step: Step)
    requires PairsNormal(db)
    ensures PairsNormal(Apply(db, step))
  {
    if step.Create? {
      NewPairIsNormal(step.create.fromSlug, step.create.toSlug);
    }
  }

  // A thread is created only where no open thread of the pair is.
  lemma CreateKeepsOneOpen(db: Db, c: CreateRequest, now: int)
    requires PairsNormal(db) && OneOpenPerPair(db) && CanCreate(db, c)
    ensures OneOpenPerPair(Apply(db, Create(c, now)))
  {
    var t := NewThread(c, now);
    NewPairIsNormal(c.fromSlug, c.toSlug);
    forall id | id in db.threads && IsOpen(db.threads[id])
      ensures !SamePlace(db.threads[id], t)
    {
      if SamePlace(db.threads[id], t) {
        NormalPairsAgree(db.threads[id], t);
        assert OpenBetween(db.threads[id], c.parentId, NormalizeParticipants(c.fromSlug, c.toSlug));
      }
    }
  }

  // No thread changes place, and none that was closed is open.
  ghost predicate NoneReopened(db: Db, next: Db)
  {
    forall id :: id in next.threads ==>
      && id in db.threads && SamePlace(next.threads[id], db.threads[id])
      && (IsOpen(next.threads[id]) ==> IsOpen(db.threads[id]))
  }

  lemma OtherStepsReopenNone(db: Db, step: Step)
    requires !step.Create? || !CanCreate(db, step.create)
    ensures NoneReopened(db, Apply(db, step))
  {
    if step.Append? && CanAppend(db, step.request) {
      var t := db.threads[step.request.threadId];
      if !IsOpen(t) {
        TerminalIsNormal(t.status);
      }
    }
  }

  lemma StepKeepsOneOpen(db: Db, step: Step)
    requires PairsNormal(db) && OneOpenPerPair(db)
    ensures OneOpenPerPair(Apply(db, step))
  {
    if step.Create? && CanCreate(db, step.create) {
      CreateKeepsOneOpen(db, step.create, step.now);
    } else {
      OtherStepsReopenNone(db, step);
    }
  }

  lemma StepKeepsKeyed(db: Db, step: Step)
    requires Keyed(db)
    ensures Keyed(Apply(db, step))
  {
  }

  // In every reachable state the tables are keyed, event numbers have no gap
  // and no repetition, and open threads are unique per unordered pair.
  lemma {:induction false} ReachableInvariant(h: History)
    ensures Keyed(Run(h)) && Numbered(Run(h)) && PairsNormal(Run(h)) && OneOpenPerPair(Run(h))
  {
    if h != [] {
      var before, step := h[..|h| - 1], h[|h| - 1];
      ReachableInvariant(before);
      StepKeepsKeyed(Run(before), step);
      StepKeepsPairsNormal(Run(before), step);
      StepKeepsOneOpen(Run(before), step);
      if step.Append? && CanAppend(Run(before), step.request) {
        AppendKeepsNumbering(Run(before), step.request, step.now);
      } else {
        OtherStepsKeepNumbers(Run(before), step);
        SameNumbersStayNumbered(Run(before), Run(h));
      }
    }
  }

  // ---------- terminal threads ----------

  ghost function EventsOf(db: Db, threadId: string): set<string>
  {
    set id | id in db.events && db.events[id].threadId == threadId
  }

  ghost predicate SameThreadState(a: Db, b: Db, id: string)
    requires id in a.threads
  {
    && id in b.threads
    && b.threads[id].status == a.threads[id].status
    && b.threads[id].lastSequenceNo == a.threads[id].lastSequenceNo
    && b.threads[id].terminalAt == a.threads[id].terminalAt
    && EventsOf(b, id) == EventsOf(a, id)
  }

  lemma AppendElsewhere(db: Db, r: AppendRequest, now: int, id: string)
    requires id in db.threads && CanAppend(db, r) && r.threadId != id
    ensures SameThreadState(db, Apply(db, Append(r, now)), id)
  {
    var next := Apply(db, Append(r, now));
    assert forall e :: e in next.events && next.events[e].threadId == id ==> e in db.events && e != r.eventId;
  }

  lemma OtherStepFrozen(db: Db, step: Step, id: string)
    requires id in db.threads && !IsOpen(db.threads[id])
    requires !step.Append? || !CanAppend(db, step.request)
    ensures SameThreadState(db, Apply(db, step), id)
  {
    OtherStepsKeepNumbers(db, step);
    OtherStepKeepsTerminal(db, step, id);
    SameEvents(db, Apply(db, step), id);
  }

  lemma SameEvents(db: Db, next: Db, id: string)
    requires SameNumbers(db, next)
    ensures EventsOf(next, id) == EventsOf(db, id)
  {
  }

  lemma OtherStepKeepsTerminal(db: Db, step: Step, id: string)
    requires id in db.threads && !IsOpen(db.threads[id])
    requires !step.Append? || !CanAppend(db, step.request)
    ensures var next := Apply(db, step);
            && id in next.threads && next.threads[id].status == db.threads[id].status
            && next.threads[id].terminalAt == db.threads[id].terminalAt
  {
  }

  lemma TerminalStepFrozen(db: Db, step: Step, id: string)
    requires id in db.threads && !IsOpen(db.threads[id])
    ensures SameThreadState(db, Apply(db, step), id)
  {
    TerminalIsNormal(db.threads[id].status);
    if step.Append? && CanAppend(db, step.request) {
      AppendElsewhere(db, step.request, step.now, id);
    } else {
      OtherStepFrozen(db, step, id);
    }
  }

  lemma {:induction false} TerminalStaysFrozen(db: Db, more: History, id: string)
    requires id in db.threads && !IsOpen(db.threads[id])
    ensures SameThreadState(db, RunFrom(db, more), id)
  {
    if more != [] {
      var mid := RunFrom(db, more[..|more| - 1]);
      TerminalStaysFrozen(db, more[..|more| - 1], id);
      TerminalStepFrozen(mid, more[|more| - 1], id);
      SameStateTransitive(db, mid, RunFrom(db, more), id);
    }
  }

  // A done or closed thread never changes status, event count or terminal time
  // and never gains an event, whatever is attempted afterwards.
  lemma TerminalForever(h: History, more: History, id: string)
    requires id in Run(h).threads && !IsOpen(Run(h).threads[id])
    ensures SameThreadState(Run(h), Run(h + more), id)
  {
    RunSplit(h, more);
    TerminalStaysFrozen(Run(h), more, id);
  }

  lemma SameStateTransitive(a: Db, b: Db, c: Db, id: string)
    requires id in a.threads && SameThreadState(a, b, id) && SameThreadState(b, c, id)
    ensures SameThreadState(a, c, id)
  {
  }

  // ---------- cancelled deliveries ----------

  ghost predicate Quiet(db: Db, threadId: string)
  {
    forall id :: id in db.events && db.events[id].threadId == threadId ==> !db.events[id].pending
  }

  lemma StepKeepsQuiet(db: Db, step: Step, threadId: string)
    requires threadId in db.threads && !IsOpen(db.threads[threadId]) && Quiet(db, threadId)
    ensures Quiet(Apply(db, step), threadId)
  {
    TerminalIsNormal(db.threads[threadId].status);
  }

  lemma {:induction false} QuietForever(db: Db, more: History, threadId: string)
    requires threadId in db.threads && !IsOpen(db.threads[threadId]) && Quiet(db, threadId)
    ensures Quiet(RunFrom(db, more), threadId)
  {
    if more != [] {
      QuietForever(db, more[..|more| - 1], threadId);
      TerminalStaysFrozen(db, more[..|more| - 1], threadId);
      StepKeepsQuiet(RunFrom(db, more[..|more| - 1]), more[|more| - 1], threadId);
    }
  }

  // Once a terminal thread's deliveries are cancelled, none ever waits again.
  lemma CancelledForever(h: History, reason: string, more: History, threadId: string)
    requires threadId in Run(h).threads && !IsOpen(Run(h).threads[threadId])
    ensures Quiet(Run(h + [Cancel(threadId, reason)] + more), threadId)
  {
    RunExtend(h, Cancel(threadId, reason));
    RunSplit(h + [Cancel(threadId, reason)], more);
    QuietForever(Run(h + [Cancel(threadId, reason)]), more, threadId);
  }

  // ---------- get or create ----------

  // After get-or-create the pair has one open thread under that parent, and
  // only one. It has none exactly when there was none before and the insert was
  // refused: the id is taken or the parent is unknown.
  lemma GetOrCreateYieldsOne(h: History, c: CreateRequest, now: int)
    ensures var before, db := Run(h), Run(h + [Create(c, now)]);
            var pair := NormalizeParticipants(c.fromSlug, c.toSlug);
            && (HasOpenBetween(db, c.parentId, pair) <==>
                  || HasOpenBetween(before, c.parentId, pair)
                  || (c.threadId !in before.threads && (c.parentId.Some? ==> c.parentId.value in before.threads)))
            && forall id, other ::
              (&& id in db.threads && other in db.threads
               && OpenBetween(db.threads[id], c.parentId, pair)
               && OpenBetween(db.threads[other], c.parentId, pair)) ==> id == other
  {
    ReachableInvariant(h + [Create(c, now)]);
    OpenAmong(Run(h + [Create(c, now)]), c.parentId, NormalizeParticipants(c.fromSlug, c.toSlug));
    RunExtend(h, Create(c, now));
    CreateOpens(Run(h), c, now);
  }

  lemma OpenAmong(db: Db, parentId: Option<string>, pair: (string, string))
    requires OneOpenPerPair(db)
    ensures forall id, other ::
              (&& id in db.threads && other in db.threads
               && OpenBetween(db.threads[id], parentId, pair)
               && OpenBetween(db.threads[other], parentId, pair)) ==> id == other
  {
  }

  lemma CreateOpens(db: Db, c: CreateRequest, now: int)
    ensures var pair := NormalizeParticipants(c.fromSlug, c.toSlug);
            HasOpenBetween(Apply(db, Create(c, now)), c.parentId, pair) <==>
              || HasOpenBetween(db, c.parentId, pair)
              || (c.threadId !in db.threads && (c.parentId.Some? ==> c.parentId.value in db.threads))
  {
    var next := Apply(db, Create(c, now));
    if CanCreate(db, c) {
      assert "open" !in TERMINAL_STATUSES;
      assert OpenBetween(next.threads[c.threadId], c.parentId, NormalizeParticipants(c.fromSlug, c.toSlug));
    }
  }

  // Once the pair has an open thread, asking again from either side changes nothing.
  lemma GetOrCreateIdempotent(h: History, c: CreateRequest, now: int, d: CreateRequest, later: int)
    requires d.parentId == c.parentId && d.fromSlug == c.toSlug && d.toSlug == c.fromSlug
    requires HasOpenBetween(Run(h + [Create(c, now)]), c.parentId, NormalizeParticipants(c.fromSlug, c.toSlug))
    ensures Run(h + [Create(c, now)] + [Create(d, later)]) == Run(h + [Create(c, now)])
  {
    ParticipantsUnordered(c.fromSlug, c.toSlug);
    RunExtend(h + [Create(c, now)], Create(d, later));
  }
}
