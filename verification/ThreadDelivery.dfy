// Delivery of interrupting events, explained by what happened to them
// (src/core/orchestra_thread/store_delivery.py).
module ThreadDelivery {

  import opened Wrappers
  import opened ThreadModel

  // ---------- the history of one event ----------

  // Step i is the append that stored event e.
  ghost predicate Born(h: History, e: string, i: int)
  {
    0 <= i < |h| && h[i].Append? && h[i].request.eventId == e && CanAppend(Run(h[..i]), h[i].request)
  }

  // A step that ends the delivery of event e of the given thread.
  predicate Stops(step: Step, e: string, threadId: string)
  {
    || (step.Delivered? && step.eventId == e)
    || (step.Cancel? && step.threadId == threadId)
  }

  // The failed attempts of event e, oldest first.
  function Failures(h: History, e: string): History
  {
    if h == [] then []
    else Failures(h[..|h| - 1], e) + (if h[|h| - 1].Failed? && h[|h| - 1].eventId == e then [h[|h| - 1]] else [])
  }

  lemma {:induction false} FailuresAreFailed(h: History, e: string)
    ensures forall k :: 0 <= k < |Failures(h, e)| ==> Failures(h, e)[k].Failed?
  {
    if h != [] {
      FailuresAreFailed(h[..|h| - 1], e);
    }
  }

  // When an event may be tried: at creation, or the retry delay after the last failure.
  ghost function NotBefore(h: History, e: string, i: int): int
    requires 0 <= i < |h| && h[i].Append?
  {
    var fs := Failures(h[i + 1..], e);
    FailuresAreFailed(h[i + 1..], e);
    if fs == [] then h[i].now
    else
      var last := fs[|fs| - 1];
      last.now + RetryDelay(|fs|, last.retryBase, last.retryMax)
  }

  // What the history says: appended as interrupting, neither delivered nor
  // cancelled since, thread still open, and the waiting time is over.
  ghost predicate DueByHistory(h: History, e: string, t: int)
  {
    exists i ::
      && Born(h, e, i)
      && h[i].request.interruptsRuntime
      && Unstopped(h, e, i)
      && ThreadOpen(Run(h), h[i].request.threadId)
      && NotBefore(h, e, i) <= t
  }

  predicate ThreadOpen(db: Db, threadId: string)
  {
    threadId in db.threads && IsOpen(db.threads[threadId])
  }

  // A stored row agrees with the history of its event, born at step i.
  ghost predicate RowAgrees(row: Event, h: History, e: string, i: int)
    requires 0 <= i < |h| && h[i].Append?
  {
    && row.threadId == h[i].request.threadId
    && row.createdAt == h[i].now
    && row.attempts == |Failures(h[i + 1..], e)|
    && (row.pending <==> h[i].request.interruptsRuntime && Unstopped(h, e, i))
    && (row.pending ==> Coalesce(row.nextAttemptAt, row.createdAt) == NotBefore(h, e, i))
  }

  ghost predicate Unstopped(h: History, e: string, i: int)
    requires 0 <= i < |h| && h[i].Append?
  {
    forall j :: i < j < |h| ==> !Stops(h[j], e, h[i].request.threadId)
  }

  lemma BornPrefix(h: History, e: string, i: int)
    requires 0 <= i < |h| - 1
    ensures Born(h, e, i) <==> Born(h[..|h| - 1], e, i)
  {
    assert h[..|h| - 1][..i] == h[..i];
  }

  lemma BornAgrees(h: History, e: string)
    requires Born(h, e, |h| - 1)
    ensures e in Run(h).events && RowAgrees(Run(h).events[e], h, e, |h| - 1)
  {
    assert h[|h|..] == [];
  }

  predicate IsFailureOf(step: Step, e: string)
  {
    step.Failed? && step.eventId == e
  }

  // What one step does to a stored event's delivery fields.
  predicate RowStepped(row: Event, step: Step, e: string, next: Event)
  {
    && next.threadId == row.threadId && next.createdAt == row.createdAt
    && next.attempts == row.attempts + (if IsFailureOf(step, e) then 1 else 0)
    && (next.pending <==> row.pending && !Stops(step, e, row.threadId))
    && (next.pending ==>
          Coalesce(next.nextAttemptAt, next.createdAt) ==
            if IsFailureOf(step, e) then step.now + RetryDelay(row.attempts + 1, step.retryBase, step.retryMax)
            else Coalesce(row.nextAttemptAt, row.createdAt))
  }

  lemma RowStep(db: Db, step: Step, e: string)
    requires e in db.events
    ensures e in Apply(db, step).events && RowStepped(db.events[e], step, e, Apply(db, step).events[e])
  {
  }

  lemma FailuresStep(h: History, e: string, i: int)
    requires -1 <= i < |h| - 1
    ensures var before, step := h[..|h| - 1], h[|h| - 1];
            Failures(h[i + 1..], e) == Failures(before[i + 1..], e) + (if IsFailureOf(step, e) then [step] else [])
  {
    assert h[i + 1..][..|h[i + 1..]| - 1] == h[..|h| - 1][i + 1..];
  }

  lemma StepAgrees(h: History, e: string, i: int, row: Event, next: Event)
    requires 0 <= i < |h| - 1 && h[i].Append?
    requires RowAgrees(row, h[..|h| - 1], e, i) && RowStepped(row, h[|h| - 1], e, next)
    ensures RowAgrees(next, h, e, i)
  {
    var before, step := h[..|h| - 1], h[|h| - 1];
    FailuresStep(h, e, i);
    assert Unstopped(h, e, i) <==> Unstopped(before, e, i) && !Stops(step, e, h[i].request.threadId);
  }

  lemma {:induction false} RowsAgree(h: History, e: string, i: int)
    requires Born(h, e, i)
    ensures e in Run(h).events && RowAgrees(Run(h).events[e], h, e, i)
  {
    if i == |h| - 1 {
      BornAgrees(h, e);
    } else {
      var before := h[..|h| - 1];
      BornPrefix(h, e, i);
      RowsAgree(before, e, i);
      RowStep(Run(before), h[|h| - 1], e);
      StepAgrees(h, e, i, Run(before).events[e], Run(h).events[e]);
    }
  }

  // Every stored event was born at some step.
  lemma {:induction false} StoredWasBorn(h: History, e: string) returns (i: int)
    requires e in Run(h).events
    ensures Born(h, e, i)
  {
    var before, step := h[..|h| - 1], h[|h| - 1];
    if e in Run(before).events {
      i := StoredWasBorn(before, e);
      BornPrefix(h, e, i);
    } else {
      i := |h| - 1;
    }
  }

  // The due query selects exactly the events whose history says they are due.
  lemma DueRefinesHistory(h: History, e: string, t: int)
    ensures Due(Run(h), e, t) <==> DueByHistory(h, e, t)
  {
    if Due(Run(h), e, t) {
      var i := StoredWasBorn(h, e);
      RowsAgree(h, e, i);
    }
    if DueByHistory(h, e, t) {
      var i :|
        && Born(h, e, i)
        && h[i].request.interruptsRuntime
        && Unstopped(h, e, i)
        && ThreadOpen(Run(h), h[i].request.threadId)
        && NotBefore(h, e, i) <= t;
      RowsAgree(h, e, i);
    }
  }

  lemma {:induction false} NeverPendingAgain(db: Db, more: History, e: string)
    requires e in db.events && !db.events[e].pending
    ensures e in RunFrom(db, more).events && !RunFrom(db, more).events[e].pending
  {
    if more != [] {
      NeverPendingAgain(db, more[..|more| - 1], e);
      RowStep(RunFrom(db, more[..|more| - 1]), more[|more| - 1], e);
    }
  }

  // Delivery that is off stays off.
  lemma PendingNeverReturns(h: History, more: History, e: string)
    requires e in Run(h).events && !Run(h).events[e].pending
    ensures e in Run(h + more).events && !Run(h + more).events[e].pending
  {
    RunSplit(h, more);
    NeverPendingAgain(Run(h), more, e);
  }

  // ---------- the retry delay ----------

  lemma {:induction false} Pow2Monotone(a: nat, b: nat)
    requires a <= b
    ensures 1 <= Pow2(a) <= Pow2(b)
  {
    if b > 0 {
      if a < b {
        Pow2Monotone(a, b - 1);
      } else {
        Pow2Monotone(a - 1, b - 1);
      }
    }
  }

  lemma Scale(k: int, a: nat, b: nat)
    requires k >= 0 && a <= b
    ensures k * a <= k * b
  {
  }

  // The first wait is the base, each further one twice the last, ten times over,
  // and never more than the cap; after that it stays.
  lemma RetryDelayDoubles(n: nat, retryBase: int, retryMax: int)
    requires 1 <= n && 1 <= retryBase <= retryMax
    ensures RetryDelay(1, retryBase, retryMax) == retryBase
    ensures n <= 10 ==> RetryDelay(n + 1, retryBase, retryMax) == Min(retryMax, 2 * RetryDelay(n, retryBase, retryMax))
    ensures n > 10 ==> RetryDelay(n + 1, retryBase, retryMax) == RetryDelay(n, retryBase, retryMax)
  {
    if n <= 10 {
      assert Pow2(n) == 2 * Pow2(n - 1);
      Doubled(retryBase, Pow2(n - 1));
    }
  }

  lemma Doubled(k: int, a: nat)
    ensures k * (2 * a) == 2 * (k * a)
  {
  }

  // More failures never shorten the wait; it lies between the base and the cap.
  lemma RetryDelayBounds(m: nat, n: nat, retryBase: int, retryMax: int)
    requires 1 <= m <= n && 1 <= retryBase <= retryMax
    ensures retryBase <= RetryDelay(m, retryBase, retryMax) <= RetryDelay(n, retryBase, retryMax)
    ensures RetryDelay(n, retryBase, retryMax) <= Min(retryMax, 1024 * retryBase)
    ensures n > 10 ==> RetryDelay(n, retryBase, retryMax) == Min(retryMax, 1024 * retryBase)
  {
    var x, y := Min(m - 1, MAX_RETRY_EXPONENT), Min(n - 1, MAX_RETRY_EXPONENT);
    Pow2Monotone(0, x);
    Pow2Monotone(x, y);
    Pow2Monotone(y, MAX_RETRY_EXPONENT);
    assert Pow2(10) == 1024 by {
      assert Pow2(5) == 32;
    }
    Scale(retryBase, 1, Pow2(x));
    Scale(retryBase, Pow2(x), Pow2(y));
    Scale(retryBase, Pow2(y), 1024);
  }

  // ---------- inactivity notices ----------

  ghost predicate LastNotice(h: History, x: string, j: int)
  {
    && 0 <= j < |h| && h[j].InactivitySent? && h[j].threadId == x
    && forall k :: j < k < |h| ==> !(h[k].InactivitySent? && h[k].threadId == x)
  }

  lemma NoticeStep(db: Db, step: Step, x: string)
    requires x in db.threads
    ensures x in Apply(db, step).threads
    ensures Apply(db, step).threads[x].lastInactivityAt ==
            if step.InactivitySent? && step.threadId == x then Some(step.now) else db.threads[x].lastInactivityAt
  {
  }

  lemma {:induction false} NoticeTimeKept(h: History, x: string, j: int)
    requires LastNotice(h, x, j) && x in Run(h[..j]).threads
    ensures x in Run(h).threads && Run(h).threads[x].lastInactivityAt == Some(h[j].now)
  {
    var before := h[..|h| - 1];
    if j < |h| - 1 {
      assert before[..j] == h[..j];
      NoticeTimeKept(before, x, j);
    }
    NoticeStep(Run(before), h[|h| - 1], x);
  }

  // If every notice follows a candidate listing made after the previous notice,
  // two notices on one thread are at least the timeout apart.
  lemma NoticesAreSpaced(h: History, x: string, first: int, listed: int, second: int, listedAt: int, timeout: int)
    requires 0 <= first < listed <= second < |h|
    requires LastNotice(h[..listed], x, first)
    requires h[second].InactivitySent? && h[second].threadId == x
    requires x in Run(h[..first]).threads
    requires x in Run(h[..listed]).threads && InactivityCandidate(Run(h[..listed]).threads[x], listedAt, timeout)
    requires listedAt <= h[second].now
    ensures h[second].now - h[first].now >= timeout
  {
    assert h[..listed][..first] == h[..first];
    NoticeTimeKept(h[..listed], x, first);
  }
}
