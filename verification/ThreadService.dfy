// The requests the thread service makes of its store, and what that adds to the
// store's own guarantees (service_notification_requests.py, service/flows/*.py).
module ThreadService {

  import opened Wrappers
  import opened PyText
  import opened ThreadModel
  import opened ThreadInvariants

  const NON_TERMINAL_STATUSES: set<string> := {"open", "in_progress", "review"}
  const NOTIFICATION_STATUSES: set<string> := {"in_progress", "review", "done", "closed"}
  const DELIVERED_STATUSES: set<string> := {"in_progress", "review"}

  datatype NotificationContext = NotificationContext(
    threadId: string,
    fromSlug: string,
    toSlug: string,
    status: string,
    text: string,
    requiresDelivery: bool,
    isTerminal: bool)

  // build_notification_request: the status is normalised, then it must be known
  // and the other fields must not be blank.
  function BuildNotification(fromSlug: string, toSlug: string, threadId: string, status: string, text: string):
    Result<NotificationContext, string>
  {
    var f, t, id, s, m := Strip(fromSlug), Strip(toSlug), Strip(threadId), NormalizeStatus(status), Strip(text);
    if f == "" || t == "" || id == "" then Err("participants and thread are required")
    else if s !in NOTIFICATION_STATUSES then Err("unsupported notification status")
    else if m == "" then Err("message_text is required")
    else Ok(NotificationContext(id, f, t, s, m, s in DELIVERED_STATUSES, s in TERMINAL_STATUSES))
  }

  // A context is delivered exactly when it is not terminal.
  lemma ContextFlags(fromSlug: string, toSlug: string, threadId: string, status: string, text: string)
    ensures var r := BuildNotification(fromSlug, toSlug, threadId, status, text);
            r.Ok? ==>
              && r.value.requiresDelivery == !r.value.isTerminal
              && (r.value.isTerminal <==> NormalizeStatus(status) in {"done", "closed"})
              && NotificationAppend("id", r.value).setStatus == Some(NormalizeStatus(status))
  {
  }

  function NotificationAppend(eventId: string, c: NotificationContext): AppendRequest
  {
    AppendRequest(eventId, c.threadId, "notification", Some(c.status), c.fromSlug, c.toSlug, c.text,
                  c.requiresDelivery, false, true, false, Some(c.status), c.isTerminal)
  }

  function MessageAppend(eventId: string, threadId: string, fromSlug: string, toSlug: string, text: string): AppendRequest
  {
    AppendRequest(eventId, threadId, "message", None, fromSlug, toSlug, text, true, true, true, true, Some("open"), false)
  }

  function InactivityAppend(eventId: string, threadId: string, recipient: string, text: string): AppendRequest
  {
    AppendRequest(eventId, threadId, "inactive", None, "orchestra_threads", recipient, text,
                  true, false, false, false, None, false)
  }

  // ---------- what a request leaves in the tables ----------

  lemma NotificationAcceptedIff(fromSlug: string, toSlug: string, threadId: string, status: string, text: string)
    ensures BuildNotification(fromSlug, toSlug, threadId, status, text).Ok? <==>
            && Strip(fromSlug) != "" && Strip(toSlug) != "" && Strip(threadId) != "" && Strip(text) != ""
            && Lower(Strip(status)) in {"in_progress", "review", "done", "closed"}
  {
  }

  lemma NotificationBuilt(fromSlug: string, toSlug: string, threadId: string, status: string, text: string)
    requires BuildNotification(fromSlug, toSlug, threadId, status, text).Ok?
    ensures var c := BuildNotification(fromSlug, toSlug, threadId, status, text).value;
            && c.fromSlug == Strip(fromSlug) && c.toSlug == Strip(toSlug) && c.threadId == Strip(threadId)
            && c.text == Strip(text) && c.status == Lower(Strip(status))
            && (c.requiresDelivery <==> c.status in {"in_progress", "review"})
            && (c.isTerminal <==> c.status in {"done", "closed"})
  {
  }

  // A message waits for its receiver, asks for an answer and reopens the thread.
  lemma MessageStored(db: Db, eventId: string, threadId: string, fromSlug: string, toSlug: string, text: string, now: int)
    requires CanAppend(db, MessageAppend(eventId, threadId, fromSlug, toSlug, text))
    ensures var next := Apply(db, Append(MessageAppend(eventId, threadId, fromSlug, toSlug, text), now));
            && eventId in next.events && threadId in next.threads
            && var e, t := next.events[eventId], next.threads[threadId];
               && e.kind == "message" && e.fromSlug == fromSlug && e.toSlug == toSlug && e.text == text
               && e.threadId == threadId && e.notificationStatus.None? && e.pending && e.requiresResponse
               && e.nextAttemptAt == Some(now)
               && t.status == "open" && t.lastMessageSender == Some(fromSlug) && t.lastActivityAt == Some(now)
               && t.terminalAt == db.threads[threadId].terminalAt
  {
  }

  // A notification gives the thread its status; it waits exactly when it is not
  // terminal, and the last message keeps its sender.
  lemma NotificationStored(db: Db, eventId: string, c: NotificationContext, now: int)
    requires CanAppend(db, NotificationAppend(eventId, c))
    ensures var next := Apply(db, Append(NotificationAppend(eventId, c), now));
            && eventId in next.events && c.threadId in next.threads
            && var e, t, was := next.events[eventId], next.threads[c.threadId], db.threads[c.threadId];
               && e.kind == "notification" && e.fromSlug == c.fromSlug && e.toSlug == c.toSlug && e.text == c.text
               && e.threadId == c.threadId && e.notificationStatus == Some(c.status) && !e.requiresResponse
               && e.pending == c.requiresDelivery
               && t.status == c.status && t.lastMessageSender == was.lastMessageSender && t.lastActivityAt == Some(now)
               && t.terminalAt == (if c.isTerminal && was.terminalAt.None? then Some(now) else was.terminalAt)
  {
  }

  // An inactivity notice waits for its recipient and counts as no activity.
  lemma InactivityStored(db: Db, eventId: string, threadId: string, recipient: string, text: string, now: int)
    requires CanAppend(db, InactivityAppend(eventId, threadId, recipient, text))
    ensures var next := Apply(db, Append(InactivityAppend(eventId, threadId, recipient, text), now));
            && eventId in next.events && threadId in next.threads
            && var e, t, was := next.events[eventId], next.threads[threadId], db.threads[threadId];
               && e.kind == "inactive" && e.fromSlug == "orchestra_threads" && e.toSlug == recipient && e.text == text
               && e.pending && !e.requiresResponse && e.notificationStatus.None?
               && t.status == was.status && t.lastMessageSender == was.lastMessageSender
               && t.lastActivityAt == was.lastActivityAt && t.terminalAt == was.terminalAt
  {
  }

  ghost predicate ServiceRequest(r: AppendRequest)
  {
    || r == MessageAppend(r.eventId, r.threadId, r.fromSlug, r.toSlug, r.text)
    || r == InactivityAppend(r.eventId, r.threadId, r.toSlug, r.text)
    || exists f, t, id, s, m ::
         var c := BuildNotification(f, t, id, s, m);
         c.Ok? && r == NotificationAppend(r.eventId, c.value)
  }

  // The steps the service takes: it closes descendants only with "closed".
  ghost predicate ServiceStep(step: Step)
  {
    match step
    case Append(r, _) => ServiceRequest(r)
    case SetTerminal(_, status, _) => status == "closed"
    case _ => true
  }

  ghost predicate ServiceHistory(h: History)
  {
    forall k :: 0 <= k < |h| ==> ServiceStep(h[k])
  }

  // Only known statuses are stored, and a thread carries a terminal time
  // exactly when its status is terminal.
  ghost predicate StatusSound(db: Db)
  {
    forall id :: id in db.threads ==> SoundStatus(db.threads[id])
  }

  predicate TerminalNotice(e: Event)
  {
    e.notificationStatus.Some? && e.notificationStatus.value in TERMINAL_STATUSES
  }

  // Every terminal event is stored undelivered, so none of them waits.
  ghost predicate TerminalEventsSilent(db: Db)
  {
    forall id :: id in db.events && TerminalNotice(db.events[id]) ==> !db.events[id].pending
  }

  ghost predicate WellShaped(r: AppendRequest)
  {
    && (r.setStatus.Some? ==> r.setStatus.value in NON_TERMINAL_STATUSES + TERMINAL_STATUSES)
    && (r.setTerminal <==> r.setStatus.Some? && r.setStatus.value in TERMINAL_STATUSES)
    && (r.notificationStatus.Some? && r.notificationStatus.value in TERMINAL_STATUSES ==> !r.interruptsRuntime)
  }

  lemma NotificationShape(r: AppendRequest, f: string, t: string, id: string, s: string, m: string)
    requires var c := BuildNotification(f, t, id, s, m); c.Ok? && r == NotificationAppend(r.eventId, c.value)
    ensures WellShaped(r)
  {
    ContextFlags(f, t, id, s, m);
  }

  lemma ServiceRequestShape(r: AppendRequest)
    requires ServiceRequest(r)
    ensures WellShaped(r)
  {
    if exists f, t, id, s, m ::
         var c := BuildNotification(f, t, id, s, m); c.Ok? && r == NotificationAppend(r.eventId, c.value) {
      var f, t, id, s, m :| var c := BuildNotification(f, t, id, s, m); c.Ok? && r == NotificationAppend(r.eventId, c.value);
      NotificationShape(r, f, t, id, s, m);
    }
  }

  predicate SoundStatus(t: Thread)
  {
    && t.status in NON_TERMINAL_STATUSES + TERMINAL_STATUSES
    && (t.terminalAt.Some? <==> t.status in TERMINAL_STATUSES)
  }

  lemma NewThreadSound(c: CreateRequest, now: int)
    ensures SoundStatus(NewThread(c, now))
  {
  }

  lemma TouchedThreadSound(t: Thread, r: AppendRequest, now: int)
    requires SoundStatus(t) && WellShaped(r) && NormalizeStatus(t.status) !in TERMINAL_STATUSES
    ensures SoundStatus(TouchThread(t, r, now))
  {
    if t.status in TERMINAL_STATUSES {
      TerminalIsNormal(t.status);
    }
  }

  lemma ServiceAppendSound(db: Db, r: AppendRequest, now: int)
    requires ServiceRequest(r) && StatusSound(db)
    ensures StatusSound(Apply(db, Append(r, now)))
  {
    ServiceRequestShape(r);
    if CanAppend(db, r) {
      TouchedThreadSound(db.threads[r.threadId], r, now);
    }
  }

  lemma ServiceStepSound(db: Db, step: Step)
    requires ServiceStep(step) && StatusSound(db)
    ensures StatusSound(Apply(db, step))
  {
    match step
    case Create(c, now) => NewThreadSound(c, now);
    case Append(r, now) => ServiceAppendSound(db, r, now);
    case Delivered(_, _) =>
    case Failed(_, _, _, _, _) =>
    case Cancel(_, _) =>
    case SetTerminal(_, _, _) =>
    case InactivitySent(_, _) =>
  }

  lemma ServiceStepSilent(db: Db, step: Step)
    requires ServiceStep(step) && TerminalEventsSilent(db)
    ensures TerminalEventsSilent(Apply(db, step))
  {
    if step.Append? {
      ServiceRequestShape(step.request);
    }
  }

  lemma {:induction false} ServiceKeepsStatuses(h: History)
    requires ServiceHistory(h)
    ensures StatusSound(Run(h)) && TerminalEventsSilent(Run(h))
  {
    if h != [] {
      var before, step := h[..|h| - 1], h[|h| - 1];
      ServiceKeepsStatuses(before);
      ServiceStepSound(Run(before), step);
      ServiceStepSilent(Run(before), step);
    }
  }

  lemma PlainIsNormal(status: string)
    requires status in {"open", "in_progress", "review"}
    ensures NormalizeStatus(status) == status
  {
    assert Trimmed(status);
    if status == "open" {
      assert Lower("open") == "open";
    } else if status == "in_progress" {
      assert Lower("in_progress") == "in_progress";
    } else {
      assert Lower("review") == "review";
    }
  }

  // The Python test (normalised) and the SQL test (exact) for a terminal thread
  // agree on everything the service stores.
  lemma TerminalTestsAgree(h: History, id: string)
    requires ServiceHistory(h) && id in Run(h).threads
    ensures NormalizeStatus(Run(h).threads[id].status) in TERMINAL_STATUSES <==> !IsOpen(Run(h).threads[id])
  {
    ServiceKeepsStatuses(h);
    KnownTestsAgree(Run(h).threads[id].status);
  }

  lemma KnownTestsAgree(status: string)
    requires status in NON_TERMINAL_STATUSES + TERMINAL_STATUSES
    ensures NormalizeStatus(status) in TERMINAL_STATUSES <==> status in TERMINAL_STATUSES
  {
    if status in TERMINAL_STATUSES {
      TerminalIsNormal(status);
    } else {
      PlainIsNormal(status);
    }
  }

  // A terminal notification followed by the cancel it triggers settles the
  // thread for good: its status stays, no event is added and nothing is ever
  // due on it again.
  lemma TerminalNotificationSettles(h: History, eventId: string, c: NotificationContext, now: int, reason: string, more: History)
    requires c.isTerminal && c.status in TERMINAL_STATUSES
    requires CanAppend(Run(h), NotificationAppend(eventId, c))
    ensures var closed := h + [Append(NotificationAppend(eventId, c), now)];
            && c.threadId in Run(closed).threads && Run(closed).threads[c.threadId].status == c.status
            && SameThreadState(Run(closed), Run(closed + ([Cancel(c.threadId, reason)] + more)), c.threadId)
            && Quiet(Run(closed + ([Cancel(c.threadId, reason)] + more)), c.threadId)
  {
    var closed := h + [Append(NotificationAppend(eventId, c), now)];
    RunExtend(h, Append(NotificationAppend(eventId, c), now));
    TerminalForever(closed, [Cancel(c.threadId, reason)] + more, c.threadId);
    CancelledForever(closed, reason, more, c.threadId);
    assert closed + [Cancel(c.threadId, reason)] + more == closed + ([Cancel(c.threadId, reason)] + more);
  }
}
