// Relay fan-out: bounded drop-oldest queues over one published history
// (telegram_events: relay_compat_service.py, relay_compat_lifecycle.py).
module RelayFanout {

  const QUEUE_MAX_SIZE := 100
  const RECENT_EVENT_LIMIT := 50

  // The last n items, all of them when there are fewer.
  function LastOf(s: seq<string>, n: nat): (r: seq<string>)
    ensures |r| == if |s| <= n then |s| else n
    ensures r == s[|s| - |r|..]
  {
    if |s| <= n then s else s[|s| - n..]
  }

  predicate Increasing(s: seq<int>)
  {
    forall i, j :: 0 <= i < j < |s| ==> s[i] < s[j]
  }

  // What one queue knows about the published history: it holds the latest
  // items; before those, from the item it joined at, every item was either
  // received, in order and once, or dropped after 100 later items.
  predicate Tracks(published: seq<string>, queue: seq<string>, joined: nat, received: seq<int>)
  {
    && |queue| <= 100 && |queue| <= |published|
    && queue == published[|published| - |queue|..]
    && joined <= |published| - |queue|
    && Increasing(received)
    && (forall i :: i in received ==> joined <= i < |published| - |queue|)
    && (forall i :: joined <= i < |published| - |queue| ==> i in received || i + 100 < |published|)
  }

  lemma TrackPublish(published: seq<string>, queue: seq<string>, joined: nat, received: seq<int>, item: string)
    requires Tracks(published, queue, joined, received)
    ensures var kept := if |queue| == QUEUE_MAX_SIZE then queue[1..] else queue;
            Tracks(published + [item], kept + [item], joined, received)
  {
    var kept := if |queue| == QUEUE_MAX_SIZE then queue[1..] else queue;
    assert (published + [item])[|published| + 1 - |kept + [item]|..] == kept + [item];
  }

  lemma TrackTake(published: seq<string>, queue: seq<string>, joined: nat, received: seq<int>)
    requires Tracks(published, queue, joined, received) && queue != []
    ensures queue[0] == published[|published| - |queue|]
    ensures Tracks(published, queue[1..], joined, received + [|published| - |queue|])
  {
    var r := received + [|published| - |queue|];
    forall i, j | 0 <= i < j < |r|
      ensures r[i] < r[j]
    {
      assert received == r[..|received|];
      assert r[i] in received;
    }
    assert forall i :: i in r <==> i in received || i == |published| - |queue|;
  }

  // A subscriber that is never more than 100 items behind its first one has
  // received every item up to its queue, none missing and none twice.
  lemma {:induction false} NothingLostEarly(published: seq<string>, queue: seq<string>, joined: nat, received: seq<int>)
    requires Tracks(published, queue, joined, received)
    requires |published| <= joined + 100
    ensures |received| == |published| - |queue| - joined
    ensures forall k :: 0 <= k < |received| ==> received[k] == joined + k
  {
    ConsecutiveRun(received, joined, |published| - |queue|);
  }

  // s holds exactly the numbers from lo up to hi, in order.
  ghost predicate Covers(s: seq<int>, lo: nat, hi: nat)
  {
    Increasing(s) && forall i: int :: i in s <==> lo <= i < hi
  }

  lemma InitCovers(s: seq<int>, lo: nat, hi: nat)
    requires Covers(s, lo, hi) && |s| > 0
    ensures lo < hi && s[|s| - 1] == hi - 1 && Covers(s[..|s| - 1], lo, hi - 1)
  {
    var last := s[|s| - 1];
    LastIsGreatest(s);
    assert last in s && lo <= last < hi;
    assert hi - 1 in s;
    var init := s[..|s| - 1];
    assert s == init + [last];
    forall i: int
      ensures i in init <==> lo <= i < hi - 1
    {
      assert i in s <==> i in init || i == last;
      InitSmaller(s, i);
    }
  }

  lemma {:induction false} ConsecutiveRun(s: seq<int>, lo: nat, hi: nat)
    requires lo <= hi && Covers(s, lo, hi)
    ensures |s| == hi - lo && forall k :: 0 <= k < |s| ==> s[k] == lo + k
    decreases hi - lo
  {
    if |s| > 0 {
      InitCovers(s, lo, hi);
      ConsecutiveRun(s[..|s| - 1], lo, hi - 1);
    } else {
      assert lo !in s;
    }
  }

  lemma LastIsGreatest(s: seq<int>)
    requires Increasing(s) && |s| > 0
    ensures forall x :: x in s ==> x <= s[|s| - 1]
  {
  }

  lemma InitSmaller(s: seq<int>, i: int)
    requires Increasing(s) && |s| > 0
    ensures i in s[..|s| - 1] ==> i < s[|s| - 1]
  {
  }

  class Subscriber {
    var queue: seq<string>
    ghost var joined: nat
    ghost var received: seq<int>

    // Positions in the published history of what has been received so far.
    ghost predicate Follows(published: seq<string>)
      reads this
    {
      Tracks(published, queue, joined, received)
    }

    constructor (recent: seq<string>, ghost joined: nat)
      ensures queue == recent && this.joined == joined && received == []
    {
      queue, this.joined, received := recent, joined, [];
    }

    // enqueue_payload
    method Enqueue(payload: string, ghost published: seq<string>)
      requires Follows(published)
      modifies this
      ensures Follows(published + [payload])
      ensures joined == old(joined) && received == old(received)
      ensures queue == (if |old(queue)| == QUEUE_MAX_SIZE then old(queue)[1..] else old(queue)) + [payload]
    {
      TrackPublish(published, queue, joined, received, payload);
      if |queue| == QUEUE_MAX_SIZE {
        queue := queue[1..];
      }
      queue := queue + [payload];
    }

    // One get() of the event writer.
    method Take(ghost published: seq<string>) returns (payload: string)
      requires Follows(published) && queue != []
      modifies this
      ensures Follows(published) && joined == old(joined)
      ensures received == old(received) + [|published| - |old(queue)|]
      ensures payload == published[received[|received| - 1]]
    {
      TrackTake(published, queue, joined, received);
      payload := queue[0];
      received := received + [|published| - |queue|];
      queue := queue[1..];
    }
  }

  class RelayService {
    var subscribers: set<Subscriber>
    var recent: seq<string>
    ghost var published: seq<string>

    ghost predicate Valid()
      reads this, subscribers
    {
      && recent == LastOf(published, 50)
      && forall s :: s in subscribers ==> s.Follows(published)
    }

    constructor ()
      ensures Valid() && subscribers == {} && published == []
    {
      subscribers, recent, published := {}, [], [];
      new;
      assert recent == LastOf(published, 50);
    }

    // A new subscriber starts with the last min(50, n) items.
    method Subscribe() returns (s: Subscriber)
      requires Valid()
      modifies this
      ensures Valid() && fresh(s) && subscribers == old(subscribers) + {s}
      ensures published == old(published) && recent == old(recent)
      ensures |s.queue| == (if |published| <= 50 then |published| else 50)
      ensures s.queue == published[|published| - |s.queue|..] && s.received == []
      ensures s.joined == |published| - |s.queue|
      ensures forall o :: o in old(subscribers) ==> o.queue == old(o.queue)
    {
      s := new Subscriber(recent, |published| - |recent|);
      subscribers := subscribers + {s};
    }

    method Unsubscribe(s: Subscriber)
      requires Valid()
      modifies this
      ensures Valid() && subscribers == old(subscribers) - {s}
      ensures published == old(published) && recent == old(recent)
    {
      subscribers := subscribers - {s};
    }

    // broadcast_payload: every subscriber is offered the payload once.
    method Broadcast(payload: string, ghost before: seq<string>)
      requires forall s :: s in subscribers ==> s.Follows(before)
      modifies subscribers
      ensures forall s :: s in subscribers ==> s.Follows(before + [payload]) && Offered(s, payload)
      ensures forall s :: s in subscribers ==> s.joined == old(s.joined) && s.received == old(s.received)
    {
      var waiting := subscribers;
      while waiting != {}
        invariant waiting <= subscribers
        invariant forall s :: s in waiting ==> s.Follows(before)
        invariant forall s :: s in subscribers - waiting ==> s.Follows(before + [payload]) && Offered(s, payload)
        invariant forall s :: s in subscribers ==> s.joined == old(s.joined) && s.received == old(s.received)
        decreases |waiting|
      {
        var s :| s in waiting;
        s.Enqueue(payload, before);
        waiting := waiting - {s};
      }
    }

    static predicate Offered(s: Subscriber, payload: string)
      reads s
    {
      s.queue != [] && s.queue[|s.queue| - 1] == payload
    }

    // _handle_message: remember the payload, then offer it to every subscriber.
    method Publish(payload: string)
      requires Valid()
      modifies this`recent, this`published, subscribers
      ensures Valid() && published == old(published) + [payload]
      ensures forall s :: s in subscribers ==> Offered(s, payload)
      ensures forall s :: s in subscribers ==>
                |s.queue| <= 100 && s.queue == published[|published| - |s.queue|..]
      ensures forall s :: s in subscribers ==> s.joined == old(s.joined) && s.received == old(s.received)
    {
      LastOfAppend(published, payload);
      Broadcast(payload, published);
      recent := LastOf(recent + [payload], RECENT_EVENT_LIMIT);
      published := published + [payload];
    }
  }

  // One turn of write_sse_events: the writer takes the oldest waiting item.
  method NextPayload(service: RelayService, s: Subscriber) returns (payload: string)
    requires service.Valid() && s in service.subscribers && s.queue != []
    modifies s
    ensures service.Valid()
    ensures s.received == old(s.received) + [|service.published| - |old(s.queue)|]
    ensures payload == service.published[s.received[|s.received| - 1]]
  {
    payload := s.Take(service.published);
  }

  // deque(maxlen=50).append
  lemma LastOfAppend(published: seq<string>, payload: string)
    ensures LastOf(LastOf(published, RECENT_EVENT_LIMIT) + [payload], RECENT_EVENT_LIMIT)
            == LastOf(published + [payload], RECENT_EVENT_LIMIT)
  {
  }
}
