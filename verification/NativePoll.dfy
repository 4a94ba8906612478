// Native operation polling: batches of operations, the same callback and cursor.
module NativePoll {
  import opened Optional
  import opened Text
  import opened Delivery
  import opened EventStream
  import opened EventClient

  const PARTIAL_FULL_SYNC: Bytes := [112, 97, 114, 116, 105, 97, 108, 70, 117, 108, 108, 83, 121, 110, 99]   // "partialFullSync"
  const TALK_EXCEPTION: Bytes := [116, 97, 108, 107, 69, 120, 99, 101, 112, 116, 105, 111, 110]              // "talkException"

  const MAX_FAILURES := 5

  // What one turn of the loop meets.
  datatype Response =
    | Halted                                // nothing may be sent any more
    | Idle                                  // 204, the poll timed out quietly
    | Cancelled                             // the request was interrupted
    | Refused(exception: Option<Bytes>)     // 400
    | Resync(data: Bytes)                   // a full sync
    | Batch(operations: seq<Bytes>, partial: Option<Bytes>, patchFails: bool, more: bool)
    | Unusable

  function BatchEvents(operations: seq<Bytes>, partial: Option<Bytes>): (events: seq<Event>)
    ensures forall e | e in events :: e.kind == MESSAGE || e.kind == PARTIAL_FULL_SYNC
  {
    seq(|operations|, i requires 0 <= i < |operations| => Event(MESSAGE, operations[i])) +
    (if partial.Some? then [Event(PARTIAL_FULL_SYNC, partial.value)] else [])
  }

  function ResponseEvents(r: Response): seq<Event> {
    match r
    case Refused(Some(data)) => [Event(TALK_EXCEPTION, data)]
    case Resync(data) => [Event(FULL_SYNC, data)]
    case Batch(operations, partial, _, _) => BatchEvents(operations, partial)
    case _ => []
  }

  // The client, the current streak of failures, the seconds slept after each
  // turn that sleeps, and whether the loop has ended.
  datatype Poller = Poller(client: Client, failures: nat, sleeps: seq<nat>, ended: bool)

  // A poll's delivery leaves no mark but the cursor; failure only stops its batch.
  function Settled(c: Client): Client {
    c.(failed := false, stop := false, reconnect := false)
  }

  function Backoff(failures: nat): nat {
    if failures == 1 then 2 else if failures == 2 then 4 else if failures == 3 then 8 else if failures == 4 then 16 else 30
  }

  function Turned(p: Poller, c: Client, ok: bool, more: bool): Poller {
    var failures := if ok then 0 else p.failures + 1;
    if failures >= MAX_FAILURES then Poller(c, failures, p.sleeps, true)
    else Poller(c, failures, p.sleeps + [if !ok then Backoff(failures) else if more then 0 else 1], false)
  }

  function Poll(h: Host, p: Poller, r: Response): Poller {
    var d := Deliver(h, p.client, ResponseEvents(r));
    match r
    case Halted => p.(ended := true)
    case Idle => p.(failures := 0)
    case Cancelled => p
    case Refused(_) => p.(client := Settled(d), ended := true)
    case Resync(_) => p.(client := Settled(d), ended := true)
    case Batch(_, _, patchFails, more) => Turned(p, Settled(d), Running(d) && !patchFails, more)
    case Unusable => Turned(p, p.client, false, false)
  }

  function Polls(h: Host, p: Poller, responses: seq<Response>): Poller
    decreases |responses|
  {
    if responses == [] || p.ended then p else Polls(h, Poll(h, p, responses[0]), responses[1..])
  }

  // native_dispatch
  method NativeDispatch(h: Host, client: EventReceiver, e: Event) returns (ok: bool)
    requires Running(client.View()) && e.kind != RECONNECT
    modifies client
    ensures client.View() == Settled(Offer(h, old(client.View()), e))
    ensures ok <==> !Offer(h, old(client.View()), e).failed
  {
    var accepted := client.Dispatch(h, e);
    ok := !client.failed;
    client.failed, client.stop := false, false;
  }

  method DispatchBatch(h: Host, client: EventReceiver, events: seq<Event>) returns (ok: bool)
    requires Running(client.View())
    requires forall e | e in events :: e.kind == MESSAGE || e.kind == PARTIAL_FULL_SYNC
    modifies client
    ensures client.View() == Settled(Deliver(h, old(client.View()), events))
    ensures ok <==> Running(Deliver(h, old(client.View()), events))
  {
    hide Offer, Deliver;
    ghost var start := client.View();
    assert events[..0] == [];
    DeliverNothing(h, start);
    ok := true;
    var i := 0;
    while i < |events| && ok
      invariant 0 <= i <= |events|
      invariant client.View() == Settled(Deliver(h, start, events[..i]))
      invariant ok <==> Running(Deliver(h, start, events[..i]))
    {
      OfferStops(h, client.View(), events[i]);
      DeliverOneMore(h, start, events[..i], events[i]);
      assert events[..i] + [events[i]] == events[..i + 1];
      ok := NativeDispatch(h, client, events[i]);
      i := i + 1;
    }
    if !ok {
      DeliverStuck(h, start, events, i);
    } else {
      assert events[..i] == events;
    }
  }

  lemma DeliverNothing(h: Host, c: Client)
    ensures Deliver(h, c, []) == c
  {
  }

  lemma OfferStops(h: Host, c: Client, e: Event)
    requires Running(c) && e.kind != FULL_SYNC && e.kind != RECONNECT
    ensures Running(Offer(h, c, e)) <==> !Offer(h, c, e).failed
  {
  }

  lemma {:induction false} DeliverStuck(h: Host, c: Client, events: seq<Event>, n: nat)
    requires n <= |events| && !Running(Deliver(h, c, events[..n]))
    ensures Deliver(h, c, events) == Deliver(h, c, events[..n])
    decreases |events|
  {
    if n == |events| {
      assert events[..n] == events;
    } else {
      var first := events[..|events| - 1];
      assert first[..n] == events[..n];
      DeliverStuck(h, c, first, n);
    }
  }

  // One turn of the loop in enil_native_poll.
  method Turn(h: Host, client: EventReceiver, streak: nat, slept: seq<nat>, r: Response)
    returns (failures: nat, sleeps: seq<nat>, ended: bool)
    requires Running(client.View())
    modifies client
    ensures Poller(client.View(), failures, sleeps, ended) == Poll(h, Poller(old(client.View()), streak, slept, false), r)
    ensures Running(client.View())
  {
    hide Deliver, Offer, BatchEvents;
    failures, sleeps, ended := streak, slept, false;
    var ok, delay := true, 1;
    match r {
      case Halted => return failures, sleeps, true;
      case Idle => return 0, sleeps, false;
      case Cancelled => return;
      case Refused(exception) =>
        if exception.Some? {
          SingleEvent(h, client.View(), Event(TALK_EXCEPTION, exception.value));
          var _ := NativeDispatch(h, client, Event(TALK_EXCEPTION, exception.value));
        } else {
          DeliverNothing(h, client.View());
        }
        return failures, sleeps, true;
      case Resync(data) =>
        SingleEvent(h, client.View(), Event(FULL_SYNC, data));
        var _ := NativeDispatch(h, client, Event(FULL_SYNC, data));
        return failures, sleeps, true;
      case Batch(operations, partial, patchFails, more) =>
        ok := DispatchBatch(h, client, BatchEvents(operations, partial));
        if ok && patchFails {
          ok := false;
        }
        if more {
          delay := 0;
        }
      case Unusable => ok := false;
    }
    if ok {
      failures := 0;
    } else {
      failures := failures + 1;
      delay := Backoff(failures);
    }
    if failures >= MAX_FAILURES {
      ended := true;
    } else {
      sleeps := sleeps + [delay];
    }
  }

  method RunPolls(h: Host, client: EventReceiver, responses: seq<Response>) returns (failures: nat, sleeps: seq<nat>, ended: bool)
    requires Running(client.View())
    modifies client
    ensures Poller(client.View(), failures, sleeps, ended) == Polls(h, Poller(old(client.View()), 0, [], false), responses)
  {
    hide Poll;
    failures, sleeps, ended := 0, [], false;
    ghost var start := Poller(client.View(), 0, [], false);
    var i := 0;
    while i < |responses| && !ended
      invariant 0 <= i <= |responses| && Running(client.View())
      invariant Polls(h, start, responses) == Polls(h, Poller(client.View(), failures, sleeps, ended), responses[i..])
    {
      assert responses[i..][1..] == responses[i + 1..];
      failures, sleeps, ended := Turn(h, client, failures, sleeps, responses[i]);
      i := i + 1;
    }
  }

  lemma SingleEvent(h: Host, c: Client, e: Event)
    requires Running(c)
    ensures Deliver(h, c, [e]) == Offer(h, c, e)
  {
    assert [e][..0] == [];
  }

  // ---- The cursor ----

  ghost predicate FaithfulPolls(h: Host, log: iset<nat>, p: Poller, responses: seq<Response>)
    decreases |responses|
  {
    responses == [] || p.ended ||
    (Faithful(h, log, p.client.cursor, ResponseEvents(responses[0])) && FaithfulPolls(h, log, Poll(h, p, responses[0]), responses[1..]))
  }

  // Across failed batches, retries and idle polls the cursor passes only
  // operations that were handled, and never goes back.
  lemma {:induction false} PollsCover(h: Host, log: iset<nat>, base: int, p: Poller, responses: seq<Response>)
    requires Running(p.client) && p.client.stored == p.client.cursor && Covered(h, log, base, p.client)
    requires FaithfulPolls(h, log, p, responses)
    ensures var d := Polls(h, p, responses).client;
      d.stored == d.cursor >= p.client.cursor && Covered(h, log, base, d)
    decreases |responses|
  {
    hide Faithful, Deliver, ResponseEvents;
    if responses != [] && !p.ended {
      DeliverCovers(h, log, base, p.client, ResponseEvents(responses[0]));
      var q := Poll(h, p, responses[0]);
      assert Covered(h, log, base, q.client);
      PollsCover(h, log, base, q, responses[1..]);
    }
  }

  // A full sync ends polling and leaves the cursor where it was, whether or not
  // the account accepted it.
  lemma ResyncKeepsCursor(h: Host, p: Poller, data: Bytes, later: seq<Response>)
    requires Running(p.client) && !p.ended
    ensures var q := Polls(h, p, [Resync(data)] + later);
      q.ended && q.client.cursor == p.client.cursor && q.client.stored == p.client.stored
  {
    SingleEvent(h, p.client, Event(FULL_SYNC, data));
    assert ([Resync(data)] + later)[1..] == later;
  }

  // How the offer of an event fails: the callback refuses it, or its revision is
  // new and cannot be saved.
  predicate FailsAt(h: Host, c: Client, e: Event) {
    var a := h.answer(|c.offered|);
    !a.handled || (h.revision(e) > c.cursor && !a.saved)
  }

  lemma {:induction false} CursorStaysBelow(h: Host, c: Client, events: seq<Event>, rev: nat)
    requires c.cursor < rev && forall e | e in events :: h.revision(e) < rev
    ensures Deliver(h, c, events).cursor < rev
  {
    if events != [] {
      CursorStaysBelow(h, c, events[..|events| - 1], rev);
    }
  }

  // Delivery ends at an event that fails.
  lemma DeliveryEndsAt(h: Host, c: Client, events: seq<Event>, n: nat)
    requires Running(c) && n < |events| && Running(Deliver(h, c, events[..n])) && FailsAt(h, Deliver(h, c, events[..n]), events[n])
    requires events[n].kind != FULL_SYNC
    ensures
      var before, end := Deliver(h, c, events[..n]), Deliver(h, c, events);
      && !Running(end) && end.cursor == before.cursor && end.stored == before.stored
      && end.offered == c.offered + events[..n + 1]
      && end.handled == c.handled + (if h.answer(|before.offered|).handled then events[..n + 1] else events[..n])
  {
    var first := events[..n];
    assert events[..n + 1] == first + [events[n]];
    DeliverOneMore(h, c, first, events[n]);
    var k := OfferedInOrder(h, c, first);
    assert first[..k] == first;
    hide Deliver;
    DeliverStuck(h, c, events, n + 1);
  }

  // A server that is faithful above a revision below rev has rev in what it sends,
  // if it gets as far.
  lemma ReachedIsSent(h: Host, log: iset<nat>, above: int, events: seq<Event>, rev: nat)
    requires Faithful(h, log, above, events) && rev in log && above < rev
    requires exists i :: 0 <= i < |events| && Counts(h, events[i]) >= rev
    ensures Has(h, events, rev)
  {
    var i :| 0 <= i < |events| && Counts(h, events[i]) >= rev;
    assert Has(h, events[..i + 1], rev);
    var j :| 0 <= j < i + 1 && Counts(h, events[..i + 1][j]) == rev;
    assert events[j] == events[..i + 1][j];
  }

  // A batch in ascending order that fails at its n-th event is given up there with
  // the cursor below that event,
  lemma FailedOperationIsAskedAgain(h: Host, p: Poller, r: Response, n: nat)
    requires Running(p.client) && r.Batch? && n < |ResponseEvents(r)|
    requires var e := ResponseEvents(r)[n];
      && p.client.cursor < h.revision(e) && (forall i | 0 <= i < n :: h.revision(ResponseEvents(r)[i]) < h.revision(e))
      && Running(Deliver(h, p.client, ResponseEvents(r)[..n])) && FailsAt(h, Deliver(h, p.client, ResponseEvents(r)[..n]), e)
    ensures
      var events, q := ResponseEvents(r), Poll(h, p, r);
      var before := Deliver(h, p.client, events[..n]);
      && q.client.cursor == before.cursor < Counts(h, events[n]) && q.client.stored == before.stored
      && q.client.offered == p.client.offered + events[..n + 1]
      && q.client.handled == p.client.handled + (if h.answer(|before.offered|).handled then events[..n + 1] else events[..n])
      && q.failures == p.failures + 1 && (q.ended <==> q.failures >= MAX_FAILURES)
  {
    var all := ResponseEvents(r);
    assert all[n] in all;
    hide Deliver, ResponseEvents, FailsAt;
    CursorStaysBelow(h, p.client, all[..n], h.revision(all[n]));
    DeliveryEndsAt(h, p.client, all, n);
  }

  // and every later poll that answers from that cursor and gets as far has the
  // event's revision in it again.
  lemma FailedOperationIsSentAgain(h: Host, log: iset<nat>, p: Poller, r: Response, n: nat, again: Response)
    requires Running(p.client) && r.Batch? && n < |ResponseEvents(r)|
    requires var e := ResponseEvents(r)[n];
      && p.client.cursor < h.revision(e) && (forall i | 0 <= i < n :: h.revision(ResponseEvents(r)[i]) < h.revision(e))
      && Running(Deliver(h, p.client, ResponseEvents(r)[..n])) && FailsAt(h, Deliver(h, p.client, ResponseEvents(r)[..n]), e)
    requires Faithful(h, log, Poll(h, p, r).client.cursor, ResponseEvents(again))
    requires var rev := Counts(h, ResponseEvents(r)[n]);
      rev in log && exists i :: 0 <= i < |ResponseEvents(again)| && Counts(h, ResponseEvents(again)[i]) >= rev
    ensures Has(h, ResponseEvents(again), Counts(h, ResponseEvents(r)[n]))
  {
    FailedOperationIsAskedAgain(h, p, r, n);
    ReachedIsSent(h, log, Poll(h, p, r).client.cursor, ResponseEvents(again), Counts(h, ResponseEvents(r)[n]));
  }

  // ---- Giving up ----

  // A turn that failed: an unusable reply, or a batch not taken to its end.
  predicate Fails(h: Host, p: Poller, r: Response) {
    r.Unusable? || (r.Batch? && (!Running(Deliver(h, p.client, ResponseEvents(r))) || r.patchFails))
  }

  ghost predicate AllFail(h: Host, p: Poller, responses: seq<Response>)
    decreases |responses|
  {
    responses == [] || (Fails(h, p, responses[0]) && AllFail(h, Poll(h, p, responses[0]), responses[1..]))
  }

  // Failures in a row are waited out longer and longer; the fifth ends the loop.
  lemma {:induction false} FifthFailureEnds(h: Host, p: Poller, responses: seq<Response>)
    requires !p.ended && AllFail(h, p, responses) && p.failures + |responses| <= MAX_FAILURES
    ensures var q := Polls(h, p, responses);
      q.failures == p.failures + |responses| && (q.ended <==> responses != [] && q.failures == MAX_FAILURES)
    decreases |responses|
  {
    hide Deliver, ResponseEvents;
    if |responses| == 1 {
      assert responses[1..] == [];
    } else if responses != [] {
      FifthFailureEnds(h, Poll(h, p, responses[0]), responses[1..]);
    }
  }
}
