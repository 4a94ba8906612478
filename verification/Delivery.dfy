// Handing events to the account and moving the persisted cursor. The event
// stream and the native poller share these steps.
module Delivery {
  import opened Text

  datatype Event = Event(kind: Bytes, data: Bytes)

  const FULL_SYNC: Bytes := [102, 117, 108, 108, 83, 121, 110, 99]        // "fullSync"
  const RECONNECT: Bytes := [114, 101, 99, 111, 110, 110, 101, 99, 116]   // "reconnect"

  // How the n-th event offered fares: did the callback accept it with no
  // subsystem failed and no stop requested, and would saving the cursor work?
  datatype Answer = Answer(handled: bool, saved: bool)

  // revision is enil_sse_event_revision, which is never negative.
  datatype Host = Host(answer: nat -> Answer, revision: Event -> nat)

  // cursor is local_rev, stored the copy in the database. offered and handled
  // record every event given to the callback, and those it accepted.
  datatype Client = Client(cursor: int, stored: int, offered: seq<Event>, handled: seq<Event>,
                           failed: bool, stop: bool, reconnect: bool)

  predicate Running(c: Client) {
    !c.failed && !c.stop && !c.reconnect
  }

  // enil_sse_save_local_rev: the database first, then the copy in memory.
  function SaveCursor(c: Client, rev: nat, saved: bool): Client {
    if rev <= c.cursor then c
    else if !saved then c.(failed := true)
    else c.(cursor := rev, stored := rev)
  }

  // dispatch_event, and native_dispatch
  function Offer(h: Host, c: Client, e: Event): Client {
    var a, d := h.answer(|c.offered|), c.(offered := c.offered + [e]);
    if !a.handled then d.(failed := true)
    else
      var accepted := d.(handled := d.handled + [e]);
      if e.kind == FULL_SYNC then accepted.(stop := true)
      else SaveCursor(accepted, h.revision(e), a.saved).(reconnect := e.kind == RECONNECT)
  }

  // Events in order, up to and including the first after which the client stops.
  function Deliver(h: Host, c: Client, events: seq<Event>): Client {
    if events == [] then c
    else
      var d := Deliver(h, c, events[..|events| - 1]);
      if Running(d) then Offer(h, d, events[|events| - 1]) else d
  }

  lemma DeliverOneMore(h: Host, c: Client, events: seq<Event>, e: Event)
    ensures Deliver(h, c, events + [e]) ==
      if Running(Deliver(h, c, events)) then Offer(h, Deliver(h, c, events), e) else Deliver(h, c, events)
  {
    assert (events + [e])[..|events|] == events;
  }

  lemma OfferRecords(h: Host, c: Client, e: Event)
    requires Running(c)
    ensures var d := Offer(h, c, e);
      d.offered == c.offered + [e] && (Running(d) ==> d.handled == c.handled + [e])
  {
  }

  // What was offered is a prefix of the events; a client still running took all of them.
  lemma {:induction false} OfferedInOrder(h: Host, c: Client, events: seq<Event>) returns (n: nat)
    requires Running(c)
    ensures n <= |events| && Deliver(h, c, events).offered == c.offered + events[..n]
    ensures Deliver(h, c, events) == Deliver(h, c, events[..n])
    ensures Running(Deliver(h, c, events)) ==> n == |events| && Deliver(h, c, events).handled == c.handled + events
  {
    hide Offer;
    if events == [] {
      n := 0;
    } else {
      var first := events[..|events| - 1];
      n := OfferedInOrder(h, c, first);
      var d := Deliver(h, c, first);
      assert first[..n] == events[..n];
      if Running(d) {
        n := |events|;
        OfferRecords(h, d, events[|events| - 1]);
        assert events == first + [events[|events| - 1]];
        assert events[..n] == events;
      }
    }
  }

  // ---- The cursor ----

  function Counts(h: Host, e: Event): nat {
    if e.kind == FULL_SYNC then 0 else h.revision(e)
  }

  ghost predicate Has(h: Host, events: seq<Event>, rev: nat) {
    exists i :: 0 <= i < |events| && Counts(h, events[i]) == rev
  }

  // A server that was asked for everything above a revision: before it sends a
  // revision it has sent every one of the log in between.
  ghost predicate Faithful(h: Host, log: iset<nat>, above: int, events: seq<Event>) {
    forall i, x | 0 <= i < |events| && x in log && above < x <= Counts(h, events[i]) :: Has(h, events[..i + 1], x)
  }

  // Every revision of the log up to the cursor was handled.
  ghost predicate Covered(h: Host, log: iset<nat>, base: int, c: Client) {
    forall x | x in log && base < x <= c.cursor :: Has(h, c.handled, x)
  }

  lemma {:induction false} DeliverCovers(h: Host, log: iset<nat>, base: int, c: Client, events: seq<Event>)
    requires Running(c) && c.stored == c.cursor && Covered(h, log, base, c) && Faithful(h, log, c.cursor, events)
    ensures var d := Deliver(h, c, events);
      d.stored == d.cursor >= c.cursor && Covered(h, log, base, d)
  {
    if events != [] {
      var n := |events| - 1;
      var first := events[..n];
      FaithfulPrefix(h, log, c.cursor, events);
      DeliverCovers(h, log, base, c, first);
      var d := Deliver(h, c, first);
      if Running(d) {
        var k := OfferedInOrder(h, c, first);
        assert first + [events[n]] == events;
        OfferCovers(h, log, base, c, first, d, events[n]);
      }
    }
  }

  lemma FaithfulPrefix(h: Host, log: iset<nat>, above: int, events: seq<Event>)
    requires events != [] && Faithful(h, log, above, events)
    ensures Faithful(h, log, above, events[..|events| - 1])
    ensures forall x | x in log && above < x <= Counts(h, events[|events| - 1]) :: Has(h, events, x)
  {
    var first := events[..|events| - 1];
    forall i, x | 0 <= i < |first| && x in log && above < x <= Counts(h, first[i]) ensures Has(h, first[..i + 1], x) {
      assert first[..i + 1] == events[..i + 1];
    }
    assert events[..|events|] == events;
  }

  lemma OfferCovers(h: Host, log: iset<nat>, base: int, c: Client, first: seq<Event>, d: Client, e: Event)
    requires Running(d) && d.stored == d.cursor >= c.cursor && Covered(h, log, base, d) && d.handled == c.handled + first
    requires forall x | x in log && c.cursor < x <= Counts(h, e) :: Has(h, first + [e], x)
    ensures var o := Offer(h, d, e);
      o.stored == o.cursor >= d.cursor && Covered(h, log, base, o)
  {
    var o := Offer(h, d, e);
    assert o.handled == d.handled || o.handled == d.handled + [e];
    forall x | x in log && base < x <= o.cursor ensures Has(h, o.handled, x) {
      if x <= d.cursor {
        var i :| 0 <= i < |d.handled| && Counts(h, d.handled[i]) == x;
        assert o.handled[i] == d.handled[i];
      } else {
        var i :| 0 <= i < |first + [e]| && Counts(h, (first + [e])[i]) == x;
        assert o.handled[|c.handled| + i] == (first + [e])[i];
      }
    }
  }

  // ---- A whole life: connections or polls, each from the stored cursor ----

  // A new connection, poll or process: the flags are clear, the cursor is the stored one.
  function Reopened(c: Client): Client {
    c.(cursor := c.stored, failed := false, stop := false, reconnect := false)
  }

  function Live(h: Host, c: Client, chapters: seq<seq<Event>>): Client {
    if chapters == [] then c
    else Deliver(h, Reopened(Live(h, c, chapters[..|chapters| - 1])), chapters[|chapters| - 1])
  }

  ghost predicate AllFaithful(h: Host, log: iset<nat>, c: Client, chapters: seq<seq<Event>>) {
    forall n | 0 <= n < |chapters| :: Faithful(h, log, Live(h, c, chapters[..n]).stored, chapters[n])
  }

  // At least once: whatever failed, was dropped or restarted, every revision up
  // to the stored cursor was handled, and the cursor never went back.
  lemma {:induction false} NoEventIsPassed(h: Host, log: iset<nat>, base: int, c: Client, chapters: seq<seq<Event>>)
    requires c.stored == c.cursor && Covered(h, log, base, c) && AllFaithful(h, log, c, chapters)
    ensures var d := Live(h, c, chapters);
      d.stored == d.cursor >= c.cursor && Covered(h, log, base, d)
  {
    if chapters != [] {
      var n := |chapters| - 1;
      var first := chapters[..n];
      assert forall k | 0 <= k <= n :: first[..k] == chapters[..k];
      NoEventIsPassed(h, log, base, c, first);
      var d := Reopened(Live(h, c, first));
      assert Covered(h, log, base, d);
      assert Faithful(h, log, d.cursor, chapters[n]);
      DeliverCovers(h, log, base, d, chapters[n]);
    }
  }

  // A full sync moves nothing: not the cursor, nor anything after it.
  lemma FullSyncKeepsCursor(h: Host, c: Client, e: Event, later: seq<Event>)
    requires Running(c) && e.kind == FULL_SYNC
    ensures var d := Deliver(h, c, [e] + later);
      d.cursor == c.cursor && d.stored == c.stored && !Running(d) && d.offered == c.offered + [e]
  {
    if later == [] {
      assert [e] + later == [] + [e];
      DeliverOneMore(h, c, [], e);
    } else {
      FullSyncKeepsCursor(h, c, e, later[..|later| - 1]);
      assert ([e] + later)[..|later|] == [e] + later[..|later| - 1];
    }
  }
}
