// The event client itself: the stream's write callback and the native poller,
// both changing one client in place.
module EventClient {
  import opened Optional
  import opened Text
  import opened Delivery
  import opened EventStream

  class EventReceiver {
    var cursor: int
    var stored: int
    var offered: seq<Event>
    var handled: seq<Event>
    var failed: bool
    var stop: bool
    var reconnect: bool

    constructor (localRev: int)
      ensures View() == Client(localRev, localRev, [], [], false, false, false)
    {
      cursor, stored, offered, handled := localRev, localRev, [], [];
      failed, stop, reconnect := false, false, false;
    }

    function View(): Client
      reads this
    {
      Client(cursor, stored, offered, handled, failed, stop, reconnect)
    }

    // enil_sse_save_local_rev
    method SaveLocalRev(rev: nat, saved: bool) returns (ok: bool)
      modifies this`cursor, this`stored
      ensures ok <==> rev <= old(cursor) || saved
      ensures cursor == (if ok && rev > old(cursor) then rev else old(cursor))
      ensures stored == (if ok && rev > old(cursor) then rev else old(stored))
    {
      if rev <= cursor {
        return true;
      }
      if !saved {
        return false;
      }
      stored := rev;
      cursor := rev;
      ok := true;
    }

    // The callback and what follows it, for either source of events.
    method Dispatch(h: Host, e: Event) returns (accepted: bool)
      requires Running(View())
      modifies this
      ensures View() == Offer(h, old(View()), e)
      ensures accepted == h.answer(|old(offered)|).handled
    {
      var answer := h.answer(|offered|);
      offered := offered + [e];
      accepted := answer.handled;
      if !accepted {
        failed := true;
        return;
      }
      handled := handled + [e];
      if e.kind == FULL_SYNC {
        stop := true;
      } else {
        var ok := SaveLocalRev(h.revision(e), answer.saved);
        if !ok {
          failed := true;
        }
      }
      if e.kind == RECONNECT {
        reconnect := true;
      }
    }
  }

  class StreamParser {
    const client: EventReceiver
    var line: Bytes
    var kind: Bytes
    var data: Bytes
    var hasData: bool

    constructor (client: EventReceiver)
      ensures this.client == client && View() == Fresh(client.View())
    {
      this.client := client;
      line, kind, data, hasData := [], [], [], false;
    }

    function View(): Parser
      reads this, client
    {
      Parser(line, kind, data, hasData, client.View())
    }

    // append_sse on the event's data
    method Append(text: Bytes) returns (ok: bool)
      modifies this`data, client`failed
      ensures View() == AppendData(old(View()), text)
      ensures ok <==> |old(data)| + |text| <= MAX_EVENT_SIZE
    {
      ok := |data| + |text| <= MAX_EVENT_SIZE;
      if ok {
        data := data + text;
      } else {
        client.failed := true;
      }
    }

    method DispatchEvent(h: Host)
      requires Running(client.View())
      modifies this, client
      ensures View() == Dispatch(h, old(View()))
    {
      if kind == [] && !hasData {
        return;
      }
      var accepted := client.Dispatch(h, Event(if kind != [] then kind else MESSAGE, data));
      if accepted {
        kind, data, hasData := [], [], false;
      }
    }

    method TakeLine(h: Host, text: Bytes)
      requires Running(client.View())
      modifies this, client
      ensures View() == ProcessLine(h, old(View()), text)
    {
      if text == [] {
        DispatchEvent(h);
        return;
      }
      if EVENT_FIELD <= text {
        var v := FieldValue(text, EVENT_FIELD);
        if |v| >= MAX_KIND {
          client.failed := true;
          return;
        }
        kind := v;
      } else if DATA_FIELD <= text {
        if hasData {
          var separated := Append([LF]);
          if !separated {
            return;
          }
        }
        var ok := Append(FieldValue(text, DATA_FIELD));
        if ok {
          hasData := true;
        }
      }
    }

    // write_cb: everything was taken, or 0 to abort the transfer.
    method Write(h: Host, chunk: Bytes) returns (taken: nat)
      requires Running(client.View())
      modifies this, client
      ensures View() == FeedAll(h, old(View()), chunk)
      ensures taken == if Running(client.View()) then |chunk| else 0
    {
      hide ProcessLine, StripCR;
      ghost var start := View();
      var i := 0;
      while i < |chunk|
        invariant 0 <= i <= |chunk|
        invariant View() == FeedAll(h, start, chunk[..i]) && Running(client.View())
      {
        var b := chunk[i];
        assert chunk[..i + 1][..i] == chunk[..i];
        if b == LF {
          var text := StripCR(line);
          TakeLine(h, text);
          line := [];
          if !Running(client.View()) {
            AbortedFeed(h, start, chunk, i + 1);
            return 0;
          }
        } else if |line| + 1 > MAX_LINE_SIZE {
          client.failed := true;
          AbortedFeed(h, start, chunk, i + 1);
          return 0;
        } else {
          line := line + [b];
        }
        i := i + 1;
      }
      assert chunk[..i] == chunk;
      taken := |chunk|;
    }
  }

  lemma {:induction false} AbortedFeed(h: Host, p: Parser, chunk: Bytes, n: nat)
    requires n <= |chunk| && !Running(FeedAll(h, p, chunk[..n]).client)
    ensures FeedAll(h, p, chunk) == FeedAll(h, p, chunk[..n])
    decreases |chunk|
  {
    if n == |chunk| {
      assert chunk[..n] == chunk;
    } else {
      var first := chunk[..|chunk| - 1];
      assert first[..n] == chunk[..n];
      AbortedFeed(h, p, first, n);
    }
  }

  // ---- The connection loop of the stream ----

  // One turn of the loop: whether the account's subsystems were healthy, and
  // what the connection delivered before it ended.
  datatype Attempt = Attempt(healthy: bool, chunks: seq<Bytes>)

  function Connection(h: Host, c: Client, chunks: seq<Bytes>): Client {
    var d := FeedAll(h, Fresh(c.(failed := false)), Concat(chunks)).client;
    if d.stop then d else d.(reconnect := false)
  }

  // The loop goes on until a stop or a failed subsystem; each connection asks for
  // what is above the cursor the one before it left.
  function Connections(h: Host, c: Client, attempts: seq<Attempt>): Client
    decreases |attempts|
  {
    if attempts == [] || c.stop || !attempts[0].healthy then c
    else Connections(h, Connection(h, c, attempts[0].chunks), attempts[1..])
  }

  method RunStream(h: Host, client: EventReceiver, attempts: seq<Attempt>)
    requires !client.reconnect
    modifies client
    ensures client.View() == Connections(h, old(client.View()), attempts)
  {
    var i := 0;
    while i < |attempts|
      invariant 0 <= i <= |attempts| && !client.reconnect
      invariant Connections(h, old(client.View()), attempts) == Connections(h, client.View(), attempts[i..])
    {
      if client.stop || !attempts[i].healthy {
        return;
      }
      assert attempts[i..][1..] == attempts[i + 1..];
      client.failed := false;
      var parser := new StreamParser(client);
      Receive(h, parser, attempts[i].chunks);
      if client.stop {
        ConnectionsStopped(h, client.View(), attempts[i + 1..]);
        return;
      }
      client.reconnect := false;
      i := i + 1;
    }
  }

  lemma ConnectionsStopped(h: Host, c: Client, attempts: seq<Attempt>)
    requires c.stop
    ensures Connections(h, c, attempts) == c
  {
  }

  // The transfer: chunks are handed over until the callback aborts.
  method Receive(h: Host, parser: StreamParser, chunks: seq<Bytes>)
    requires Running(parser.client.View())
    modifies parser, parser.client
    ensures parser.View() == FeedAll(h, old(parser.View()), Concat(chunks))
  {
    hide FeedAll, Concat;
    ghost var start := parser.View();
    var i := 0;
    FeedNothing(h, start);
    assert Concat(chunks[..0]) == [] by { ConcatNothing(); }
    while i < |chunks|
      invariant 0 <= i <= |chunks|
      invariant parser.View() == FeedAll(h, start, Concat(chunks[..i])) && Running(parser.client.View())
    {
      var taken := parser.Write(h, chunks[i]);
      ConcatMore(chunks, i);
      FeedInTwo(h, start, Concat(chunks[..i]), chunks[i]);
      i := i + 1;
      if !Running(parser.client.View()) {
        ConcatPrefix(chunks, i);
        AbortedFeed(h, start, Concat(chunks), |Concat(chunks[..i])|);
        return;
      }
    }
    assert chunks[..i] == chunks;
  }

  lemma ConcatNothing()
    ensures Concat([]) == []
  {
  }

  lemma ConcatMore(chunks: seq<Bytes>, i: nat)
    requires i < |chunks|
    ensures Concat(chunks[..i + 1]) == Concat(chunks[..i]) + chunks[i]
  {
    assert chunks[..i + 1][..i] == chunks[..i];
  }

  lemma {:induction false} ConcatPrefix(chunks: seq<Bytes>, i: nat)
    requires i <= |chunks|
    ensures Concat(chunks[..i]) <= Concat(chunks)
    ensures Concat(chunks)[..|Concat(chunks[..i])|] == Concat(chunks[..i])
    decreases |chunks| - i
  {
    if i == |chunks| {
      assert chunks[..i] == chunks;
    } else {
      ConcatMore(chunks, i);
      ConcatPrefix(chunks, i + 1);
    }
  }

  // Every connection's server sends what is above the cursor it was asked for.
  ghost predicate FaithfulAttempts(h: Host, log: iset<nat>, c: Client, attempts: seq<Attempt>)
    decreases |attempts|
  {
    attempts == [] || c.stop || !attempts[0].healthy ||
    (Faithful(h, log, c.cursor, Events(Lines(Concat(attempts[0].chunks)))) &&
     FaithfulAttempts(h, log, Connection(h, c, attempts[0].chunks), attempts[1..]))
  }

  // Through any number of failures, aborts and reconnections, the cursor never
  // goes back and never passes an event that was not handled.
  lemma {:induction false} ConnectionsCover(h: Host, log: iset<nat>, base: int, c: Client, attempts: seq<Attempt>)
    requires !c.reconnect && c.stored == c.cursor && Covered(h, log, base, c) && FaithfulAttempts(h, log, c, attempts)
    ensures var d := Connections(h, c, attempts);
      d.stored == d.cursor >= c.cursor && Covered(h, log, base, d)
    decreases |attempts|
  {
    hide Faithful, FeedAll, Events, Lines, Concat;
    if attempts != [] && !c.stop && attempts[0].healthy {
      StreamCovers(h, log, base, c.(failed := false), Concat(attempts[0].chunks));
      var d := Connection(h, c, attempts[0].chunks);
      assert Covered(h, log, base, d);
      if d.stop {
        ConnectionsStopped(h, d, attempts[1..]);
      } else {
        ConnectionsCover(h, log, base, d, attempts[1..]);
      }
    }
  }
}
