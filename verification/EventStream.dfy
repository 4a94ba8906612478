// The incremental parser of the event stream, fed in whatever chunks the
// transport delivers.
module EventStream {
  import opened Text
  import opened Delivery

  const SPACE: Byte := 32
  const EVENT_FIELD: Bytes := [101, 118, 101, 110, 116, 58]      // "event:"
  const DATA_FIELD: Bytes := [100, 97, 116, 97, 58]              // "data:"
  const MESSAGE: Bytes := [109, 101, 115, 115, 97, 103, 101]     // "message"
  const MAX_KIND := 64
  const MAX_EVENT_SIZE := 8 * 1024 * 1024
  const MAX_LINE_SIZE := MAX_EVENT_SIZE + 7

  datatype Parser = Parser(line: Bytes, kind: Bytes, data: Bytes, hasData: bool, client: Client)

  // The field's value as a C string, without one leading space.
  function FieldValue(line: Bytes, name: Bytes): Bytes
    requires name <= line
  {
    var v := UpToNul(line[|name|..]);
    if v != [] && v[0] == SPACE then v[1..] else v
  }

  function StripCR(line: Bytes): Bytes {
    if line != [] && line[|line| - 1] == CR then line[..|line| - 1] else line
  }

  function Fail(p: Parser): Parser {
    p.(client := p.client.(failed := true))
  }

  function AppendData(p: Parser, text: Bytes): Parser {
    if |p.data| + |text| > MAX_EVENT_SIZE then Fail(p) else p.(data := p.data + text)
  }

  function Dispatch(h: Host, p: Parser): Parser {
    if p.kind == [] && !p.hasData then p
    else
      var e := Event(if p.kind != [] then p.kind else MESSAGE, p.data);
      var q := p.(client := Offer(h, p.client, e));
      if h.answer(|p.client.offered|).handled then q.(kind := [], data := [], hasData := false) else q
  }

  function ProcessLine(h: Host, p: Parser, line: Bytes): Parser {
    if line == [] then Dispatch(h, p)
    else if EVENT_FIELD <= line then
      var v := FieldValue(line, EVENT_FIELD);
      if |v| >= MAX_KIND then Fail(p) else p.(kind := v)
    else if DATA_FIELD <= line then
      var q := if p.hasData then AppendData(p, [LF]) else p;
      if q.client.failed then q
      else
        var r := AppendData(q, FieldValue(line, DATA_FIELD));
        if r.client.failed then r else r.(hasData := true)
    else p
  }

  // One byte; after an abort the transport delivers nothing more.
  function Feed(h: Host, p: Parser, b: Byte): Parser {
    if !Running(p.client) then p
    else if b == LF then ProcessLine(h, p, StripCR(p.line)).(line := [])
    else if |p.line| + 1 > MAX_LINE_SIZE then Fail(p)
    else p.(line := p.line + [b])
  }

  function FeedAll(h: Host, p: Parser, s: Bytes): Parser {
    if s == [] then p else Feed(h, FeedAll(h, p, s[..|s| - 1]), s[|s| - 1])
  }

  function FeedChunks(h: Host, p: Parser, chunks: seq<Bytes>): Parser {
    if chunks == [] then p else FeedAll(h, FeedChunks(h, p, chunks[..|chunks| - 1]), chunks[|chunks| - 1])
  }

  function Concat(chunks: seq<Bytes>): Bytes {
    if chunks == [] then [] else Concat(chunks[..|chunks| - 1]) + chunks[|chunks| - 1]
  }

  lemma {:induction false} FeedInTwo(h: Host, p: Parser, a: Bytes, b: Bytes)
    ensures FeedAll(h, p, a + b) == FeedAll(h, FeedAll(h, p, a), b)
  {
    hide Feed;
    if b == [] {
      assert a + b == a;
    } else {
      assert (a + b)[..|a + b| - 1] == a + b[..|b| - 1];
      FeedInTwo(h, p, a, b[..|b| - 1]);
    }
  }

  // However the stream is cut into chunks, the parser ends in the same state,
  // having offered the same events and stopped at the same byte.
  lemma {:induction false} ChunksDoNotMatter(h: Host, p: Parser, chunks: seq<Bytes>)
    ensures FeedChunks(h, p, chunks) == FeedAll(h, p, Concat(chunks))
  {
    hide FeedAll;
    if chunks == [] {
      assert FeedAll(h, p, []) == p by { FeedNothing(h, p); }
    } else {
      var n := |chunks| - 1;
      ChunksDoNotMatter(h, p, chunks[..n]);
      FeedInTwo(h, p, Concat(chunks[..n]), chunks[n]);
    }
  }

  lemma FeedNothing(h: Host, p: Parser)
    ensures FeedAll(h, p, []) == p
  {
  }

  // ---- The line grammar ----

  // The lines ended by LF, and what follows the last LF.
  function RawLines(s: Bytes): seq<Bytes> {
    if s == [] then []
    else
      var first := s[..|s| - 1];
      if s[|s| - 1] == LF then RawLines(first) + [Tail(first)] else RawLines(first)
  }

  function Tail(s: Bytes): Bytes {
    if s == [] || s[|s| - 1] == LF then [] else Tail(s[..|s| - 1]) + [s[|s| - 1]]
  }

  function Ended(lines: seq<Bytes>): Bytes {
    if lines == [] then [] else Ended(lines[..|lines| - 1]) + lines[|lines| - 1] + [LF]
  }

  // The lines and the tail are the stream cut at its LFs.
  lemma {:induction false} LinesCutTheStream(s: Bytes)
    ensures s == Ended(RawLines(s)) + Tail(s) && LF !in Tail(s)
    ensures forall line :: line in RawLines(s) ==> LF !in line
  {
    if s != [] {
      var first, b := s[..|s| - 1], s[|s| - 1];
      LinesCutTheStream(first);
      assert s == first + [b];
      if b == LF {
        assert RawLines(s)[..|RawLines(s)| - 1] == RawLines(first);
      }
    }
  }

  function Lines(s: Bytes): (lines: seq<Bytes>)
    ensures |lines| == |RawLines(s)|
  {
    var raw := RawLines(s);
    seq(|raw|, i requires 0 <= i < |raw| => StripCR(raw[i]))
  }

  // The lines since the last empty one.
  function Block(lines: seq<Bytes>): seq<Bytes> {
    if lines == [] || lines[|lines| - 1] == [] then [] else Block(lines[..|lines| - 1]) + [lines[|lines| - 1]]
  }

  // The last event field of a block names its kind.
  function Kind(block: seq<Bytes>): Bytes {
    if block == [] then []
    else
      var line := block[|block| - 1];
      if EVENT_FIELD <= line then FieldValue(line, EVENT_FIELD) else Kind(block[..|block| - 1])
  }

  function DataValues(block: seq<Bytes>): seq<Bytes> {
    if block == [] then []
    else
      var line := block[|block| - 1];
      DataValues(block[..|block| - 1]) + (if DATA_FIELD <= line then [FieldValue(line, DATA_FIELD)] else [])
  }

  function Joined(values: seq<Bytes>): Bytes {
    if values == [] then []
    else if |values| == 1 then values[0]
    else Joined(values[..|values| - 1]) + [LF] + values[|values| - 1]
  }

  // An empty line ends an event, unless its block names no kind and has no data.
  function BlockEvent(block: seq<Bytes>): seq<Event> {
    if Kind(block) == [] && DataValues(block) == [] then []
    else [Event(if Kind(block) != [] then Kind(block) else MESSAGE, Joined(DataValues(block)))]
  }

  function Events(lines: seq<Bytes>): seq<Event> {
    if lines == [] then []
    else
      var first := lines[..|lines| - 1];
      Events(first) + (if lines[|lines| - 1] == [] then BlockEvent(Block(first)) else [])
  }

  predicate Small(block: seq<Bytes>) {
    && (forall line | line in block && EVENT_FIELD <= line :: |FieldValue(line, EVENT_FIELD)| < MAX_KIND)
    && |Joined(DataValues(block))| <= MAX_EVENT_SIZE
  }

  predicate Short(lines: seq<Bytes>) {
    forall i | 0 <= i < |lines| :: |lines[i]| <= MAX_LINE_SIZE
  }

  // Every block stays small from its first line on.
  predicate AllSmall(lines: seq<Bytes>) {
    forall k | 0 <= k <= |lines| :: Small(Block(lines[..k]))
  }

  predicate WithinLimits(s: Bytes) {
    Short(RawLines(s)) && |Tail(s)| <= MAX_LINE_SIZE && AllSmall(Lines(s))
  }

  // ---- The parser against the grammar ----

  // A fresh connection.
  function Fresh(c: Client): Parser {
    Parser([], [], [], false, c)
  }

  // Either everything fit and the client took the events of the complete lines,
  // or some line or event was too large and the client failed having been
  // offered whole events that came before it, and nothing of the large one.
  ghost predicate Explains(h: Host, c: Client, s: Bytes, client: Client) {
    var events := Events(Lines(s));
    || (client == Deliver(h, c, events) && (Running(client) ==> WithinLimits(s)))
    || (!WithinLimits(s) &&
        exists n | 0 <= n <= |events| :: Running(Deliver(h, c, events[..n])) && client == Deliver(h, c, events[..n]).(failed := true))
  }

  ghost predicate InStep(s: Bytes, p: Parser) {
    var block := Block(Lines(s));
    && p.line == Tail(s) && p.kind == Kind(block)
    && p.data == Joined(DataValues(block)) && p.hasData == (DataValues(block) != [])
  }

  lemma LinesMore(s: Bytes, b: Byte)
    ensures Tail(s + [b]) == if b == LF then [] else Tail(s) + [b]
    ensures RawLines(s + [b]) == if b == LF then RawLines(s) + [Tail(s)] else RawLines(s)
    ensures Lines(s + [b]) == if b == LF then Lines(s) + [StripCR(Tail(s))] else Lines(s)
  {
    assert (s + [b])[..|s|] == s;
  }

  lemma BlockMore(lines: seq<Bytes>, line: Bytes)
    ensures Block(lines + [line]) == if line == [] then [] else Block(lines) + [line]
    ensures Events(lines + [line]) == Events(lines) + if line == [] then BlockEvent(Block(lines)) else []
  {
    assert (lines + [line])[..|lines|] == lines;
  }

  lemma FieldsMore(block: seq<Bytes>, line: Bytes)
    ensures Kind(block + [line]) == if EVENT_FIELD <= line then FieldValue(line, EVENT_FIELD) else Kind(block)
    ensures DataValues(block + [line]) == DataValues(block) + if DATA_FIELD <= line then [FieldValue(line, DATA_FIELD)] else []
  {
    assert (block + [line])[..|block|] == block;
  }

  lemma JoinedMore(values: seq<Bytes>, v: Bytes)
    ensures Joined(values + [v]) == if values == [] then v else Joined(values) + [LF] + v
  {
    assert (values + [v])[..|values|] == values;
  }

  lemma AllSmallMore(lines: seq<Bytes>, line: Bytes)
    ensures AllSmall(lines + [line]) <==> AllSmall(lines) && Small(Block(lines + [line]))
  {
    hide Small, Block;
    var more := lines + [line];
    forall k | 0 <= k <= |lines| ensures more[..k] == lines[..k] {
    }
    assert more[..|more|] == more;
    if AllSmall(more) {
      forall k | 0 <= k <= |lines| ensures Small(Block(lines[..k])) {
        assert more[..k] == lines[..k] && Small(Block(more[..k]));
      }
      assert Small(Block(more[..|more|]));
    }
  }

  lemma ShortMore(lines: seq<Bytes>, line: Bytes)
    ensures Short(lines + [line]) <==> Short(lines) && |line| <= MAX_LINE_SIZE
  {
    var more := lines + [line];
    assert forall i | 0 <= i < |lines| :: more[i] == lines[i];
    assert more[|lines|] == line;
  }

  // What one more byte asks of the limits.
  lemma LimitsMore(s: Bytes, b: Byte)
    ensures WithinLimits(s + [b]) <==>
      WithinLimits(s) &&
      if b == LF then Small(Block(Lines(s) + [StripCR(Tail(s))])) else |Tail(s)| + 1 <= MAX_LINE_SIZE
  {
    LinesMore(s, b);
    ShortMore(RawLines(s), Tail(s));
    AllSmallMore(Lines(s), StripCR(Tail(s)));
    hide Small, Block, AllSmall, Short, RawLines, Lines, Tail, StripCR;
  }

  predicate Agrees(block: seq<Bytes>, p: Parser) {
    p.kind == Kind(block) && p.data == Joined(DataValues(block)) && p.hasData == (DataValues(block) != [])
  }

  // A line of a block: taken into the event being built, or too much.
  lemma FieldLine(h: Host, block: seq<Bytes>, p: Parser, line: Bytes)
    requires Agrees(block, p) && Small(block) && line != [] && !p.client.failed
    ensures var q := ProcessLine(h, p, line);
      if Small(block + [line]) then q.client == p.client && Agrees(block + [line], q)
      else q.client == p.client.(failed := true)
  {
    FieldsMore(block, line);
    SmallMore(block, line);
    SmallOnly(block);
    if DATA_FIELD <= line {
      assert line[0] == DATA_FIELD[0];
      JoinedMore(DataValues(block), FieldValue(line, DATA_FIELD));
      DataLine(h, p, line, DataValues(block));
    } else {
      assert DataValues(block + [line]) == DataValues(block);
    }
    if EVENT_FIELD <= line {
      assert line[0] == EVENT_FIELD[0];
    }
    hide Kind, DataValues, Joined, FieldValue, Small, Dispatch, AppendData;
  }

  lemma SmallOnly(block: seq<Bytes>)
    requires Small(block)
    ensures forall l | l in block && EVENT_FIELD <= l :: |FieldValue(l, EVENT_FIELD)| < MAX_KIND
    ensures |Joined(DataValues(block))| <= MAX_EVENT_SIZE
  {
  }

  lemma DataLine(h: Host, p: Parser, line: Bytes, values: seq<Bytes>)
    requires DATA_FIELD <= line && !p.client.failed
    requires p.data == Joined(values) && p.hasData == (values != []) && |p.data| <= MAX_EVENT_SIZE
    ensures var q, v := ProcessLine(h, p, line), FieldValue(line, DATA_FIELD);
      if |Joined(values + [v])| <= MAX_EVENT_SIZE
      then q == p.(data := Joined(values + [v]), hasData := true)
      else q.client == p.client.(failed := true)
  {
    var v := FieldValue(line, DATA_FIELD);
    assert line[0] == DATA_FIELD[0];
    JoinedMore(values, v);
    if values == [] {
      NothingYet();
      assert [] + v == v;
    } else {
      assert p.data + [LF] + v == Joined(values + [v]);
    }
    hide Joined, FieldValue, Dispatch;
  }

  lemma SmallMore(block: seq<Bytes>, line: Bytes)
    ensures Small(block + [line]) <==>
      && (forall l | l in block && EVENT_FIELD <= l :: |FieldValue(l, EVENT_FIELD)| < MAX_KIND)
      && (EVENT_FIELD <= line ==> |FieldValue(line, EVENT_FIELD)| < MAX_KIND)
      && |Joined(DataValues(block + [line]))| <= MAX_EVENT_SIZE
  {
    hide FieldValue, Joined, DataValues;
    var more := block + [line];
    assert more[|block|] == line;
    assert forall l :: l in block ==> l in more;
  }

  // An empty line: the block's event is offered, and the next block starts afresh.
  lemma EmptyLine(h: Host, c: Client, events: seq<Event>, block: seq<Bytes>, p: Parser)
    requires Agrees(block, p) && p.client == Deliver(h, c, events) && Running(p.client)
    ensures var q := ProcessLine(h, p, []);
      q.client == Deliver(h, c, events + BlockEvent(block)) && (Running(q.client) ==> Agrees([], q))
  {
    hide Kind, DataValues, Joined, Deliver;
    assert Kind([]) == [] && DataValues([]) == [] && Joined([]) == [] by { NothingYet(); }
    if BlockEvent(block) == [] {
      assert events + [] == events;
    } else {
      DeliverOneMore(h, c, events, BlockEvent(block)[0]);
      assert [BlockEvent(block)[0]] == BlockEvent(block);
    }
  }

  lemma NothingYet()
    ensures Kind([]) == [] && DataValues([]) == [] && Joined([]) == []
  {
  }

  lemma {:induction false} StreamMatchesGrammar(h: Host, c: Client, s: Bytes)
    requires Running(c)
    ensures var p := FeedAll(h, Fresh(c), s);
      Explains(h, c, s, p.client) && (Running(p.client) ==> InStep(s, p))
  {
    hide Feed, WithinLimits;
    if s == [] {
      assert Lines(s) == [] && Deliver(h, c, []) == c;
      NothingYet();
      NothingIsSmall();
    } else {
      var first, b := s[..|s| - 1], s[|s| - 1];
      assert s == first + [b];
      StreamMatchesGrammar(h, c, first);
      ByteMatchesGrammar(h, c, first, FeedAll(h, Fresh(c), first), b);
    }
  }

  lemma NothingIsSmall()
    ensures WithinLimits([])
  {
  }

  lemma ByteMatchesGrammar(h: Host, c: Client, s: Bytes, p: Parser, b: Byte)
    requires Running(c) && Explains(h, c, s, p.client) && (Running(p.client) ==> InStep(s, p))
    ensures var q := Feed(h, p, b);
      Explains(h, c, s + [b], q.client) && (Running(q.client) ==> InStep(s + [b], q))
  {
    hide WithinLimits, ProcessLine, Small, StripCR, Block, Events, Lines, RawLines, Tail, Kind, DataValues, Joined, BlockEvent, Deliver;
    var lines := Lines(s);
    LinesMore(s, b);
    LimitsMore(s, b);
    if !Running(p.client) {
      StoppedStaysExplained(h, c, s, p.client, b);
    } else if b == LF {
      LineEndMatches(h, c, s, p);
    } else if |p.line| + 1 > MAX_LINE_SIZE {
      var events := Events(lines);
      assert events[..|events|] == events;
    }
  }

  lemma StoppedStaysExplained(h: Host, c: Client, s: Bytes, client: Client, b: Byte)
    requires Explains(h, c, s, client) && !Running(client)
    ensures Explains(h, c, s + [b], client)
  {
    hide WithinLimits, Block, BlockEvent, Lines, Events, Deliver, StripCR, Tail;
    LimitsMore(s, b);
    var more := EventsMore(s, b);
    StillExplained(h, c, Events(Lines(s)), more, client);
  }

  // One more byte brings at most one more event.
  lemma EventsMore(s: Bytes, b: Byte) returns (more: seq<Event>)
    ensures |more| <= 1 && Events(Lines(s + [b])) == Events(Lines(s)) + more
  {
    hide Block, BlockEvent, Lines, Events, StripCR, Tail;
    LinesMore(s, b);
    var line := StripCR(Tail(s));
    more := if b == LF && line == [] then BlockEvent(Block(Lines(s))) else [];
    BlockMore(Lines(s), line);
    AtMostOne(Block(Lines(s)));
    assert b != LF ==> Events(Lines(s)) + [] == Events(Lines(s));
  }

  // A client that stopped on these events has also stopped on more of them.
  lemma StillExplained(h: Host, c: Client, events: seq<Event>, more: seq<Event>, client: Client)
    requires |more| <= 1 && !Running(client)
    ensures client == Deliver(h, c, events) ==> client == Deliver(h, c, events + more)
    ensures forall n | 0 <= n <= |events| :: (events + more)[..n] == events[..n]
  {
    hide Deliver;
    if more == [] {
      assert events + more == events;
    } else {
      assert more == [more[0]];
      DeliverOneMore(h, c, events, more[0]);
    }
  }

  lemma AtMostOne(block: seq<Bytes>)
    ensures |BlockEvent(block)| <= 1
  {
  }

  lemma LastIsSmall(s: Bytes)
    requires WithinLimits(s)
    ensures Small(Block(Lines(s)))
  {
    assert Lines(s)[..|Lines(s)|] == Lines(s);
  }

  lemma LineEndMatches(h: Host, c: Client, s: Bytes, p: Parser)
    requires Running(c) && Explains(h, c, s, p.client) && Running(p.client) && InStep(s, p)
    ensures var q := Feed(h, p, LF);
      Explains(h, c, s + [LF], q.client) && (Running(q.client) ==> InStep(s + [LF], q))
  {
    var lines, line := Lines(s), StripCR(Tail(s));
    var events := Events(lines);
    LinesMore(s, LF);
    LimitsMore(s, LF);
    BlockMore(lines, line);
    LastIsSmall(s);
    assert Block(lines + [[]]) == [] by { BlockMore(lines, []); }
    assert Small([]) by { NothingIsSmall(); LastIsSmall([]); }
    assert events[..|events|] == events;
    if line == [] {
      EmptyLine(h, c, events, Block(lines), p);
    } else {
      FieldLine(h, Block(lines), p, line);
      assert events + [] == events;
    }
    hide WithinLimits, ProcessLine, Small, StripCR, Block, Events, Lines, RawLines, Tail, Kind, DataValues, Joined, BlockEvent, Deliver;
  }

  // ---- What the stream guarantees ----

  // The parser is still reading exactly when nothing was too large and the
  // account took every event of the complete lines.
  lemma StillReadingIff(h: Host, c: Client, s: Bytes)
    requires Running(c)
    ensures Running(FeedAll(h, Fresh(c), s).client) <==> WithinLimits(s) && Running(Deliver(h, c, Events(Lines(s))))
    ensures WithinLimits(s) ==> FeedAll(h, Fresh(c), s).client == Deliver(h, c, Events(Lines(s)))
  {
    StreamMatchesGrammar(h, c, s);
    hide WithinLimits, Deliver, Events, Lines, FeedAll;
  }

  // Only whole events of the grammar are ever offered, in order; an oversized
  // line or event is a failed delivery, never a shortened event.
  lemma OnlyWholeEvents(h: Host, c: Client, s: Bytes) returns (n: nat)
    requires Running(c)
    ensures var p, events := FeedAll(h, Fresh(c), s), Events(Lines(s));
      n <= |events| && p.client.offered == c.offered + events[..n] && (!WithinLimits(s) ==> !Running(p.client))
  {
    StreamMatchesGrammar(h, c, s);
    var events := Events(Lines(s));
    var client := FeedAll(h, Fresh(c), s).client;
    hide WithinLimits, Deliver, Events, Lines, FeedAll;
    if client == Deliver(h, c, events) {
      n := OfferedInOrder(h, c, events);
    } else {
      var m :| 0 <= m <= |events| && Running(Deliver(h, c, events[..m])) && client == Deliver(h, c, events[..m]).(failed := true);
      n := OfferedInOrder(h, c, events[..m]);
      assert events[..m][..n] == events[..n];
    }
  }

  // Over one connection to a faithful server, however it is cut and wherever it
  // breaks off, the cursor passes only events that were handled.
  lemma StreamCovers(h: Host, log: iset<nat>, base: int, c: Client, s: Bytes)
    requires Running(c) && c.stored == c.cursor && Covered(h, log, base, c)
    requires Faithful(h, log, c.cursor, Events(Lines(s)))
    ensures var d := FeedAll(h, Fresh(c), s).client;
      d.stored == d.cursor >= c.cursor && Covered(h, log, base, d)
  {
    StreamMatchesGrammar(h, c, s);
    var events := Events(Lines(s));
    var client := FeedAll(h, Fresh(c), s).client;
    DeliverCovers(h, log, base, c, events);
    if client != Deliver(h, c, events) {
      var n :| 0 <= n <= |events| && Running(Deliver(h, c, events[..n])) && client == Deliver(h, c, events[..n]).(failed := true);
      FaithfulUpTo(h, log, c.cursor, events, n);
      DeliverCovers(h, log, base, c, events[..n]);
    }
    hide WithinLimits, Deliver, Events, Lines, FeedAll, Faithful;
  }

  lemma FaithfulUpTo(h: Host, log: iset<nat>, above: int, events: seq<Event>, n: nat)
    requires n <= |events| && Faithful(h, log, above, events)
    ensures Faithful(h, log, above, events[..n])
  {
    forall i, x | 0 <= i < n && x in log && above < x <= Counts(h, events[..n][i]) ensures Has(h, events[..n][..i + 1], x) {
      assert events[..n][..i + 1] == events[..i + 1];
    }
  }
}
