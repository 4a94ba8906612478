// Is a JPEG file whole? Markers and segments up to the end of image, as section
// B.1.1 of ITU-T T.81 lays them out.
module Jpeg {
  import opened Optional
  import opened Text

  const FF := 0xff
  const SOI := 0xd8
  const EOI := 0xd9
  const SOS := 0xda
  const TEM := 0x01

  // A stuffed zero or a restart marker: part of the entropy-coded data.
  predicate InScan(m: Byte) {
    m == 0 || 0xd0 <= m <= 0xd7
  }

  // Markers without a length and parameters.
  predicate Bare(m: Byte) {
    InScan(m) || m == SOI || m == EOI || m == TEM
  }

  // ---- The grammar ----

  // Entropy-coded bytes, fill bytes, a marker, and its parameters if it has any.
  datatype Unit = Unit(plain: Bytes, fill: nat, marker: Byte, payload: Bytes)

  function Fills(n: nat): (s: Bytes)
    ensures |s| == n && forall i | 0 <= i < n :: s[i] == FF
  {
    if n == 0 then [] else [FF] + Fills(n - 1)
  }

  function Be16(n: int): Bytes
    requires 0 <= n < 0x10000
  {
    [n / 256, n % 256]
  }

  function Parameters(m: Byte, payload: Bytes): Bytes
    requires |payload| + 2 < 0x10000
  {
    if Bare(m) then [] else Be16(|payload| + 2) + payload
  }

  function WriteUnit(u: Unit): Bytes
    requires |u.payload| + 2 < 0x10000
  {
    u.plain + (Fills(1 + u.fill) + ([u.marker] + Parameters(u.marker, u.payload)))
  }

  predicate ValidUnit(u: Unit, scan: bool) {
    && FF !in u.plain && (u.plain != [] ==> scan)
    && u.marker != FF && u.marker != SOI && (InScan(u.marker) ==> scan)
    && |u.payload| + 2 < 0x10000 && (Bare(u.marker) ==> u.payload == [])
  }

  function StaysInScan(u: Unit): bool {
    InScan(u.marker) || u.marker == SOS
  }

  // Units up to the end of image, which needs a scan before it.
  predicate Image(units: seq<Unit>, scan: bool, seen: bool) {
    units != [] && ValidUnit(units[0], scan) &&
    if units[0].marker == EOI then seen && |units| == 1
    else Image(units[1..], StaysInScan(units[0]), seen || units[0].marker == SOS)
  }

  function WriteUnits(units: seq<Unit>): Bytes
    requires forall u | u in units :: |u.payload| + 2 < 0x10000
  {
    if units == [] then [] else WriteUnit(units[0]) + WriteUnits(units[1..])
  }

  // ---- The reader ----

  function PlainLength(t: Bytes): (n: nat)
    ensures n <= |t| && (n < |t| ==> t[n] == FF)
  {
    if t == [] || t[0] == FF then 0 else 1 + PlainLength(t[1..])
  }

  function FillLength(t: Bytes): (n: nat)
    ensures n <= |t| && (n < |t| ==> t[n] != FF)
  {
    if t == [] || t[0] != FF then 0 else 1 + FillLength(t[1..])
  }

  // The parameters of marker m at the start of t.
  function ReadParameters(m: Byte, t: Bytes): Option<Bytes> {
    if Bare(m) then Some([])
    else if |t| < 2 then None
    else
      var length := 256 * t[0] as int + t[1] as int;
      if length < 2 || |t| < length then None else Some(t[2..length])
  }

  // The marker at the start of rest, after plain bytes.
  function ReadMarked(plain: Bytes, rest: Bytes, scan: bool): Option<Unit> {
    var k := FillLength(rest);
    if k == 0 || k == |rest| then None
    else
      var m := rest[k];
      match ReadParameters(m, rest[k + 1..])
      case None => None
      case Some(payload) => if m == SOI || (InScan(m) && !scan) then None else Some(Unit(plain, k - 1, m, payload))
  }

  function ReadUnit(t: Bytes, scan: bool): Option<Unit> {
    var n := PlainLength(t);
    if n > 0 && !scan then None else ReadMarked(t[..n], t[n..], scan)
  }

  function Size(u: Unit): (n: nat)
    ensures n >= 2
  {
    |u.plain| + u.fill + 2 + (if Bare(u.marker) then 0 else 2 + |u.payload|)
  }

  // The number of bytes up to and including the accepted end of image.
  function EndOf(t: Bytes, scan: bool, seen: bool): Option<nat>
    decreases |t|
  {
    match ReadUnit(t, scan)
    case None => None
    case Some(u) =>
      if Size(u) > |t| then None
      else if u.marker == EOI then (if seen then Some(Size(u)) else None)
      else
        match EndOf(t[Size(u)..], StaysInScan(u), seen || u.marker == SOS)
        case None => None
        case Some(n) => Some(Size(u) + n)
  }

  function Complete(file: Bytes): Option<nat> {
    if |file| < 2 || file[0] != FF || file[1] != SOI then None
    else
      match EndOf(file[2..], false, false)
      case None => None
      case Some(n) => Some(2 + n)
  }

  // ---- Reader and grammar agree ----

  lemma {:induction false} PlainOf(plain: Bytes, rest: Bytes)
    requires FF !in plain && (rest != [] ==> rest[0] == FF)
    ensures PlainLength(plain + rest) == |plain|
  {
    if plain == [] {
      assert plain + rest == rest;
    } else {
      assert (plain + rest)[1..] == plain[1..] + rest;
      PlainOf(plain[1..], rest);
    }
  }

  lemma {:induction false} FillOf(n: nat, rest: Bytes)
    requires rest != [] ==> rest[0] != FF
    ensures FillLength(Fills(n) + rest) == n
  {
    if n == 0 {
      assert Fills(n) + rest == rest;
    } else {
      assert (Fills(n) + rest)[1..] == Fills(n - 1) + rest;
      FillOf(n - 1, rest);
    }
  }

  lemma {:induction false} FillIs(t: Bytes)
    ensures t[..FillLength(t)] == Fills(FillLength(t))
  {
    var n := FillLength(t);
    if n > 0 {
      FillIs(t[1..]);
      assert t[..n] == [t[0]] + t[1..][..n - 1];
    }
  }

  lemma {:induction false} PlainIs(t: Bytes)
    ensures FF !in t[..PlainLength(t)]
  {
    var n := PlainLength(t);
    if n > 0 {
      PlainIs(t[1..]);
      assert t[..n] == [t[0]] + t[1..][..n - 1];
    }
  }

  lemma ParametersRead(m: Byte, payload: Bytes, rest: Bytes)
    requires |payload| + 2 < 0x10000 && (Bare(m) ==> payload == [])
    ensures ReadParameters(m, Parameters(m, payload) + rest) == Some(payload)
  {
    if !Bare(m) {
      var length := |payload| + 2;
      var t := Parameters(m, payload) + rest;
      assert t[0] as int == length / 256 && t[1] as int == length % 256;
      assert t[2..length] == payload;
    }
  }

  lemma Regroup(a: Bytes, b: Bytes, c: Bytes, q: Bytes, r: Bytes)
    ensures a + (b + (c + (q + r))) == (a + (b + (c + q))) + r
  {
  }

  lemma WriteParts(u: Unit, rest: Bytes)
    requires |u.payload| + 2 < 0x10000
    ensures WriteUnit(u) + rest ==
      u.plain + (Fills(1 + u.fill) + ([u.marker] + (Parameters(u.marker, u.payload) + rest)))
    ensures |WriteUnit(u)| == |u.plain| + 1 + u.fill + 1 + |Parameters(u.marker, u.payload)|
  {
    hide Fills, Parameters;
    Regroup(u.plain, Fills(1 + u.fill), [u.marker], Parameters(u.marker, u.payload), rest);
  }

  lemma MarkedWritten(u: Unit, scan: bool, tail: Bytes)
    requires ValidUnit(u, scan) && ReadParameters(u.marker, tail) == Some(u.payload)
    ensures ReadMarked(u.plain, Fills(1 + u.fill) + ([u.marker] + tail), scan) == Some(u)
  {
    hide FillLength, ReadParameters, InScan, Bare;
    var k, rest := 1 + u.fill, Fills(1 + u.fill) + ([u.marker] + tail);
    FillOf(k, [u.marker] + tail);
    assert rest[k] == u.marker && rest[k + 1..] == tail;
    hide Fills;
  }

  lemma ReadWritten(u: Unit, scan: bool, rest: Bytes)
    requires ValidUnit(u, scan)
    ensures |WriteUnit(u)| == Size(u)
    ensures ReadUnit(WriteUnit(u) + rest, scan) == Some(u)
  {
    hide Fills, Parameters, PlainLength, FillLength, ReadParameters, Bare, InScan, WriteUnit, ReadMarked, Be16;
    var tail := Parameters(u.marker, u.payload) + rest;
    var marked := Fills(1 + u.fill) + ([u.marker] + tail);
    WriteParts(u, rest);
    ParametersSize(u.marker, u.payload);
    PlainOf(u.plain, marked);
    ParametersRead(u.marker, u.payload, rest);
    MarkedWritten(u, scan, tail);
    var t := u.plain + marked;
    assert t[..|u.plain|] == u.plain && t[|u.plain|..] == marked;
  }

  lemma ParametersSize(m: Byte, payload: Bytes)
    requires |payload| + 2 < 0x10000
    ensures |Parameters(m, payload)| == if Bare(m) then 0 else 2 + |payload|
  {
  }

  lemma WrittenRead(t: Bytes, scan: bool)
    requires ReadUnit(t, scan).Some?
    ensures var u := ReadUnit(t, scan).value;
      ValidUnit(u, scan) && Size(u) <= |t| && t == WriteUnit(u) + t[Size(u)..]
  {
    hide ReadMarked, PlainLength, Fills, Parameters, Be16, WriteUnit;
    var n := PlainLength(t);
    PlainIs(t);
    var q := MarkedRead(t[..n], t[n..], scan);
    var u := ReadUnit(t, scan).value;
    WriteParts(u, q);
    ParametersSize(u.marker, u.payload);
    assert t == t[..n] + t[n..];
    EndPart(t, WriteUnit(u), q);
  }

  lemma EndPart(t: Bytes, a: Bytes, q: Bytes)
    requires t == a + q
    ensures t[|a|..] == q
  {
  }

  lemma MarkedRead(plain: Bytes, rest: Bytes, scan: bool) returns (q: Bytes)
    requires ReadMarked(plain, rest, scan).Some? && FF !in plain && (plain != [] ==> scan)
    ensures var u := ReadMarked(plain, rest, scan).value;
      ValidUnit(u, scan) && u.plain == plain &&
      rest == Fills(1 + u.fill) + ([u.marker] + (Parameters(u.marker, u.payload) + q))
  {
    hide FillLength, ReadParameters, Parameters, Fills, Bare, InScan;
    var k := FillLength(rest);
    var tail: Bytes := rest[k + 1..];
    var p := ReadParameters(rest[k], tail).value;
    ParametersWritten(rest[k], tail);
    q := tail[|Parameters(rest[k], p)|..];
    FillIs(rest);
    AroundOne(rest, k);
    assert tail == Parameters(rest[k], p) + q;
  }

  lemma AroundOne(rest: Bytes, k: nat)
    requires k < |rest|
    ensures rest == rest[..k] + ([rest[k]] + rest[k + 1..])
  {
  }

  lemma ParametersWritten(m: Byte, t: Bytes)
    requires ReadParameters(m, t).Some?
    ensures var p := ReadParameters(m, t).value;
      |p| + 2 < 0x10000 && (Bare(m) ==> p == []) && Parameters(m, p) <= t &&
      |Parameters(m, p)| == if Bare(m) then 0 else 2 + |p|
  {
    if !Bare(m) {
      var p := ReadParameters(m, t).value;
      var length := |p| + 2;
      assert t[0] as int == length / 256 && t[1] as int == length % 256;
      assert t[..length] == [t[0], t[1]] + p;
    }
  }

  lemma {:induction false} ImageSmall(units: seq<Unit>, scan: bool, seen: bool)
    requires Image(units, scan, seen)
    ensures forall u | u in units :: |u.payload| + 2 < 0x10000
    decreases |units|
  {
    if units[0].marker != EOI {
      ImageSmall(units[1..], StaysInScan(units[0]), seen || units[0].marker == SOS);
    }
  }

  lemma EndAfter(u: Unit, scan: bool, seen: bool, rest: Bytes)
    requires ValidUnit(u, scan)
    ensures EndOf(WriteUnit(u) + rest, scan, seen) ==
      if u.marker == EOI then (if seen then Some(|WriteUnit(u)|) else None)
      else match EndOf(rest, StaysInScan(u), seen || u.marker == SOS)
           case None => None
           case Some(n) => Some(|WriteUnit(u)| + n)
  {
    hide WriteUnit, ReadUnit, Bare, InScan, Size, StaysInScan;
    ReadWritten(u, scan, rest);
    EndPart(WriteUnit(u) + rest, WriteUnit(u), rest);
  }

  lemma {:induction false} ImageIsRead(units: seq<Unit>, scan: bool, seen: bool, rest: Bytes)
    requires Image(units, scan, seen) && forall u | u in units :: |u.payload| + 2 < 0x10000
    ensures EndOf(WriteUnits(units) + rest, scan, seen) == Some(|WriteUnits(units)|)
    decreases |units|
  {
    hide WriteUnit, ReadUnit, ValidUnit, Size, EndOf, StaysInScan;
    var u, later := units[0], WriteUnits(units[1..]);
    assert WriteUnits(units) + rest == WriteUnit(u) + (later + rest);
    EndAfter(u, scan, seen, later + rest);
    if u.marker == EOI {
      assert units[1..] == [] && later == [];
    } else {
      ImageIsRead(units[1..], StaysInScan(u), seen || u.marker == SOS, rest);
    }
  }

  lemma {:induction false} ReadIsImage(t: Bytes, scan: bool, seen: bool) returns (units: seq<Unit>)
    requires EndOf(t, scan, seen).Some?
    ensures EndOf(t, scan, seen).value <= |t|
    ensures Image(units, scan, seen) && (forall u | u in units :: |u.payload| + 2 < 0x10000)
    ensures WriteUnits(units) == t[..EndOf(t, scan, seen).value]
    decreases |t|
  {
    hide WriteUnit, ReadUnit, Size;
    WrittenRead(t, scan);
    var u := ReadUnit(t, scan).value;
    assert t[..Size(u)] == WriteUnit(u) by { ReadWritten(u, scan, []); }
    if u.marker == EOI {
      units := [u];
      assert units[1..] == [] && WriteUnits([]) == [] && WriteUnit(u) + [] == WriteUnit(u);
    } else {
      var later := ReadIsImage(t[Size(u)..], StaysInScan(u), seen || u.marker == SOS);
      units := [u] + later;
      assert units[1..] == later;
      var n := EndOf(t[Size(u)..], StaysInScan(u), seen || u.marker == SOS).value;
      assert t[..Size(u) + n] == t[..Size(u)] + t[Size(u)..][..n];
    }
    hide ValidUnit;
  }

  ghost predicate Conforms(file: Bytes, n: nat, units: seq<Unit>) {
    && n <= |file| && Image(units, false, false) && (forall u | u in units :: |u.payload| + 2 < 0x10000)
    && file[..n] == [FF, SOI] + WriteUnits(units)
  }

  // A file is complete, with its image ending at n, exactly when its first n
  // bytes are the start of image and well-formed units up to the end of image.
  lemma CompleteIffConforms(file: Bytes, n: nat)
    ensures Complete(file) == Some(n) <==> exists units :: Conforms(file, n, units)
  {
    if Complete(file) == Some(n) {
      var units := UnitsOf(file);
      assert Conforms(file, n, units);
    }
    if units :| Conforms(file, n, units) {
      ConformingIsComplete(file, n, units);
    }
  }

  lemma UnitsOf(file: Bytes) returns (units: seq<Unit>)
    requires Complete(file).Some?
    ensures Conforms(file, Complete(file).value, units)
  {
    hide WriteUnits, Image, EndOf;
    units := ReadIsImage(file[2..], false, false);
    var n := EndOf(file[2..], false, false).value;
    TwoMore(file, n);
  }

  lemma TwoMore(file: Bytes, n: nat)
    requires 2 + n <= |file| && file[0] == FF && file[1] == SOI
    ensures file[..2 + n] == [FF, SOI] + file[2..][..n]
  {
    var head: Bytes := [FF, SOI];
    assert forall i | 0 <= i < n :: file[2..][..n][i] == file[i + 2];
  }

  lemma ConformingIsComplete(file: Bytes, n: nat, units: seq<Unit>)
    requires Conforms(file, n, units)
    ensures Complete(file) == Some(n)
  {
    hide WriteUnits, Image, EndOf;
    var head: Bytes := [FF, SOI];
    assert file == file[..n] + file[n..];
    assert file[2..] == WriteUnits(units) + file[n..];
    assert file[0] == file[..n][0] == head[0] && file[1] == file[..n][1] == head[1];
    ImageIsRead(units, false, false, file[n..]);
  }

  // Every prefix that ends before the accepted end of image is refused, and what
  // follows it does not matter.
  lemma TruncationIsDetected(file: Bytes, n: nat)
    requires Complete(file).Some? && n <= |file|
    ensures Complete(file[..n]) == if n >= Complete(file).value then Complete(file) else None
  {
    var q := Complete(file).value;
    CompleteIffConforms(file, q);
    var units :| Conforms(file, q, units);
    if n >= q {
      assert file[..n][..q] == file[..q];
      assert Conforms(file[..n], q, units);
      CompleteIffConforms(file[..n], q);
    } else if Complete(file[..n]).Some? {
      var m := Complete(file[..n]).value;
      CompleteIffConforms(file[..n], m);
      var others :| Conforms(file[..n], m, others);
      assert file[..n][..m] == file[..m];
      assert Conforms(file, m, others);
      CompleteIffConforms(file, m);
      assert false;
    }
  }

  // ---- The reader, byte by byte ----

  // To the next marker: over entropy-coded bytes inside a scan, then fill bytes.
  method NextMarker(file: Bytes, from: nat, scan: bool) returns (found: bool, at: nat)
    requires from <= |file|
    ensures var t: Bytes := file[from..]; var n := PlainLength(t);
      && (found <==> (n == 0 || scan) && n < |t| && n + FillLength(t[n..]) < |t|)
      && (found ==> at == from + n + FillLength(t[n..]))
  {
    hide PlainLength, FillLength;
    found, at := false, from;
    while scan && at < |file| && file[at] != FF
      invariant from <= at <= |file| && (!scan ==> at == from)
      invariant PlainLength(file[from..]) == (at - from) + PlainLength(file[at..])
    {
      PlainStep(file, at);
      at := at + 1;
    }
    ghost var first := at;
    PlainStops(file, at);
    if at == |file| || file[at] != FF {
      return;
    }
    assert file[from..][first - from..] == file[first..];
    while at < |file| && file[at] == FF
      invariant first <= at <= |file|
      invariant FillLength(file[first..]) == (at - first) + FillLength(file[at..])
    {
      FillStep(file, at);
      at := at + 1;
    }
    FillStops(file, at);
    found := at < |file|;
  }

  lemma PlainStep(file: Bytes, at: nat)
    requires at < |file| && file[at] != FF
    ensures PlainLength(file[at..]) == 1 + PlainLength(file[at + 1..])
  {
    assert file[at..][1..] == file[at + 1..];
  }

  lemma FillStep(file: Bytes, at: nat)
    requires at < |file| && file[at] == FF
    ensures FillLength(file[at..]) == 1 + FillLength(file[at + 1..])
  {
    assert file[at..][1..] == file[at + 1..];
  }

  lemma PlainStops(file: Bytes, at: nat)
    requires at <= |file|
    ensures PlainLength(file[at..]) == 0 <==> at == |file| || file[at] == FF
  {
  }

  lemma FillStops(file: Bytes, at: nat)
    requires at <= |file|
    ensures FillLength(file[at..]) == 0 <==> at == |file| || file[at] != FF
  {
  }

  // A segment's length and parameters, read rather than skipped over.
  method TakeParameters(file: Bytes, from: nat) returns (ok: bool, next: nat)
    requires from <= |file|
    ensures var t: Bytes := file[from..];
      && (ok <==> |t| >= 2 && 2 <= 256 * t[0] as int + t[1] as int <= |t|)
      && (ok ==> next == from + 256 * t[0] as int + t[1] as int)
  {
    ok, next := false, from;
    if from + 2 > |file| {
      return;
    }
    var remaining: int := 256 * file[from] as int + file[from + 1] as int - 2;
    if remaining < 0 {
      return;
    }
    next := from + 2;
    ghost var end := next + remaining;
    while remaining > 0
      invariant 0 <= remaining && next + remaining == end && next <= |file|
    {
      if next == |file| {
        return;
      }
      next, remaining := next + 1, remaining - 1;
    }
    ok := true;
  }

  // The unit at a position, once its marker has been found.
  lemma UnitAt(file: Bytes, from: nat, scan: bool, at: nat)
    requires from <= at < |file|
    requires var t: Bytes := file[from..]; var n := PlainLength(t);
      (n == 0 || scan) && n < |t| && n + FillLength(t[n..]) < |t| && at == from + n + FillLength(t[n..])
    ensures var u, m, p := ReadUnit(file[from..], scan), file[at], ReadParameters(file[at], file[at + 1..]);
      && (u.Some? <==> p.Some? && m != SOI && (InScan(m) ==> scan))
      && (u.Some? ==> u.value.marker == m && from + Size(u.value) == at + 1 + (if Bare(m) then 0 else 2 + |p.value|))
  {
    hide PlainLength, FillLength, ReadParameters, InScan, Bare;
    var t: Bytes := file[from..];
    var n := PlainLength(t);
    var rest: Bytes := t[n..];
    var k := FillLength(rest);
    assert rest[0] == t[n];
    FillsAtFF(t, n);
    assert rest[k] == file[at] && rest[k + 1..] == file[at + 1..];
  }

  lemma FillsAtFF(t: Bytes, n: nat)
    requires n < |t| && t[n] == FF
    ensures FillLength(t[n..]) > 0
  {
  }

  lemma NoUnit(file: Bytes, from: nat, scan: bool)
    requires from <= |file|
    requires var t: Bytes := file[from..]; var n := PlainLength(t); !((n == 0 || scan) && n < |t| && n + FillLength(t[n..]) < |t|)
    ensures ReadUnit(file[from..], scan).None?
  {
    hide PlainLength, ReadParameters, InScan, Bare;
    var t: Bytes := file[from..];
    var n := PlainLength(t);
    if n == |t| {
      assert t[n..] == [];
    }
  }

  lemma EndAt(file: Bytes, from: nat, scan: bool, seen: bool)
    requires from <= |file|
    ensures var u := ReadUnit(file[from..], scan);
      && (u.None? ==> EndOf(file[from..], scan, seen).None?)
      && (u.Some? ==> from + Size(u.value) <= |file|)
      && (u.Some? && u.value.marker == EOI ==> (EndOf(file[from..], scan, seen).Some? <==> seen))
      && (u.Some? && u.value.marker != EOI ==>
            (EndOf(file[from..], scan, seen).Some? <==>
             EndOf(file[from + Size(u.value)..], StaysInScan(u.value), seen || u.value.marker == SOS).Some?))
  {
    var t: Bytes := file[from..];
    if ReadUnit(t, scan).Some? {
      WrittenRead(t, scan);
      var n := Size(ReadUnit(t, scan).value);
      assert t[n..] == file[from + n..];
    }
    hide ReadUnit, StaysInScan, WriteUnit, ValidUnit;
  }

  lemma ParametersAt(file: Bytes, at: nat, m: Byte)
    requires at <= |file| && !Bare(m)
    ensures var t: Bytes := file[at..];
      && (ReadParameters(m, t).Some? <==> |t| >= 2 && 2 <= 256 * t[0] as int + t[1] as int <= |t|)
      && (ReadParameters(m, t).Some? ==> 2 + |ReadParameters(m, t).value| == 256 * t[0] as int + t[1] as int)
  {
  }

  // enil_jpeg_complete
  method JpegComplete(file: Bytes) returns (ok: bool)
    ensures ok <==> Complete(file).Some?
  {
    hide EndOf, ReadUnit, PlainLength, FillLength, ReadParameters, Size;
    ok := false;
    if |file| < 2 || file[0] != FF || file[1] != SOI {
      return;
    }
    var pos, scan, seen := 2, false, false;
    while true
      invariant 2 <= pos <= |file|
      invariant Complete(file).Some? <==> EndOf(file[pos..], scan, seen).Some?
      decreases |file| - pos
    {
      EndAt(file, pos, scan, seen);
      var found, at := NextMarker(file, pos, scan);
      if !found {
        NoUnit(file, pos, scan);
        return;
      }
      UnitAt(file, pos, scan, at);
      var marker := file[at];
      pos := at + 1;
      if scan && InScan(marker) {
        BareUnit(marker, file[at + 1..]);
        continue;
      }
      if Bare(marker) {
        BareUnit(marker, file[at + 1..]);
      } else {
        ParametersAt(file, at + 1, marker);
      }
      scan := false;
      if marker == EOI {
        ok := seen;
        return;
      }
      if InScan(marker) || marker == SOI {
        return;
      }
      if marker != TEM {
        var complete;
        complete, pos := TakeParameters(file, pos);
        if !complete {
          return;
        }
      }
      if marker == SOS {
        scan, seen := true, true;
      }
    }
  }

  lemma BareUnit(m: Byte, t: Bytes)
    requires Bare(m)
    ensures ReadParameters(m, t) == Some([])
  {
  }
}
