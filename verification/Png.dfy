// Is a PNG file whole? The chunk grammar of sections 5.3 and 5.6 of ISO/IEC
// 15948, and the block-wise reader that checks it.
module Png {
  import opened Optional
  import opened Text

  const SIGNATURE: Bytes := [137, 80, 78, 71, 13, 10, 26, 10]
  const IHDR: Bytes := [73, 72, 68, 82]
  const IDAT: Bytes := [73, 68, 65, 84]
  const IEND: Bytes := [73, 69, 78, 68]
  const INT_MAX := 0x7fff_ffff
  const TWO_TO_32 := 0x1_0000_0000
  const BLOCK := 8192

  // One step of the CRC register.
  type Crc = (int, Byte) -> int

  // crc32 over a block, continuing from the value so far.
  function Crc32(crc: Crc, from: int, s: Bytes): int {
    if s == [] then from else crc(Crc32(crc, from, s[..|s| - 1]), s[|s| - 1])
  }

  lemma {:induction false} CrcInBlocks(crc: Crc, from: int, a: Bytes, b: Bytes)
    ensures Crc32(crc, from, a + b) == Crc32(crc, Crc32(crc, from, a), b)
  {
    if b == [] {
      assert a + b == a;
    } else {
      assert (a + b)[..|a + b| - 1] == a + b[..|b| - 1];
      CrcInBlocks(crc, from, a, b[..|b| - 1]);
    }
  }

  // ---- Numbers, four bytes, most significant first ----

  function Value32(s: Bytes): (n: nat)
    requires |s| == 4
    ensures n < TWO_TO_32
  {
    ((s[0] as int * 256 + s[1] as int) * 256 + s[2] as int) * 256 + s[3] as int
  }

  function Be32(n: int): (s: Bytes)
    requires 0 <= n < TWO_TO_32
    ensures |s| == 4
  {
    [n / 16777216, n / 65536 % 256, n / 256 % 256, n % 256]
  }

  lemma Be32Value(n: int)
    requires 0 <= n < TWO_TO_32
    ensures Value32(Be32(n)) == n
  {
    assert n / 65536 == n / 256 / 256 && n / 16777216 == n / 65536 / 256;
  }

  lemma ValueBe32(s: Bytes)
    requires |s| == 4
    ensures Be32(Value32(s)) == s
  {
    var a, b, c, d := s[0] as int, s[1] as int, s[2] as int, s[3] as int;
    var n := ((a * 256 + b) * 256 + c) * 256 + d;
    assert n / 256 == (a * 256 + b) * 256 + c && n % 256 == d;
    assert n / 65536 == a * 256 + b && n / 256 % 256 == c;
    assert n / 16777216 == a && n / 65536 % 256 == b;
  }

  // ---- The grammar ----

  datatype Chunk = Chunk(kind: Bytes, data: Bytes)

  predicate ValidDepth(color: int, depth: int) {
    || (color == 0 && depth in {1, 2, 4, 8, 16})
    || (color == 3 && depth in {1, 2, 4, 8})
    || (color in {2, 4, 6} && depth in {8, 16})
  }

  predicate GoodHeader(data: Bytes) {
    && |data| == 13
    && 1 <= Value32(data[..4]) <= INT_MAX && 1 <= Value32(data[4..8]) <= INT_MAX
    && ValidDepth(data[9], data[8]) && data[10] == 0 && data[11] == 0 && data[12] <= 1
  }

  // After the header: no second one, image data somewhere, and an empty end chunk last.
  predicate Continues(chunks: seq<Chunk>, seenData: bool) {
    chunks != [] && |chunks[0].kind| == 4 && chunks[0].kind != IHDR && |chunks[0].data| <= INT_MAX &&
    if chunks[0].kind == IEND then chunks[0].data == [] && seenData && |chunks| == 1
    else Continues(chunks[1..], seenData || (chunks[0].kind == IDAT && chunks[0].data != []))
  }

  predicate WellFormed(chunks: seq<Chunk>) {
    chunks != [] && chunks[0].kind == IHDR && GoodHeader(chunks[0].data) && Continues(chunks[1..], false)
  }

  function Checksum(crc: Crc, kind: Bytes, data: Bytes): (n: int)
    ensures 0 <= n < TWO_TO_32
  {
    Crc32(crc, 0, kind + data) % TWO_TO_32
  }

  function WriteChunk(crc: Crc, c: Chunk): Bytes
    requires |c.data| <= INT_MAX
  {
    Be32(|c.data|) + c.kind + c.data + Be32(Checksum(crc, c.kind, c.data))
  }

  function WriteChunks(crc: Crc, chunks: seq<Chunk>): Bytes
    requires forall c | c in chunks :: |c.data| <= INT_MAX
  {
    if chunks == [] then [] else WriteChunk(crc, chunks[0]) + WriteChunks(crc, chunks[1..])
  }

  // ---- What the reader accepts ----

  // The chunk a byte string starts with, if its length, bytes and CRC are all there.
  function ReadChunk(crc: Crc, t: Bytes): Option<Chunk> {
    if |t| < 8 then None
    else
      var length := Value32(t[..4]);
      if length > INT_MAX || |t| < 12 + length then None
      else
        var kind, data := t[4..8], t[8..8 + length];
        if Value32(t[8 + length..12 + length]) == Checksum(crc, kind, data) then Some(Chunk(kind, data)) else None
  }

  predicate AcceptsRest(crc: Crc, t: Bytes, seenData: bool)
    decreases |t|
  {
    match ReadChunk(crc, t)
    case None => false
    case Some(c) =>
      if c.kind == IHDR then false
      else if c.kind == IEND then c.data == [] && seenData && |t| == 12
      else AcceptsRest(crc, t[12 + |c.data|..], seenData || (c.kind == IDAT && c.data != []))
  }

  // What follows the signature: the header's data, if all is well.
  function Body(crc: Crc, t: Bytes): Option<Bytes> {
    match ReadChunk(crc, t)
    case None => None
    case Some(c) =>
      if c.kind == IHDR && GoodHeader(c.data) && AcceptsRest(crc, t[12 + |c.data|..], false) then Some(c.data) else None
  }

  function Accepted(crc: Crc, file: Bytes): Option<Bytes> {
    if |file| < 8 || file[..8] != SIGNATURE then None else Body(crc, file[8..])
  }

  // ---- Reader and grammar agree ----

  lemma ReadWritten(crc: Crc, c: Chunk, rest: Bytes)
    requires |c.kind| == 4 && |c.data| <= INT_MAX
    ensures ReadChunk(crc, WriteChunk(crc, c) + rest) == Some(c)
    ensures |WriteChunk(crc, c)| == 12 + |c.data| && (WriteChunk(crc, c) + rest)[12 + |c.data|..] == rest
  {
    var n, sum := |c.data|, Checksum(crc, c.kind, c.data);
    var t := WriteChunk(crc, c) + rest;
    Be32Value(n);
    Be32Value(sum);
    hide Be32, Value32, Checksum;
    assert t[..4] == Be32(n) && t[4..8] == c.kind && t[8..8 + n] == c.data && t[8 + n..12 + n] == Be32(sum);
  }

  lemma WrittenRead(crc: Crc, t: Bytes)
    requires ReadChunk(crc, t).Some?
    ensures var c := ReadChunk(crc, t).value;
      |c.kind| == 4 && |c.data| <= INT_MAX && 12 + |c.data| <= |t| && t == WriteChunk(crc, c) + t[12 + |c.data|..]
  {
    var c := ReadChunk(crc, t).value;
    var n := |c.data|;
    ValueBe32(t[..4]);
    ValueBe32(t[8 + n..12 + n]);
    hide Be32, Value32, Checksum;
    InFive(t, n);
  }

  lemma InFive(t: Bytes, n: nat)
    requires 12 + n <= |t|
    ensures t == t[..4] + t[4..8] + t[8..8 + n] + t[8 + n..12 + n] + t[12 + n..]
  {
    assert t[..8] == t[..4] + t[4..8];
    assert t[..8 + n] == t[..8] + t[8..8 + n];
    assert t[..12 + n] == t[..8 + n] + t[8 + n..12 + n];
    assert t == t[..12 + n] + t[12 + n..];
  }

  lemma {:induction false} ContinuesSmall(chunks: seq<Chunk>, seenData: bool)
    requires Continues(chunks, seenData)
    ensures forall c | c in chunks :: |c.data| <= INT_MAX
    decreases |chunks|
  {
    if chunks[0].kind != IEND {
      ContinuesSmall(chunks[1..], seenData || (chunks[0].kind == IDAT && chunks[0].data != []));
    }
  }

  lemma {:induction false} GrammarIsAccepted(crc: Crc, chunks: seq<Chunk>, seenData: bool)
    requires Continues(chunks, seenData) && forall c | c in chunks :: |c.data| <= INT_MAX
    ensures AcceptsRest(crc, WriteChunks(crc, chunks), seenData)
    decreases |chunks|
  {
    hide WriteChunk, ReadChunk;
    var c, rest := chunks[0], WriteChunks(crc, chunks[1..]);
    ReadWritten(crc, c, rest);
    if c.kind == IEND {
      assert chunks[1..] == [] && WriteChunks(crc, []) == [];
    } else {
      GrammarIsAccepted(crc, chunks[1..], seenData || (c.kind == IDAT && c.data != []));
    }
  }

  lemma {:induction false} AcceptedIsGrammar(crc: Crc, t: Bytes, seenData: bool) returns (chunks: seq<Chunk>)
    requires AcceptsRest(crc, t, seenData)
    ensures Continues(chunks, seenData) && (forall c | c in chunks :: |c.data| <= INT_MAX) && WriteChunks(crc, chunks) == t
    decreases |t|
  {
    hide WriteChunk, ReadChunk;
    var c := ReadChunk(crc, t).value;
    WrittenRead(crc, t);
    if c.kind == IEND {
      chunks := [c];
      assert chunks[1..] == [] && WriteChunks(crc, []) == [] && t[12..] == [];
      assert WriteChunk(crc, c) + [] == t;
    } else {
      var rest := AcceptedIsGrammar(crc, t[12 + |c.data|..], seenData || (c.kind == IDAT && c.data != []));
      chunks := [c] + rest;
      assert chunks[1..] == rest;
    }
  }

  ghost predicate Conforms(crc: Crc, file: Bytes, chunks: seq<Chunk>) {
    WellFormed(chunks) && (forall c | c in chunks :: |c.data| <= INT_MAX) && file == SIGNATURE + WriteChunks(crc, chunks)
  }

  // A file is accepted if and only if it is the signature and a well-formed list
  // of chunks with matching CRCs, and nothing else.
  lemma AcceptedIffConforms(crc: Crc, file: Bytes)
    ensures Accepted(crc, file).Some? <==> exists chunks :: Conforms(crc, file, chunks)
    ensures forall chunks: seq<Chunk> | Conforms(crc, file, chunks) :: Accepted(crc, file) == Some(chunks[0].data)
  {
    if Accepted(crc, file).Some? {
      var chunks := ChunksOf(crc, file);
      assert Conforms(crc, file, chunks);
    }
    forall chunks: seq<Chunk> | Conforms(crc, file, chunks) ensures Accepted(crc, file) == Some(chunks[0].data) {
      ConformingIsAccepted(crc, file, chunks);
    }
  }

  lemma ChunksOf(crc: Crc, file: Bytes) returns (chunks: seq<Chunk>)
    requires Accepted(crc, file).Some?
    ensures Conforms(crc, file, chunks)
  {
    hide WriteChunk, ReadChunk, GoodHeader, Continues;
    var t: Bytes := file[8..];
    var c := ReadChunk(crc, t).value;
    WrittenRead(crc, t);
    var rest := AcceptedIsGrammar(crc, t[12 + |c.data|..], false);
    chunks := [c] + rest;
    assert chunks[1..] == rest && file == file[..8] + t;
  }

  lemma ConformingIsAccepted(crc: Crc, file: Bytes, chunks: seq<Chunk>)
    requires Conforms(crc, file, chunks)
    ensures Accepted(crc, file) == Some(chunks[0].data)
  {
    hide WriteChunk, ReadChunk, Continues;
    var c, rest := chunks[0], WriteChunks(crc, chunks[1..]);
    assert file[8..] == WriteChunk(crc, c) + rest && file[..8] == SIGNATURE;
    ReadWritten(crc, c, rest);
    GrammarIsAccepted(crc, chunks[1..], false);
  }

  // ---- Truncation ----

  lemma {:induction false} NoProperPrefix(crc: Crc, t: Bytes, seenData: bool, n: nat)
    requires AcceptsRest(crc, t, seenData) && n < |t|
    ensures !AcceptsRest(crc, t[..n], seenData)
    decreases |t|
  {
    ReadPrefix(crc, t, n);
    RestIs(crc, t, seenData);
    RestIs(crc, t[..n], seenData);
    hide ReadChunk, AcceptsRest;
    var c := ReadChunk(crc, t).value;
    var size := 12 + |c.data|;
    if n >= size {
      CutAndTake(t, size, n);
      NoProperPrefix(crc, t[size..], seenData || (c.kind == IDAT && c.data != []), n - size);
    }
  }

  lemma RestIs(crc: Crc, t: Bytes, seenData: bool)
    ensures var c := ReadChunk(crc, t);
      AcceptsRest(crc, t, seenData) <==>
        c.Some? && c.value.kind != IHDR && 12 + |c.value.data| <= |t| &&
        if c.value.kind == IEND then c.value.data == [] && seenData && |t| == 12
        else AcceptsRest(crc, t[12 + |c.value.data|..], seenData || (c.value.kind == IDAT && c.value.data != []))
  {
    if ReadChunk(crc, t).Some? {
      WrittenRead(crc, t);
    }
    hide ReadChunk;
  }

  lemma ReadPrefix(crc: Crc, t: Bytes, n: nat)
    requires ReadChunk(crc, t).Some? && n <= |t|
    ensures 12 + |ReadChunk(crc, t).value.data| <= |t|
    ensures ReadChunk(crc, t[..n]) == if n >= 12 + |ReadChunk(crc, t).value.data| then ReadChunk(crc, t) else None
  {
    hide Value32, Checksum;
    var c := ReadChunk(crc, t).value;
    var length := |c.data|;
    if n >= 8 {
      assert t[..n][..4] == t[..4];
      if n >= 12 + length {
        assert t[..n][4..8] == t[4..8] && t[..n][8..8 + length] == t[8..8 + length];
        assert t[..n][8 + length..12 + length] == t[8 + length..12 + length];
      }
    }
  }

  lemma CutAndTake(t: Bytes, size: nat, n: nat)
    requires size <= n <= |t|
    ensures t[..n][size..] == t[size..][..n - size]
  {
  }

  lemma BodyPrefix(crc: Crc, t: Bytes, n: nat)
    requires Body(crc, t).Some? && n < |t|
    ensures Body(crc, t[..n]).None?
  {
    var size := 12 + |ReadChunk(crc, t).value.data|;
    ReadPrefix(crc, t, n);
    hide ReadChunk, GoodHeader, AcceptsRest;
    if n >= size {
      CutAndTake(t, size, n);
      NoProperPrefix(crc, t[size..], false, n - size);
    }
  }

  // No proper prefix of an accepted file is accepted.
  lemma TruncationIsDetected(crc: Crc, file: Bytes, n: nat)
    requires Accepted(crc, file).Some? && n < |file|
    ensures Accepted(crc, file[..n]).None?
  {
    hide Body;
    if n >= 8 {
      assert file[..n][8..] == file[8..][..n - 8];
      BodyPrefix(crc, file[8..], n - 8);
    }
  }

  // The reader's tests, at a position of the file.
  lemma AcceptsAt(crc: Crc, file: Bytes, pos: nat, seenData: bool)
    requires pos <= |file|
    ensures var c := ReadChunk(crc, file[pos..]);
      && (c.None? ==> !AcceptsRest(crc, file[pos..], seenData))
      && (c.Some? ==> pos + 12 + |c.value.data| <= |file|)
      && (c.Some? && c.value.kind == IHDR ==> !AcceptsRest(crc, file[pos..], seenData))
      && (c.Some? && c.value.kind == IEND ==>
            (AcceptsRest(crc, file[pos..], seenData) <==> c.value.data == [] && seenData && pos + 12 == |file|))
      && (c.Some? && c.value.kind != IHDR && c.value.kind != IEND ==>
            (AcceptsRest(crc, file[pos..], seenData) <==>
               AcceptsRest(crc, file[pos + 12 + |c.value.data|..], seenData || (c.value.kind == IDAT && c.value.data != []))))
  {
    var t: Bytes := file[pos..];
    if ReadChunk(crc, t).Some? {
      WrittenRead(crc, t);
      var n := |ReadChunk(crc, t).value.data|;
      assert t[12 + n..] == file[pos + 12 + n..];
    }
    hide ReadChunk;
  }

  lemma BodyAt(crc: Crc, file: Bytes)
    requires |file| >= 8 && file[..8] == SIGNATURE
    ensures var c := ReadChunk(crc, file[8..]);
      && (c.None? || c.value.kind != IHDR || !GoodHeader(c.value.data) ==> Accepted(crc, file).None?)
      && (c.Some? ==> 20 + |c.value.data| <= |file|)
      && (c.Some? && c.value.kind == IHDR && GoodHeader(c.value.data) ==>
            Accepted(crc, file) == if AcceptsRest(crc, file[20 + |c.value.data|..], false) then Some(c.value.data) else None)
  {
    var t: Bytes := file[8..];
    if ReadChunk(crc, t).Some? {
      WrittenRead(crc, t);
      var n := |ReadChunk(crc, t).value.data|;
      assert t[12 + n..] == file[20 + n..];
    }
    hide ReadChunk, AcceptsRest, GoodHeader;
  }

  lemma TooShort(crc: Crc, file: Bytes, pos: nat)
    requires pos <= |file| < pos + 8
    ensures ReadChunk(crc, file[pos..]).None?
  {
  }

  // ---- The reader ----

  // The data of a chunk, read in blocks, with the CRC carried along. It is
  // complete if the file holds it all and a header's fields are good.
  method CheckData(crc: Crc, file: Bytes, from: nat, length: nat, kind: Bytes) returns (complete: bool, sum: int)
    requires from <= |file| && (kind == IHDR ==> length == 13)
    ensures complete <==> from + length <= |file| && (kind == IHDR ==> GoodHeader(file[from..from + length]))
    ensures complete ==> sum == Crc32(crc, 0, kind + file[from..from + length])
  {
    hide GoodHeader, Crc32;
    sum := Crc32(crc, 0, kind);
    var pos, remaining := from, length;
    assert file[from..pos] == [] && kind + [] == kind;
    while remaining > 0
      invariant 0 <= remaining && pos + remaining == from + length && from <= pos <= |file|
      invariant sum == Crc32(crc, 0, kind + file[from..pos])
      invariant kind == IHDR && pos > from ==> remaining == 0 && GoodHeader(file[from..pos])
      decreases remaining
    {
      var n := if remaining < BLOCK then remaining else BLOCK;
      if pos + n > |file| {
        return false, sum;
      }
      var block := file[pos..pos + n];
      CrcInBlocks(crc, 0, kind + file[from..pos], block);
      assert kind + file[from..pos] + block == kind + file[from..pos + n];
      sum := Crc32(crc, sum, block);
      if kind == IHDR && !GoodHeader(block) {
        assert file[from..from + length] == block;
        return false, sum;
      }
      pos, remaining := pos + n, remaining - n;
    }
    assert pos == from + length;
    complete := true;
  }

  // What a chunk must be where it stands.
  predicate Admissible(c: Chunk, seenHeader: bool, seenData: bool) {
    && (seenHeader || c.kind == IHDR) && (c.kind == IHDR ==> !seenHeader && GoodHeader(c.data))
    && (c.kind == IEND ==> c.data == [] && seenData)
  }

  // One turn of the reading loop, at the eight bytes that begin a chunk.
  method TakeChunk(crc: Crc, file: Bytes, pos: nat, seenHeader: bool, seenData: bool) returns (taken: Option<Chunk>)
    requires pos + 8 <= |file|
    ensures var c := ReadChunk(crc, file[pos..]);
      taken == if c.Some? && Admissible(c.value, seenHeader, seenData) then c else None
  {
    hide Value32, Crc32, ReadChunk, GoodHeader;
    HeaderSize();
    ChunkAt(crc, file, pos);
    var length, kind := Value32(file[pos..pos + 4]), file[pos + 4..pos + 8];
    taken := None;
    if length > INT_MAX || (!seenHeader && kind != IHDR) {
      return;
    }
    if kind == IHDR && (seenHeader || length != 13) {
      return;
    }
    if kind == IEND && (length > 0 || !seenData) {
      return;
    }
    var complete, sum := CheckData(crc, file, pos + 8, length, kind);
    if !complete {
      return;
    }
    if pos + 12 + length > |file| || Value32(file[pos + 8 + length..pos + 12 + length]) != sum % TWO_TO_32 {
      return;
    }
    taken := Some(Chunk(kind, file[pos + 8..pos + 8 + length]));
  }

  // enil_png_info
  method PngInfo(crc: Crc, file: Bytes) returns (ok: bool, width: int, height: int)
    ensures ok <==> Accepted(crc, file).Some?
    ensures ok ==> var h := Accepted(crc, file).value;
      |h| == 13 && width == Value32(h[..4]) && height == Value32(h[4..8])
    ensures !ok ==> width == 0 && height == 0
  {
    hide Value32, Accepted, AcceptsRest, ReadChunk, GoodHeader;
    AcceptedNeedsSignature(crc, file);
    HeaderSize();
    ok, width, height := false, 0, 0;
    if |file| < 8 || file[..8] != SIGNATURE {
      return;
    }
    BodyAt(crc, file);
    var pos, w, h, seenHeader, seenData := 8, 0, 0, false, false;
    while pos + 8 <= |file|
      invariant 8 <= pos <= |file| && (!seenHeader ==> pos == 8 && !seenData)
      invariant seenHeader ==> (Accepted(crc, file).Some? <==> AcceptsRest(crc, file[pos..], seenData))
      invariant seenHeader && Accepted(crc, file).Some? ==>
        |Accepted(crc, file).value| == 13 && w == Value32(Accepted(crc, file).value[..4]) && h == Value32(Accepted(crc, file).value[4..8])
      decreases |file| - pos
    {
      AcceptsAt(crc, file, pos, seenData);
      var taken := TakeChunk(crc, file, pos, seenHeader, seenData);
      if taken.None? {
        return;
      }
      var c := taken.value;
      pos := pos + 12 + |c.data|;
      if c.kind == IHDR {
        w, h, seenHeader := Value32(c.data[..4]), Value32(c.data[4..8]), true;
      }
      if c.kind == IDAT && c.data != [] {
        seenData := true;
      }
      if c.kind == IEND {
        ok := pos == |file|;
        if ok {
          width, height := w, h;
        }
        return;
      }
    }
    TooShort(crc, file, pos);
    AcceptsAt(crc, file, pos, seenData);
  }

  lemma AcceptedNeedsSignature(crc: Crc, file: Bytes)
    ensures Accepted(crc, file).Some? ==> |file| >= 8 && file[..8] == SIGNATURE
  {
  }

  lemma HeaderSize()
    ensures forall data :: GoodHeader(data) ==> |data| == 13
  {
  }

  // The chunk at a position of the file, in the terms the reader uses.
  lemma ChunkAt(crc: Crc, file: Bytes, pos: nat)
    requires pos + 8 <= |file|
    ensures var length, kind := Value32(file[pos..pos + 4]), file[pos + 4..pos + 8];
      && (length > INT_MAX || pos + 12 + length > |file| ==> ReadChunk(crc, file[pos..]) == None)
      && (length <= INT_MAX && pos + 12 + length <= |file| ==>
            ReadChunk(crc, file[pos..]) ==
              if Value32(file[pos + 8 + length..pos + 12 + length]) == Crc32(crc, 0, kind + file[pos + 8..pos + 8 + length]) % TWO_TO_32
              then Some(Chunk(kind, file[pos + 8..pos + 8 + length])) else None)
  {
    hide Value32, Crc32;
    var t: Bytes := file[pos..];
    assert t[..4] == file[pos..pos + 4] && t[4..8] == file[pos + 4..pos + 8];
    var length := Value32(t[..4]);
    if length <= INT_MAX && |t| >= 12 + length {
      assert t[8..8 + length] == file[pos + 8..pos + 8 + length];
      assert t[8 + length..12 + length] == file[pos + 8 + length..pos + 12 + length];
    }
  }
}
