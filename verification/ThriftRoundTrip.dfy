// Writing and then reading: what the bounded reader makes of the writer's bytes,
// for every schema, every value and every pair of schema versions.
module ThriftRoundTrip {
  import opened Optional
  import opened Text
  import opened Ieee
  import opened Json
  import opened ThriftSchema
  import opened ThriftEncoding
  import opened ThriftParsing

  // A reader's schema table may know fewer fields than the writer's, but where
  // both know a field id they agree on its type.
  predicate FieldsAgree(known: seq<Field>, written: seq<Field>) {
    && DistinctNames(known)
    && forall i :: 0 <= i < |written| ==>
         FindField(known, written[i].id).Some? ==> FindField(known, written[i].id).value.ty == written[i].ty
  }

  predicate Compatible(reader: Env, writer: Env) {
    forall name :: name in writer.structs ==>
      && AscendingIds(writer.structs[name])
      && (name in reader.structs ==> FieldsAgree(reader.structs[name], writer.structs[name]))
  }

  // ---- The value a reader recovers, without any bytes ----

  function RecoveredScalar(re: Env, rt: Option<Type>, we: Env, wt: Type, v: Json): Json
    requires EncodeScalar(we, wt, v).Some?
  {
    match wt
    case TBool => v
    case TDouble => v
    case TString => v
    case TI64 => Str(Decimal(JsonInteger(v).value))
    case TBinary =>
      var raw := we.b64Decode(v.s).value;
      Str(if rt.Some? then re.b64Encode(raw) else UpToNul(raw))
    case _ => Num(FromInt(JsonInteger(v).value))
  }

  // rt is the type the reader expects, if it knows one. None: the reader refuses.
  function Recovered(re: Env, rt: Option<Type>, we: Env, wt: Type, v: Json, depth: nat): Option<Json>
    requires depth <= MAX_DEPTH + 1
    requires EncodeValue(we, wt, v, depth).Some?
    decreases MAX_DEPTH + 1 - depth, 2, 0
  {
    match wt
    case TList(elem) => RecoveredList(re, ElemType(rt), we, elem, v, depth + 1)
    case TSet(elem) => RecoveredList(re, ElemType(rt), we, elem, v, depth + 1)
    case TMap(key, value) => RecoveredMap(re, KeyType(rt), ValueType(rt), we, key, value, v, depth + 1)
    case TStruct(_) => RecoveredStruct(re, StructFields(re, rt), we, StructFields(we, Some(wt)), v, depth + 1)
    case _ => Some(RecoveredScalar(re, rt, we, wt, v))
  }

  function RecoveredList(re: Env, rt: Option<Type>, we: Env, wt: Type, v: Json, depth: nat): Option<Json>
    requires depth <= MAX_DEPTH + 1 && EncodeList(we, wt, v, depth).Some?
    decreases MAX_DEPTH + 1 - depth, 4, 0
  {
    if |v.items| > MAX_COUNT then None
    else
      match RecoveredItems(re, rt, we, wt, v.items, depth)
      case None => None
      case Some(vs) => Some(Arr(vs))
  }

  function RecoveredMap(re: Env, rk: Option<Type>, rv: Option<Type>, we: Env, wk: Type, wv: Type, v: Json,
      depth: nat): Option<Json>
    requires depth <= MAX_DEPTH + 1 && EncodeMap(we, wk, wv, v, depth).Some?
    decreases MAX_DEPTH + 1 - depth, 4, 0
  {
    if |v.members| > MAX_COUNT then None
    else
      match RecoveredEntries(re, rk, rv, we, wk, wv, v.members, depth)
      case None => None
      case Some(ms) => Some(Obj(ms))
  }

  function RecoveredItems(re: Env, rt: Option<Type>, we: Env, wt: Type, items: seq<Json>, depth: nat): Option<seq<Json>>
    requires depth <= MAX_DEPTH + 1 && EncodeItems(we, wt, items, depth).Some?
    decreases MAX_DEPTH + 1 - depth, 3, |items|
  {
    if items == [] then Some([])
    else
      match (Recovered(re, rt, we, wt, items[0], depth), RecoveredItems(re, rt, we, wt, items[1..], depth))
      case (Some(v), Some(vs)) => Some([v] + vs)
      case _ => None
  }

  function RecoveredEntry(re: Env, rk: Option<Type>, rv: Option<Type>, we: Env, wk: Type, wv: Type, m: Member,
      depth: nat): Option<Member>
    requires depth <= MAX_DEPTH + 1 && EncodeEntry(we, wk, wv, m, depth).Some?
    decreases MAX_DEPTH + 1 - depth, 3, 0
  {
    match (Recovered(re, rk, we, wk, Str(m.key), depth), Recovered(re, rv, we, wv, m.value, depth))
    case (Some(k), Some(v)) =>
      (match EntryKey(re, k)
       case Some(key) => Some(Member(key, v))
       case None => None)
    case _ => None
  }

  function RecoveredEntries(re: Env, rk: Option<Type>, rv: Option<Type>, we: Env, wk: Type, wv: Type,
      ms: seq<Member>, depth: nat): Option<seq<Member>>
    requires depth <= MAX_DEPTH + 1 && EncodeEntries(we, wk, wv, ms, depth).Some?
    decreases MAX_DEPTH + 1 - depth, 3, |ms|
  {
    if ms == [] then Some([])
    else
      match (RecoveredEntry(re, rk, rv, we, wk, wv, ms[0], depth), RecoveredEntries(re, rk, rv, we, wk, wv, ms[1..], depth))
      case (Some(m), Some(rest)) => Some([m] + rest)
      case _ => None
  }

  function RecoveredStruct(re: Env, rf: Option<seq<Field>>, we: Env, wf: Option<seq<Field>>, v: Json, depth: nat): Option<Json>
    requires depth <= MAX_DEPTH + 1 && EncodeStruct(we, wf, v, depth).Some?
    decreases MAX_DEPTH + 1 - depth, 1, 0
  {
    match RecoveredFields(re, rf, we, wf.value, 0, 0, v, depth)
    case None => None
    case Some(ms) => Some(Obj(ms))
  }

  // A bool field is charged one level of nesting by the reader, not the writer.
  function RecoveredField(re: Env, rf: Option<seq<Field>>, we: Env, f: Field, last: int, x: Json, depth: nat): Option<Json>
    requires depth <= MAX_DEPTH && EncodeField(we, f, last, x, depth).Some?
    decreases MAX_DEPTH + 1 - depth, 0, 0
  {
    if f.ty != TBool then Recovered(re, TypeFor(rf, f.id), we, f.ty, x, depth + 1)
    else if depth + 1 <= MAX_DEPTH then Some(x)
    else None
  }

  function RecoveredFields(re: Env, rf: Option<seq<Field>>, we: Env, wf: seq<Field>, index: nat, last: int,
      v: Json, depth: nat): Option<seq<Member>>
    requires depth <= MAX_DEPTH && index <= |wf|
    requires EncodeFields(we, wf, index, last, v, depth).Some?
    decreases MAX_DEPTH + 1 - depth, 0, |wf| - index + 1
  {
    if index == |wf| then Some([])
    else
      var f := wf[index];
      match Pick(f, index, v)
      case None => RecoveredFields(re, rf, we, wf, index + 1, last, v, depth)
      case Some(x) =>
        match (RecoveredField(re, rf, we, f, last, x, depth), RecoveredFields(re, rf, we, wf, index + 1, f.id, v, depth))
        case (Some(y), Some(rest)) => Some([Member(KeyFor(rf, f.id), y)] + rest)
        case _ => None
  }

  function Outcome<T>(r: Option<T>, rest: Bytes): Parse<T> {
    match r
    case Some(x) => Ok(x, rest)
    case None => Fail
  }

  lemma Assoc(a: Bytes, b: Bytes, c: Bytes)
    ensures (a + b) + c == a + (b + c)
  {
  }

  // ---- Scalars ----

  lemma VarintStep(c: Byte, tail: Bytes, i: nat)
    requires i <= 9 && (i < 9 || c <= 1)
    ensures ParseVarint([c] + tail, i) ==
      if c < 128 then Ok(c, tail)
      else match ParseVarint(tail, i + 1) { case Fail => Fail case Ok(n, rest) => Ok(c - 128 + 128 * n, rest) }
  {
    assert ([c] + tail)[1..] == tail;
  }

  lemma {:induction false} VarintRoundTrip(n: nat, suffix: Bytes, i: nat := 0)
    requires i <= 9 && n < VarintCap(i)
    ensures ParseVarint(EncodeVarint(n) + suffix, i) == Ok(n, suffix)
    decreases 9 - i
  {
    hide ParseVarint;
    if n < 128 {
      VarintStep(n, suffix, i);
    } else {
      VarintRoundTrip(n / 128, suffix, i + 1);
      VarintStep(n % 128 + 128, EncodeVarint(n / 128) + suffix, i);
      Assoc([n % 128 + 128], EncodeVarint(n / 128), suffix);
    }
  }

  lemma IntegerRoundTrip(n: int, suffix: Bytes)
    requires IsInt64(n)
    ensures ParseSigned(EncodeVarint(ZigZag(n)) + suffix) == Ok(n, suffix)
  {
    assert VarintCap(0) == TWO_TO_64;
    VarintRoundTrip(ZigZag(n), suffix);
  }

  lemma {:induction false} LittleEndianRoundTrip(bits: nat, count: nat)
    requires bits < Pow256(count)
    ensures FromLittleEndian(LittleEndian(bits, count)) == bits
  {
    if count > 0 {
      LittleEndianRoundTrip(bits / 256, count - 1);
      assert LittleEndian(bits, count)[1..] == LittleEndian(bits / 256, count - 1);
    }
  }

  lemma DoubleRoundTrip(bits: Bits, suffix: Bytes)
    ensures var s := LittleEndian(bits, 8) + suffix;
      FromLittleEndian(s[..8]) == bits && s[8..] == suffix
  {
    LittleEndianRange(LittleEndian(bits, 8));
    assert Pow256(4) == 0x1_0000_0000 && Pow256(8) == 256 * (256 * (256 * (256 * Pow256(4))));
    LittleEndianRoundTrip(bits, 8);
    assert (LittleEndian(bits, 8) + suffix)[..8] == LittleEndian(bits, 8);
    assert (LittleEndian(bits, 8) + suffix)[8..] == suffix;
  }

  lemma BlobRoundTrip(re: Env, rt: Option<Type>, raw: Bytes, suffix: Bytes)
    requires |raw| <= MAX_WIRE_SIZE
    ensures ParseBlob(re, false, rt, EncodeBlob(raw) + suffix)
         == match BlobText(re, false, rt, raw) { case None => Fail case Some(text) => Ok(Str(text), suffix) }
  {
    assert VarintCap(0) == TWO_TO_64;
    assert EncodeBlob(raw) + suffix == EncodeVarint(|raw|) + (raw + suffix);
    VarintRoundTrip(|raw|, raw + suffix);
    assert (raw + suffix)[..|raw|] == raw && (raw + suffix)[|raw|..] == suffix;
  }

  lemma ListHeaderRoundTrip(elem: Type, count: nat, suffix: Bytes)
    requires count < TWO_TO_64
    ensures ParseListHeader(ListHeader(elem, count) + suffix) == Ok(Header(0, CompactType(elem), count), suffix)
  {
    hide EncodeVarint, ParseVarint;
    var s := ListHeader(elem, count) + suffix;
    if count < 15 {
      assert s[1..] == suffix;
    } else {
      assert VarintCap(0) == TWO_TO_64;
      assert s[1..] == EncodeVarint(count) + suffix;
      VarintRoundTrip(count, suffix);
    }
  }

  lemma MapHeaderRoundTrip(key: Type, value: Type, count: nat, suffix: Bytes)
    requires count < TWO_TO_64
    ensures ParseMapHeader(MapHeader(key, value, count) + suffix)
         == Ok(if count == 0 then Header(0, 0, 0) else Header(CompactType(key), CompactType(value), count), suffix)
  {
    hide EncodeVarint, ParseVarint;
    assert VarintCap(0) == TWO_TO_64;
    if count == 0 {
      VarintRoundTrip(0, suffix);
    } else {
      var kinds := [CompactType(key) * 16 + CompactType(value)];
      assert MapHeader(key, value, count) + suffix == EncodeVarint(count) + (kinds + suffix);
      VarintRoundTrip(count, kinds + suffix);
      assert (kinds + suffix)[1..] == suffix;
    }
  }

  lemma HeadRoundTrip(last: int, id: int, code: int, suffix: Bytes)
    requires IsId(last) && IsId(id) && 1 <= code <= 12
    ensures ParseHead(FieldHeader(last, id, code) + suffix, last) == Ok(Head(id, code), suffix)
  {
    hide ParseSigned, EncodeVarint, ZigZag;
    var s := FieldHeader(last, id, code) + suffix;
    if 0 < id - last < 16 {
      assert s[1..] == suffix;
    } else {
      IntegerRoundTrip(id, suffix);
      assert s[1..] == EncodeVarint(ZigZag(id)) + suffix;
    }
  }

  // ---- Keys of distinct fields never collide ----

  lemma KeysDistinct(known: Option<seq<Field>>, a: int, b: int)
    requires known.Some? ==> DistinctNames(known.value)
    requires IsId(a) && IsId(b) && a != b
    ensures !EqualIgnoringCase(KeyFor(known, a), KeyFor(known, b))
  {
    var ka, kb := KeyFor(known, a), KeyFor(known, b);
    if EqualIgnoringCase(ka, kb) {
      assert |ka| > 0 && |kb| > 0 ==> Lower(ka[0]) == Lower(kb[0]);
      match (FieldFor(known, a), FieldFor(known, b))
      case (None, None) => DecimalInjective(a, b);
      case (Some(f), Some(g)) => EqualIgnoringCaseSymmetric(ka, kb);
      case _ =>
    }
  }

  lemma EqualIgnoringCaseSymmetric(a: Bytes, b: Bytes)
    requires EqualIgnoringCase(a, b)
    ensures EqualIgnoringCase(b, a)
  {
  }

  predicate KeyBefore(known: Option<seq<Field>>, written: seq<Field>, index: nat, key: CStr)
    requires index <= |written|
  {
    exists i :: 0 <= i < index && key == KeyFor(known, written[i].id)
  }

  // Every key in seen belongs to a field before position index.
  predicate KeysBefore(known: Option<seq<Field>>, written: seq<Field>, index: nat, seen: seq<CStr>)
    requires index <= |written|
  {
    forall k :: 0 <= k < |seen| ==> KeyBefore(known, written, index, seen[k])
  }

  lemma KeysBeforeGrows(known: Option<seq<Field>>, written: seq<Field>, index: nat, seen: seq<CStr>)
    requires index < |written| && KeysBefore(known, written, index, seen)
    ensures KeysBefore(known, written, index + 1, seen)
  {
    forall k | 0 <= k < |seen| ensures KeyBefore(known, written, index + 1, seen[k]) {
      assert KeyBefore(known, written, index, seen[k]);
    }
  }

  lemma NextKeyIsNew(known: Option<seq<Field>>, written: seq<Field>, index: nat, seen: seq<CStr>)
    requires AscendingIds(written) && index < |written|
    requires known.Some? ==> DistinctNames(known.value)
    requires KeysBefore(known, written, index, seen)
    ensures !HasIgnoringCase(seen, KeyFor(known, written[index].id))
    ensures KeysBefore(known, written, index + 1, seen + [KeyFor(known, written[index].id)])
  {
    var key := KeyFor(known, written[index].id);
    forall k | 0 <= k < |seen| ensures !EqualIgnoringCase(seen[k], key) {
      assert KeyBefore(known, written, index, seen[k]);
      var i :| 0 <= i < index && seen[k] == KeyFor(known, written[i].id);
      KeysDistinct(known, written[i].id, written[index].id);
    }
    KeysBeforeGrows(known, written, index, seen);
    assert KeyBefore(known, written, index + 1, key);
  }

  // ---- The theorem, by recursion on the written structure ----

  predicate Expected(rt: Option<Type>, wt: Type) {
    rt.None? || rt == Some(wt)
  }

  lemma SignedByteRoundTrip(n: int)
    requires -128 <= n <= 127
    ensures SignedByte(LowByte(n)) == n
  {
    assert LowByte(n) == if n < 0 then n + 256 else n;
  }

  lemma IntegerValueRoundTrip(re: Env, rt: Option<Type>, t: Type, v: Json, suffix: Bytes)
    requires 3 <= CompactType(t) <= 6 && EncodeInteger(t, v).Some?
    ensures ParseScalar(re, false, rt, CompactType(t), EncodeInteger(t, v).value + suffix, false)
         == Ok(if t == TI64 then Str(Decimal(JsonInteger(v).value)) else Num(FromInt(JsonInteger(v).value)), suffix)
  {
    var n := JsonInteger(v).value;
    if t == TByte {
      SignedByteRoundTrip(n);
      assert ([LowByte(n)] + suffix)[1..] == suffix;
    } else {
      IntegerRoundTrip(n, suffix);
    }
  }

  lemma StringValueRoundTrip(re: Env, rt: Option<Type>, we: Env, wt: Type, v: Json, b: Bytes, suffix: Bytes)
    requires Expected(rt, wt) && (wt == TString || wt == TBinary)
    requires EncodeString(we, wt, v) == Some(b) && |b| <= MAX_WIRE_SIZE
    ensures ParseBlob(re, false, rt, b + suffix) == Ok(RecoveredScalar(re, rt, we, wt, v), suffix)
  {
    BlobRoundTrip(re, rt, if wt == TString then v.s else we.b64Decode(v.s).value, suffix);
  }

  lemma ScalarRoundTrip(re: Env, rt: Option<Type>, we: Env, wt: Type, v: Json, b: Bytes, suffix: Bytes)
    requires Expected(rt, wt) && CompactType(wt) <= 8
    requires EncodeScalar(we, wt, v) == Some(b) && |b| <= MAX_WIRE_SIZE
    ensures ParseScalar(re, false, rt, CompactType(wt), b + suffix, false)
         == Ok(RecoveredScalar(re, rt, we, wt, v), suffix)
  {
    if wt == TBool {
      assert (b + suffix)[1..] == suffix;
    } else if wt == TDouble {
      DoubleRoundTrip(v.bits, suffix);
    } else if wt == TString || wt == TBinary {
      StringValueRoundTrip(re, rt, we, wt, v, b, suffix);
    } else {
      IntegerValueRoundTrip(re, rt, wt, v, suffix);
    }
  }

  // Reading what was written yields Recovered and stops right after it; the
  // reader refuses exactly when Recovered does.
  lemma {:induction false} ValueRoundTrip(re: Env, rt: Option<Type>, we: Env, wt: Type, v: Json, depth: nat,
      b: Bytes, suffix: Bytes)
    requires Compatible(re, we) && Expected(rt, wt) && depth <= MAX_DEPTH + 1
    requires EncodeValue(we, wt, v, depth) == Some(b) && |b| <= MAX_WIRE_SIZE
    ensures ParseValue(re, false, rt, CompactType(wt), b + suffix, depth, false)
         == Outcome(Recovered(re, rt, we, wt, v, depth), suffix)
    decreases MAX_DEPTH + 1 - depth, 2, 0
  {
    hide ParseList, ParseMap, ParseStruct, ParseScalar, EncodeList, EncodeMap, EncodeStruct, EncodeScalar;
    hide RecoveredList, RecoveredMap, RecoveredStruct, RecoveredScalar;
    match wt
    case TList(elem) => ListRoundTrip(re, ElemType(rt), we, elem, v, depth + 1, b, suffix);
    case TSet(elem) => ListRoundTrip(re, ElemType(rt), we, elem, v, depth + 1, b, suffix);
    case TMap(key, value) => MapRoundTrip(re, KeyType(rt), ValueType(rt), we, key, value, v, depth + 1, b, suffix);
    case TStruct(_) => StructRoundTrip(re, StructFields(re, rt), we, StructFields(we, Some(wt)), v, depth + 1, b, suffix);
    case _ => ScalarRoundTrip(re, rt, we, wt, v, b, suffix);
  }

  lemma {:induction false} ListRoundTrip(re: Env, rt: Option<Type>, we: Env, wt: Type, v: Json, depth: nat,
      b: Bytes, suffix: Bytes)
    requires Compatible(re, we) && Expected(rt, wt) && depth <= MAX_DEPTH + 1
    requires EncodeList(we, wt, v, depth) == Some(b) && |b| <= MAX_WIRE_SIZE
    ensures ParseList(re, false, rt, b + suffix, depth) == Outcome(RecoveredList(re, rt, we, wt, v, depth), suffix)
    decreases MAX_DEPTH + 1 - depth, 4, 0
  {
    hide Compatible, Expected, ParseItems, EncodeItems, RecoveredItems, ParseListHeader, ListHeader;
    var body := EncodeItems(we, wt, v.items, depth).value;
    Assoc(ListHeader(wt, |v.items|), body, suffix);
    ListHeaderRoundTrip(wt, |v.items|, body + suffix);
    ItemsRoundTrip(re, rt, we, wt, v.items, depth, body, suffix);
  }

  lemma ParseMapStep(re: Env, rk: Option<Type>, rv: Option<Type>, s: Bytes, depth: nat, h: Header, rest: Bytes,
      entries: Parse<seq<Member>>)
    requires depth <= MAX_DEPTH + 1
    requires ParseMapHeader(s) == Ok(h, rest) && h.count <= |rest|
    requires ParseEntries(re, false, rk, rv, h.key, h.elem, h.count, rest, depth) == entries
    ensures ParseMap(re, false, rk, rv, s, depth)
         == if h.count > MAX_COUNT then Fail else match entries { case Fail => Fail case Ok(ms, rest') => Ok(Obj(ms), rest') }
  {
    hide ParseEntries, ParseMapHeader;
  }

  lemma RecoveredMapStep(re: Env, rk: Option<Type>, rv: Option<Type>, we: Env, wk: Type, wv: Type, ms: seq<Member>, depth: nat)
    requires depth <= MAX_DEPTH + 1 && EncodeMap(we, wk, wv, Obj(ms), depth).Some?
    ensures EncodeEntries(we, wk, wv, ms, depth).Some?
    ensures RecoveredMap(re, rk, rv, we, wk, wv, Obj(ms), depth)
         == if |ms| > MAX_COUNT then None
            else match RecoveredEntries(re, rk, rv, we, wk, wv, ms, depth) { case None => None case Some(x) => Some(Obj(x)) }
  {
    hide EncodeEntries, RecoveredEntries;
  }

  lemma MapStep(re: Env, rk: Option<Type>, rv: Option<Type>, we: Env, wk: Type, wv: Type, ms: seq<Member>,
      depth: nat, body: Bytes, suffix: Bytes)
    requires depth <= MAX_DEPTH + 1 && |ms| <= |body| < TWO_TO_64
    requires EncodeEntries(we, wk, wv, ms, depth) == Some(body) && EncodeMap(we, wk, wv, Obj(ms), depth).Some?
    requires ParseEntries(re, false, rk, rv, CompactType(wk), CompactType(wv), |ms|, body + suffix, depth)
          == Outcome(RecoveredEntries(re, rk, rv, we, wk, wv, ms, depth), suffix)
    ensures ParseMap(re, false, rk, rv, MapHeader(wk, wv, |ms|) + (body + suffix), depth)
         == Outcome(RecoveredMap(re, rk, rv, we, wk, wv, Obj(ms), depth), suffix)
  {
    hide EncodeEntries, RecoveredEntries, ParseEntries, ParseMap, ParseMapHeader, MapHeader, EncodeMap, RecoveredMap, CompactType;
    RecoveredMapStep(re, rk, rv, we, wk, wv, ms, depth);
    MapHeaderRoundTrip(wk, wv, |ms|, body + suffix);
    var h := if ms == [] then Header(0, 0, 0) else Header(CompactType(wk), CompactType(wv), |ms|);
    assert ParseEntries(re, false, rk, rv, h.key, h.elem, h.count, body + suffix, depth)
        == Outcome(RecoveredEntries(re, rk, rv, we, wk, wv, ms, depth), suffix) by {
      if ms == [] {
        NoEntries(re, rk, rv, we, wk, wv, depth, suffix);
        assert body + suffix == suffix;
      }
    }
    ParseMapStep(re, rk, rv, MapHeader(wk, wv, |ms|) + (body + suffix), depth, h, body + suffix,
                 Outcome(RecoveredEntries(re, rk, rv, we, wk, wv, ms, depth), suffix));
  }

  lemma NoEntries(re: Env, rk: Option<Type>, rv: Option<Type>, we: Env, wk: Type, wv: Type, depth: nat, suffix: Bytes)
    requires depth <= MAX_DEPTH + 1
    ensures forall kcode: nat, vcode: nat :: ParseEntries(re, false, rk, rv, kcode, vcode, 0, suffix, depth) == Ok([], suffix)
    ensures EncodeEntries(we, wk, wv, [], depth) == Some([])
    ensures RecoveredEntries(re, rk, rv, we, wk, wv, [], depth) == Some([])
  {
  }

  lemma {:induction false} MapRoundTrip(re: Env, rk: Option<Type>, rv: Option<Type>, we: Env, wk: Type, wv: Type,
      v: Json, depth: nat, b: Bytes, suffix: Bytes)
    requires Compatible(re, we) && Expected(rk, wk) && Expected(rv, wv) && depth <= MAX_DEPTH + 1
    requires EncodeMap(we, wk, wv, v, depth) == Some(b) && |b| <= MAX_WIRE_SIZE
    ensures ParseMap(re, false, rk, rv, b + suffix, depth) == Outcome(RecoveredMap(re, rk, rv, we, wk, wv, v, depth), suffix)
    decreases MAX_DEPTH + 1 - depth, 4, 0
  {
    hide Compatible, Expected, EncodeEntries, ParseEntries, RecoveredEntries, ParseMap, RecoveredMap, MapHeader;
    var body := EncodeEntries(we, wk, wv, v.members, depth).value;
    EntriesRoundTrip(re, rk, rv, we, wk, wv, v.members, depth, body, suffix);
    Assoc(MapHeader(wk, wv, |v.members|), body, suffix);
    MapStep(re, rk, rv, we, wk, wv, v.members, depth, body, suffix);
  }

  // One step of each recursion over a sequence, so that the proofs below need
  // not unfold any of them.
  lemma ItemsStep(re: Env, rt: Option<Type>, we: Env, wt: Type, items: seq<Json>, depth: nat, head: Bytes,
      tail: Bytes, suffix: Bytes)
    requires depth <= MAX_DEPTH + 1 && items != []
    requires EncodeValue(we, wt, items[0], depth) == Some(head) && EncodeItems(we, wt, items[1..], depth) == Some(tail)
    requires ParseValue(re, false, rt, CompactType(wt), head + (tail + suffix), depth, false)
          == Outcome(Recovered(re, rt, we, wt, items[0], depth), tail + suffix)
    requires ParseItems(re, false, rt, CompactType(wt), |items| - 1, tail + suffix, depth)
          == Outcome(RecoveredItems(re, rt, we, wt, items[1..], depth), suffix)
    ensures EncodeItems(we, wt, items, depth) == Some(head + tail)
    ensures ParseItems(re, false, rt, CompactType(wt), |items|, (head + tail) + suffix, depth)
         == Outcome(RecoveredItems(re, rt, we, wt, items, depth), suffix)
  {
    hide ParseValue, EncodeValue, Recovered;
    Assoc(head, tail, suffix);
  }

  lemma {:induction false} ItemsRoundTrip(re: Env, rt: Option<Type>, we: Env, wt: Type, items: seq<Json>,
      depth: nat, b: Bytes, suffix: Bytes)
    requires Compatible(re, we) && Expected(rt, wt) && depth <= MAX_DEPTH + 1
    requires EncodeItems(we, wt, items, depth) == Some(b) && |b| <= MAX_WIRE_SIZE
    ensures ParseItems(re, false, rt, CompactType(wt), |items|, b + suffix, depth)
         == Outcome(RecoveredItems(re, rt, we, wt, items, depth), suffix)
    decreases MAX_DEPTH + 1 - depth, 3, |items|
  {
    hide Compatible, Expected, ParseValue, EncodeValue, Recovered, ParseItems, RecoveredItems;
    if items == [] {
      NoItems(re, rt, we, wt, depth, suffix);
      assert b + suffix == suffix;
    } else {
      var head := EncodeValue(we, wt, items[0], depth).value;
      var tail := EncodeItems(we, wt, items[1..], depth).value;
      ValueRoundTrip(re, rt, we, wt, items[0], depth, head, tail + suffix);
      ItemsRoundTrip(re, rt, we, wt, items[1..], depth, tail, suffix);
      ItemsStep(re, rt, we, wt, items, depth, head, tail, suffix);
    }
  }

  lemma NoItems(re: Env, rt: Option<Type>, we: Env, wt: Type, depth: nat, suffix: Bytes)
    requires depth <= MAX_DEPTH + 1
    ensures ParseItems(re, false, rt, CompactType(wt), 0, suffix, depth) == Ok([], suffix)
    ensures RecoveredItems(re, rt, we, wt, [], depth) == Some([])
  {
  }

  lemma EntryStep(re: Env, rk: Option<Type>, rv: Option<Type>, we: Env, wk: Type, wv: Type, m: Member, depth: nat,
      k: Bytes, v: Bytes, suffix: Bytes)
    requires depth <= MAX_DEPTH + 1
    requires EncodeValue(we, wk, Str(m.key), depth) == Some(k) && EncodeValue(we, wv, m.value, depth) == Some(v)
    requires ParseValue(re, false, rk, CompactType(wk), k + (v + suffix), depth, false)
          == Outcome(Recovered(re, rk, we, wk, Str(m.key), depth), v + suffix)
    requires ParseValue(re, false, rv, CompactType(wv), v + suffix, depth, false)
          == Outcome(Recovered(re, rv, we, wv, m.value, depth), suffix)
    ensures EncodeEntry(we, wk, wv, m, depth) == Some(k + v)
    ensures ParseEntry(re, false, rk, rv, CompactType(wk), CompactType(wv), (k + v) + suffix, depth)
         == Outcome(RecoveredEntry(re, rk, rv, we, wk, wv, m, depth), suffix)
  {
    hide ParseValue, EncodeValue, Recovered, EntryKey;
    Assoc(k, v, suffix);
  }

  lemma {:induction false} EntryRoundTrip(re: Env, rk: Option<Type>, rv: Option<Type>, we: Env, wk: Type, wv: Type,
      m: Member, depth: nat, b: Bytes, suffix: Bytes)
    requires Compatible(re, we) && Expected(rk, wk) && Expected(rv, wv) && depth <= MAX_DEPTH + 1
    requires EncodeEntry(we, wk, wv, m, depth) == Some(b) && |b| <= MAX_WIRE_SIZE
    ensures ParseEntry(re, false, rk, rv, CompactType(wk), CompactType(wv), b + suffix, depth)
         == Outcome(RecoveredEntry(re, rk, rv, we, wk, wv, m, depth), suffix)
    decreases MAX_DEPTH + 1 - depth, 3, 0
  {
    hide Compatible, Expected, ParseValue, EncodeValue, Recovered, ParseEntry, RecoveredEntry;
    var k := EncodeValue(we, wk, Str(m.key), depth).value;
    var v := EncodeValue(we, wv, m.value, depth).value;
    ValueRoundTrip(re, rk, we, wk, Str(m.key), depth, k, v + suffix);
    ValueRoundTrip(re, rv, we, wv, m.value, depth, v, suffix);
    EntryStep(re, rk, rv, we, wk, wv, m, depth, k, v, suffix);
  }

  lemma EntriesStep(re: Env, rk: Option<Type>, rv: Option<Type>, we: Env, wk: Type, wv: Type, ms: seq<Member>,
      depth: nat, head: Bytes, tail: Bytes, suffix: Bytes)
    requires depth <= MAX_DEPTH + 1 && ms != []
    requires EncodeEntry(we, wk, wv, ms[0], depth) == Some(head) && EncodeEntries(we, wk, wv, ms[1..], depth) == Some(tail)
    requires ParseEntry(re, false, rk, rv, CompactType(wk), CompactType(wv), head + (tail + suffix), depth)
          == Outcome(RecoveredEntry(re, rk, rv, we, wk, wv, ms[0], depth), tail + suffix)
    requires ParseEntries(re, false, rk, rv, CompactType(wk), CompactType(wv), |ms| - 1, tail + suffix, depth)
          == Outcome(RecoveredEntries(re, rk, rv, we, wk, wv, ms[1..], depth), suffix)
    ensures EncodeEntries(we, wk, wv, ms, depth) == Some(head + tail)
    ensures ParseEntries(re, false, rk, rv, CompactType(wk), CompactType(wv), |ms|, (head + tail) + suffix, depth)
         == Outcome(RecoveredEntries(re, rk, rv, we, wk, wv, ms, depth), suffix)
  {
    hide ParseEntry, EncodeEntry, RecoveredEntry;
    Assoc(head, tail, suffix);
  }

  lemma {:induction false} EntriesRoundTrip(re: Env, rk: Option<Type>, rv: Option<Type>, we: Env, wk: Type,
      wv: Type, ms: seq<Member>, depth: nat, b: Bytes, suffix: Bytes)
    requires Compatible(re, we) && Expected(rk, wk) && Expected(rv, wv) && depth <= MAX_DEPTH + 1
    requires EncodeEntries(we, wk, wv, ms, depth) == Some(b) && |b| <= MAX_WIRE_SIZE
    ensures ParseEntries(re, false, rk, rv, CompactType(wk), CompactType(wv), |ms|, b + suffix, depth)
         == Outcome(RecoveredEntries(re, rk, rv, we, wk, wv, ms, depth), suffix)
    decreases MAX_DEPTH + 1 - depth, 3, |ms|
  {
    hide Compatible, Expected, ParseEntry, EncodeEntry, RecoveredEntry, ParseEntries, RecoveredEntries;
    if ms == [] {
      NoEntries(re, rk, rv, we, wk, wv, depth, suffix);
      assert b + suffix == suffix;
    } else {
      var head := EncodeEntry(we, wk, wv, ms[0], depth).value;
      var tail := EncodeEntries(we, wk, wv, ms[1..], depth).value;
      EntryRoundTrip(re, rk, rv, we, wk, wv, ms[0], depth, head, tail + suffix);
      EntriesRoundTrip(re, rk, rv, we, wk, wv, ms[1..], depth, tail, suffix);
      EntriesStep(re, rk, rv, we, wk, wv, ms, depth, head, tail, suffix);
    }
  }

  lemma {:induction false} StructRoundTrip(re: Env, rf: Option<seq<Field>>, we: Env, wf: Option<seq<Field>>,
      v: Json, depth: nat, b: Bytes, suffix: Bytes)
    requires Compatible(re, we) && depth <= MAX_DEPTH + 1
    requires wf.Some? ==> AscendingIds(wf.value) && (rf.Some? ==> FieldsAgree(rf.value, wf.value))
    requires EncodeStruct(we, wf, v, depth) == Some(b) && |b| <= MAX_WIRE_SIZE
    ensures ParseStruct(re, false, rf, b + suffix, depth) == Outcome(RecoveredStruct(re, rf, we, wf, v, depth), suffix)
    decreases MAX_DEPTH + 1 - depth, 1, 0
  {
    FieldsRoundTrip(re, rf, we, wf.value, 0, 0, v, depth, [], b, suffix);
  }

  // A bool field's value is in its header, and still costs the reader a level.
  lemma BoolFieldRead(re: Env, t: Option<Type>, b: bool, s: Bytes, depth: nat)
    requires depth <= MAX_DEPTH && Expected(t, TBool)
    ensures ParseValue(re, false, t, if b then 1 else 2, s, depth + 1, true)
         == if depth + 1 <= MAX_DEPTH then Ok(Bool(b), s) else Fail
  {
  }

  lemma FieldFlagOnlyForBool(re: Env, t: Option<Type>, code: int, s: Bytes, depth: nat)
    requires depth <= MAX_DEPTH + 1 && code > 2
    ensures ParseValue(re, false, t, code, s, depth, true) == ParseValue(re, false, t, code, s, depth, false)
  {
  }

  lemma {:induction false} FieldRoundTrip(re: Env, rf: Option<seq<Field>>, we: Env, f: Field, last: int, x: Json,
      depth: nat, b: Bytes, suffix: Bytes)
    requires Compatible(re, we) && depth <= MAX_DEPTH && IsId(last) && IsId(f.id)
    requires Expected(TypeFor(rf, f.id), f.ty)
    requires EncodeField(we, f, last, x, depth) == Some(b) && |b| <= MAX_WIRE_SIZE
    ensures ParseField(re, false, rf, b + suffix, depth, last)
         == match RecoveredField(re, rf, we, f, last, x, depth) { case Some(y) => Ok(Got(f.id, y), suffix) case None => Fail }
    decreases MAX_DEPTH + 1 - depth, 0, 0
  {
    hide ParseValue, EncodeValue, Recovered, ParseHead, FieldHeader, Compatible;
    var code := FieldCode(f.ty, x).value;
    var header := FieldHeader(last, f.id, code);
    if f.ty == TBool {
      HeadRoundTrip(last, f.id, code, suffix);
      BoolFieldRead(re, TypeFor(rf, f.id), x.b, suffix, depth);
    } else {
      var value := EncodeValue(we, f.ty, x, depth + 1).value;
      Assoc(header, value, suffix);
      HeadRoundTrip(last, f.id, code, value + suffix);
      FieldFlagOnlyForBool(re, TypeFor(rf, f.id), code, value + suffix, depth + 1);
      ValueRoundTrip(re, TypeFor(rf, f.id), we, f.ty, x, depth + 1, value, suffix);
    }
  }

  lemma {:induction false} FieldsRoundTrip(re: Env, rf: Option<seq<Field>>, we: Env, wf: seq<Field>, index: nat,
      last: int, v: Json, depth: nat, seen: seq<CStr>, b: Bytes, suffix: Bytes)
    requires Compatible(re, we) && depth <= MAX_DEPTH && index <= |wf|
    requires AscendingIds(wf) && (rf.Some? ==> FieldsAgree(rf.value, wf))
    requires IsId(last) && KeysBefore(rf, wf, index, seen)
    requires EncodeFields(we, wf, index, last, v, depth) == Some(b) && |b| <= MAX_WIRE_SIZE
    ensures ParseFields(re, false, rf, b + suffix, depth, last, seen)
         == Outcome(RecoveredFields(re, rf, we, wf, index, last, v, depth), suffix)
    decreases MAX_DEPTH + 1 - depth, 0, |wf| - index + 1
  {
    hide EncodeField, RecoveredField;
    if index == |wf| {
      assert (b + suffix)[1..] == suffix;
    } else if Pick(wf[index], index, v).None? {
      KeysBeforeGrows(rf, wf, index, seen);
      FieldsRoundTrip(re, rf, we, wf, index + 1, last, v, depth, seen, b, suffix);
    } else {
      var f, x := wf[index], Pick(wf[index], index, v).value;
      var head := EncodeField(we, f, last, x, depth).value;
      var tail := EncodeFields(we, wf, index + 1, f.id, v, depth).value;
      Assoc(head, tail, suffix);
      NextKeyIsNew(rf, wf, index, seen);
      FieldRoundTrip(re, rf, we, f, last, x, depth, head, tail + suffix);
      FieldsRoundTrip(re, rf, we, wf, index + 1, f.id, v, depth, seen + [KeyFor(rf, f.id)], tail, suffix);
    }
  }
}
