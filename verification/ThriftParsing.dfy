// What a byte string means to the bounded reader: the decoded value and the
// bytes left over, or a failure. ThriftReader's cursor methods are proved
// against this.
module ThriftParsing {
  import opened Optional
  import opened Text
  import opened Ieee
  import opened Json
  import opened ThriftSchema

  datatype Parse<+T> = Fail | Ok(value: T, rest: Bytes)

  // 2^(64 - 7i): the weight limit of what may follow i varint bytes.
  function VarintCap(i: nat): (r: nat)
    requires i <= 9
    ensures r >= 2
    decreases 9 - i
  {
    if i == 9 then 2 else 128 * VarintCap(i + 1)
  }

  function ParseVarint(s: Bytes, i: nat := 0): (r: Parse<nat>)
    requires i <= 10
    ensures r.Ok? ==> |r.rest| < |s|
    ensures r.Ok? ==> i < 10 && r.value < VarintCap(i)
    decreases 10 - i
  {
    if i == 10 || s == [] then Fail
    else
      var c: int := s[0];
      if i == 9 && c > 1 then Fail
      else if c < 128 then Ok(c, s[1..])
      else
        match ParseVarint(s[1..], i + 1)
        case Fail => Fail
        case Ok(n, rest) => Ok(c - 128 + 128 * n, rest)
  }

  function ParseSigned(s: Bytes): (r: Parse<int>)
    ensures r.Ok? ==> IsInt64(r.value) && |r.rest| < |s|
  {
    match ParseVarint(s)
    case Fail => Fail
    case Ok(n, rest) => assert VarintCap(0) == TWO_TO_64; Ok(UnZigZag(n), rest)
  }

  // A blob becomes a JSON string: base64 when the schema says binary, otherwise
  // the C string it starts with; a typed or strict read refuses an embedded NUL.
  function BlobText(env: Env, strict: bool, t: Option<Type>, raw: Bytes): Option<CStr> {
    if t == Some(TBinary) then Some(env.b64Encode(raw))
    else if (t.Some? || strict) && 0 in raw then None
    else Some(UpToNul(raw))
  }

  function ParseBlob(env: Env, strict: bool, t: Option<Type>, s: Bytes): (r: Parse<Json>)
    ensures r.Ok? ==> |r.rest| < |s| && r.value.Str?
  {
    match ParseVarint(s)
    case Fail => Fail
    case Ok(n, rest) =>
      if n > |rest| || n > MAX_WIRE_SIZE then Fail
      else
        match BlobText(env, strict, t, rest[..n])
        case None => Fail
        case Some(text) => Ok(Str(text), rest[n..])
  }

  predicate TypeAgrees(t: Option<Type>, code: int) {
    t.None? || t.value.TAny? || code == CompactType(t.value) || (t.value.TBool? && code == 2)
  }

  function ParseScalar(env: Env, strict: bool, t: Option<Type>, code: int, s: Bytes, field: bool): (r: Parse<Json>)
    requires 1 <= code <= 8
    ensures r.Ok? ==> |r.rest| <= |s| && !r.value.Arr? && !r.value.Obj?
    ensures r.Ok? && !(field && code <= 2) ==> |r.rest| < |s|
    ensures r.Ok? && field && code <= 2 ==> r.rest == s && r.value.Bool?
  {
    if code <= 2 then
      if field then Ok(Bool(code == 1), s)
      else if s == [] || (s[0] != 1 && s[0] != 2) then Fail
      else Ok(Bool(s[0] == 1), s[1..])
    else if code == 3 then
      if s == [] then Fail else Ok(Num(FromInt(SignedByte(s[0]))), s[1..])
    else if code <= 6 then
      match ParseSigned(s) {
        case Fail => Fail
        case Ok(n, rest) => Ok(if code == 6 then Str(Decimal(n)) else Num(FromInt(n)), rest)
      }
    else if code == 7 then
      if |s| < 8 then Fail
      else
        LittleEndianRange(s[..8]);
        Ok(Num(FromLittleEndian(s[..8])), s[8..])
    else ParseBlob(env, strict, t, s)
  }

  function ParseValue(env: Env, strict: bool, t: Option<Type>, code: int, s: Bytes, depth: nat, field: bool): (r: Parse<Json>)
    requires depth <= MAX_DEPTH + 1
    ensures r.Ok? ==> |r.rest| <= |s| && depth <= MAX_DEPTH && TypeAgrees(t, code)
    ensures r.Ok? && !(field && 1 <= code <= 2) ==> |r.rest| < |s|
    ensures r.Ok? && field && 1 <= code <= 2 ==> r.rest == s && r.value.Bool?
    decreases MAX_DEPTH + 1 - depth, 2, 0
  {
    if depth > MAX_DEPTH || !TypeAgrees(t, code) then Fail
    else if 1 <= code <= 8 then ParseScalar(env, strict, t, code, s, field)
    else if code == 9 || code == 10 then ParseList(env, strict, ElemType(t), s, depth + 1)
    else if code == 11 then ParseMap(env, strict, KeyType(t), ValueType(t), s, depth + 1)
    else if code == 12 then ParseStruct(env, strict, StructFields(env, t), s, depth + 1)
    else Fail
  }

  // A count must not exceed the cap, nor the bytes left: each element takes one.
  function ParseList(env: Env, strict: bool, t: Option<Type>, s: Bytes, depth: nat): (r: Parse<Json>)
    requires depth <= MAX_DEPTH + 1
    ensures r.Ok? ==> |r.rest| < |s|
    decreases MAX_DEPTH + 1 - depth, 4, 0
  {
    match ParseListHeader(s)
    case Fail => Fail
    case Ok(h, rest) =>
      if h.count > MAX_COUNT || h.count > |rest| then Fail
      else
        match ParseItems(env, strict, t, h.elem, h.count, rest, depth)
        case Fail => Fail
        case Ok(items, rest') => Ok(Arr(items), rest')
  }

  function ParseMap(env: Env, strict: bool, kt: Option<Type>, vt: Option<Type>, s: Bytes, depth: nat): (r: Parse<Json>)
    requires depth <= MAX_DEPTH + 1
    ensures r.Ok? ==> |r.rest| < |s|
    decreases MAX_DEPTH + 1 - depth, 4, 0
  {
    match ParseMapHeader(s)
    case Fail => Fail
    case Ok(h, rest) =>
      if h.count > MAX_COUNT || h.count > |rest| then Fail
      else
        match ParseEntries(env, strict, kt, vt, h.key, h.elem, h.count, rest, depth)
        case Fail => Fail
        case Ok(members, rest') => Ok(Obj(members), rest')
  }

  datatype Header = Header(key: nat, elem: nat, count: nat)

  function ParseListHeader(s: Bytes): (r: Parse<Header>)
    ensures r.Ok? ==> |r.rest| < |s|
  {
    if s == [] then Fail
    else
      var h: int := s[0];
      if h / 16 < 15 then Ok(Header(0, h % 16, h / 16), s[1..])
      else
        match ParseVarint(s[1..])
        case Fail => Fail
        case Ok(n, rest) => Ok(Header(0, h % 16, n), rest)
  }

  function ParseMapHeader(s: Bytes): (r: Parse<Header>)
    ensures r.Ok? ==> |r.rest| < |s|
  {
    match ParseVarint(s)
    case Fail => Fail
    case Ok(n, rest) =>
      if n == 0 then Ok(Header(0, 0, 0), rest)
      else if rest == [] then Fail
      else
        var h: int := rest[0];
        Ok(Header(h / 16, h % 16, n), rest[1..])
  }

  function ParseItems(env: Env, strict: bool, t: Option<Type>, code: nat, count: nat, s: Bytes, depth: nat): (r: Parse<seq<Json>>)
    requires depth <= MAX_DEPTH + 1
    ensures r.Ok? ==> |r.rest| <= |s|
    decreases MAX_DEPTH + 1 - depth, 3, count
  {
    if count == 0 then Ok([], s)
    else
      match ParseValue(env, strict, t, code, s, depth, false)
      case Fail => Fail
      case Ok(v, rest) =>
        match ParseItems(env, strict, t, code, count - 1, rest, depth)
        case Fail => Fail
        case Ok(vs, rest') => Ok([v] + vs, rest')
  }

  // A decoded map key must be a string or a number.
  function EntryKey(env: Env, k: Json): Option<CStr> {
    match k
    case Str(s) => Some(s)
    case Num(bits) => Some(NumberKey(env, bits))
    case _ => None
  }

  function ParseEntry(env: Env, strict: bool, kt: Option<Type>, vt: Option<Type>, kcode: nat, vcode: nat, s: Bytes,
      depth: nat): (r: Parse<Member>)
    requires depth <= MAX_DEPTH + 1
    ensures r.Ok? ==> |r.rest| < |s|
    decreases MAX_DEPTH + 1 - depth, 3, 0
  {
    match ParseValue(env, strict, kt, kcode, s, depth, false)
    case Fail => Fail
    case Ok(k, rest) =>
      match ParseValue(env, strict, vt, vcode, rest, depth, false)
      case Fail => Fail
      case Ok(v, rest') =>
        match EntryKey(env, k)
        case None => Fail
        case Some(key) => Ok(Member(key, v), rest')
  }

  function ParseEntries(env: Env, strict: bool, kt: Option<Type>, vt: Option<Type>, kcode: nat, vcode: nat,
      count: nat, s: Bytes, depth: nat): (r: Parse<seq<Member>>)
    requires depth <= MAX_DEPTH + 1
    ensures r.Ok? ==> |r.rest| <= |s|
    decreases MAX_DEPTH + 1 - depth, 3, count
  {
    if count == 0 then Ok([], s)
    else
      match ParseEntry(env, strict, kt, vt, kcode, vcode, s, depth)
      case Fail => Fail
      case Ok(m, rest) =>
        match ParseEntries(env, strict, kt, vt, kcode, vcode, count - 1, rest, depth)
        case Fail => Fail
        case Ok(ms, rest') => Ok([m] + ms, rest')
  }

  function ParseStruct(env: Env, strict: bool, fields: Option<seq<Field>>, s: Bytes, depth: nat): (r: Parse<Json>)
    requires depth <= MAX_DEPTH + 1
    ensures r.Ok? ==> |r.rest| < |s| && r.value.Obj?
    decreases MAX_DEPTH + 1 - depth, 1, 0
  {
    if depth > MAX_DEPTH then Fail
    else
      match ParseFields(env, strict, fields, s, depth, 0, [])
      case Fail => Fail
      case Ok(members, rest) => Ok(Obj(members), rest)
  }

  datatype FieldHead = Stop | Head(id: int, code: nat)

  // One field header: stop, or the next field's id and type code.
  function ParseHead(s: Bytes, last: int): (r: Parse<FieldHead>)
    ensures r.Ok? ==> |r.rest| < |s|
    ensures r.Ok? && r.value.Head? ==> IsId(r.value.id)
  {
    if s == [] then Fail
    else if s[0] == 0 then Ok(Stop, s[1..])
    else
      var h: int := s[0];
      if h / 16 != 0 then
        if IsId(last + h / 16) then Ok(Head(last + h / 16, h % 16), s[1..]) else Fail
      else
        match ParseSigned(s[1..])
        case Fail => Fail
        case Ok(n, rest) => if IsId(ToInt32(n)) then Ok(Head(ToInt32(n), h % 16), rest) else Fail
  }

  datatype FieldRead = End | Got(id: int, value: Json)

  // One whole field, or the stop byte.
  function ParseField(env: Env, strict: bool, fields: Option<seq<Field>>, s: Bytes, depth: nat, last: int): (r: Parse<FieldRead>)
    requires depth <= MAX_DEPTH
    ensures r.Ok? ==> |r.rest| < |s|
    ensures r.Ok? && r.value.Got? ==> IsId(r.value.id)
    decreases MAX_DEPTH + 1 - depth, 0, 0
  {
    match ParseHead(s, last)
    case Fail => Fail
    case Ok(Stop, rest) => Ok(End, rest)
    case Ok(Head(id, code), rest) =>
      match ParseValue(env, strict, TypeFor(fields, id), code, rest, depth + 1, true)
      case Fail => Fail
      case Ok(v, rest') => Ok(Got(id, v), rest')
  }

  // The members up to the stop byte; seen holds the keys already used.
  function ParseFields(env: Env, strict: bool, fields: Option<seq<Field>>, s: Bytes, depth: nat, last: int,
      seen: seq<CStr>): (r: Parse<seq<Member>>)
    requires depth <= MAX_DEPTH
    ensures r.Ok? ==> |r.rest| < |s|
    decreases MAX_DEPTH + 1 - depth, 0, |s| + 1
  {
    match ParseField(env, strict, fields, s, depth, last)
    case Fail => Fail
    case Ok(End, rest) => Ok([], rest)
    case Ok(Got(id, v), rest) =>
      var key := KeyFor(fields, id);
      if HasIgnoringCase(seen, key) then Fail
      else
        match ParseFields(env, strict, fields, rest, depth, id, seen + [key])
        case Fail => Fail
        case Ok(ms, rest') => Ok([Member(key, v)] + ms, rest')
  }

  lemma {:induction false} LittleEndianRange(s: Bytes)
    ensures |s| == 8 ==> FromLittleEndian(s) < TWO_TO_64
    ensures FromLittleEndian(s) < Pow256(|s|)
  {
    if s != [] {
      LittleEndianRange(s[1..]);
    }
    if |s| == 8 {
      assert Pow256(4) == 0x1_0000_0000 && Pow256(8) == 256 * (256 * (256 * (256 * Pow256(4))));
    }
  }

  function Pow256(n: nat): nat {
    if n == 0 then 1 else 256 * Pow256(n - 1)
  }
}
