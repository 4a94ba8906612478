// What bytes a JSON value stands for under a schema type, if it can be written
// at all. ThriftBuffer's buffer-growing methods are proved against this.
module ThriftEncoding {
  import opened Optional
  import opened Text
  import opened Ieee
  import opened Json
  import opened ThriftSchema

  function EncodeVarint(n: nat): (r: Bytes)
    ensures |r| >= 1
  {
    if n < 128 then [n] else [n % 128 + 128] + EncodeVarint(n / 128)
  }

  // The integer a JSON value offers: a decimal string, or an integral number
  // that a double holds exactly.
  function JsonInteger(v: Json): (r: Option<int>)
    ensures r.Some? ==> IsInt64(r.value)
  {
    match v
    case Str(s) => ParseInteger(s)
    case Num(bits) => ToSafeInt(bits)
    case _ => None
  }

  predicate InRange(t: Type, n: int) {
    match t
    case TByte => -128 <= n <= 127
    case TI16 => -32768 <= n <= 32767
    case TI32 => -0x8000_0000 <= n <= 0x7fff_ffff
    case _ => IsInt64(n)
  }

  function EncodeInteger(t: Type, v: Json): Option<Bytes> {
    match JsonInteger(v)
    case Some(n) =>
      if !InRange(t, n) then None
      else if t == TByte then Some([LowByte(n)])
      else Some(EncodeVarint(ZigZag(n)))
    case None => None
  }

  function EncodeBlob(s: Bytes): Bytes {
    EncodeVarint(|s|) + s
  }

  function EncodeString(env: Env, t: Type, v: Json): Option<Bytes> {
    if !v.Str? then None
    else if t != TBinary then Some(EncodeBlob(v.s))
    else
      match env.b64Decode(v.s)
      case Some(raw) => Some(EncodeBlob(raw))
      case None => None
  }

  function Join(a: Option<Bytes>, b: Option<Bytes>): Option<Bytes> {
    if a.Some? && b.Some? then Some(a.value + b.value) else None
  }

  // Element count below 15 sits beside the element type, otherwise it follows.
  function ListHeader(elem: Type, count: nat): (r: Bytes)
    ensures |r| >= 1
  {
    if count < 15 then [count * 16 + CompactType(elem)]
    else [15 * 16 + CompactType(elem)] + EncodeVarint(count)
  }

  function MapHeader(key: Type, value: Type, count: nat): (r: Bytes)
    ensures |r| >= 1
  {
    if count == 0 then EncodeVarint(0)
    else EncodeVarint(count) + [CompactType(key) * 16 + CompactType(value)]
  }

  // The value a struct holds for its index-th schema entry. Arrays are positional.
  function Pick(f: Field, index: nat, v: Json): (r: Option<Json>)
    ensures r.Some? ==> !r.value.Null?
    ensures r.Some? ==> r.value < v
  {
    match v
    case Arr(items) =>
      if index < |items| && !items[index].Null? then Some(items[index]) else None
    case Obj(members) =>
      FindSmaller(members, f.name);
      (match Find(members, f.name)
       case Some(x) => if x.Null? then None else Some(x)
       case None => None)
    case _ => None
  }

  lemma {:induction false} FindSmaller(members: seq<Member>, key: CStr)
    ensures Find(members, key).Some? ==> exists i :: 0 <= i < |members| && members[i].value == Find(members, key).value
  {
    if members != [] && members[0].key != key {
      FindSmaller(members[1..], key);
      if Find(members, key).Some? {
        var i :| 0 <= i < |members[1..]| && members[1..][i].value == Find(members, key).value;
        assert members[i + 1].value == Find(members, key).value;
      }
    }
  }

  // A small positive step in field id fits the header byte; any other id follows it.
  function FieldHeader(last: int, id: int, code: int): (r: Bytes)
    requires 1 <= code <= 12
    ensures |r| >= 1
  {
    var delta := id - last;
    if 0 < delta < 16 then [delta * 16 + code] else [code] + EncodeVarint(ZigZag(id))
  }

  // Type code of a present field; a bool travels in it.
  function FieldCode(t: Type, v: Json): (code: Option<int>)
    ensures code.Some? ==> 1 <= code.value <= 12
  {
    if t == TBool then
      if v.Bool? then Some(if v.b then 1 else 2) else None
    else Some(CompactType(t))
  }

  function EncodeScalar(env: Env, t: Type, v: Json): (r: Option<Bytes>)
    ensures r.Some? ==> |r.value| >= 1
  {
    match t
    case TBool => if v.Bool? then Some([if v.b then 1 else 2]) else None
    case TDouble => if v.Num? then Some(LittleEndian(v.bits, 8)) else None
    case TString => EncodeString(env, t, v)
    case TBinary => EncodeString(env, t, v)
    case _ => EncodeInteger(t, v)
  }

  function EncodeValue(env: Env, t: Type, v: Json, depth: nat): (r: Option<Bytes>)
    requires depth <= MAX_DEPTH + 1
    ensures r.Some? ==> |r.value| >= 1 && depth <= MAX_DEPTH
    decreases MAX_DEPTH + 1 - depth, 3, 0
  {
    if depth > MAX_DEPTH then None
    else
      match t
      case TList(elem) => EncodeList(env, elem, v, depth + 1)
      case TSet(elem) => EncodeList(env, elem, v, depth + 1)
      case TMap(key, value) => EncodeMap(env, key, value, v, depth + 1)
      case TStruct(_) => EncodeStruct(env, StructFields(env, Some(t)), v, depth + 1)
      case TAny => None // no schema entry has this name
      case _ => EncodeScalar(env, t, v)
  }

  function EncodeList(env: Env, elem: Type, v: Json, depth: nat): (r: Option<Bytes>)
    requires depth <= MAX_DEPTH + 1
    ensures r.Some? ==> |r.value| >= 1 && v.Arr?
    decreases MAX_DEPTH + 1 - depth, 5, 0
  {
    if v.Arr? then Join(Some(ListHeader(elem, |v.items|)), EncodeItems(env, elem, v.items, depth)) else None
  }

  function EncodeMap(env: Env, key: Type, value: Type, v: Json, depth: nat): (r: Option<Bytes>)
    requires depth <= MAX_DEPTH + 1
    ensures r.Some? ==> |r.value| >= 1 && v.Obj?
    decreases MAX_DEPTH + 1 - depth, 5, 0
  {
    if v.Obj? then
      Join(Some(MapHeader(key, value, |v.members|)), EncodeEntries(env, key, value, v.members, depth))
    else None
  }

  function EncodeItems(env: Env, elem: Type, items: seq<Json>, depth: nat): (r: Option<Bytes>)
    requires depth <= MAX_DEPTH + 1
    ensures r.Some? ==> |r.value| >= |items|
    decreases MAX_DEPTH + 1 - depth, 4, |items|
  {
    if items == [] then Some([])
    else Join(EncodeValue(env, elem, items[0], depth), EncodeItems(env, elem, items[1..], depth))
  }

  function EncodeEntry(env: Env, key: Type, value: Type, m: Member, depth: nat): (r: Option<Bytes>)
    requires depth <= MAX_DEPTH + 1
    ensures r.Some? ==> |r.value| >= 1
    decreases MAX_DEPTH + 1 - depth, 4, 0
  {
    Join(EncodeValue(env, key, Str(m.key), depth), EncodeValue(env, value, m.value, depth))
  }

  function EncodeEntries(env: Env, key: Type, value: Type, members: seq<Member>, depth: nat): (r: Option<Bytes>)
    requires depth <= MAX_DEPTH + 1
    ensures r.Some? ==> |r.value| >= |members|
    decreases MAX_DEPTH + 1 - depth, 4, |members|
  {
    if members == [] then Some([])
    else Join(EncodeEntry(env, key, value, members[0], depth), EncodeEntries(env, key, value, members[1..], depth))
  }

  function EncodeStruct(env: Env, fields: Option<seq<Field>>, v: Json, depth: nat): (r: Option<Bytes>)
    requires depth <= MAX_DEPTH + 1
    ensures r.Some? ==> |r.value| >= 1
    decreases MAX_DEPTH + 1 - depth, 2, 0
  {
    if depth > MAX_DEPTH || fields.None? || !(v.Obj? || v.Arr?) then None
    else EncodeFields(env, fields.value, 0, 0, v, depth)
  }

  // The fields from schema position index on, after a field with id last.
  function EncodeFields(env: Env, fields: seq<Field>, index: nat, last: int, v: Json, depth: nat): (r: Option<Bytes>)
    requires depth <= MAX_DEPTH && index <= |fields|
    ensures r.Some? ==> |r.value| >= 1
    decreases MAX_DEPTH + 1 - depth, 1, |fields| - index
  {
    if index == |fields| then Some([0])
    else
      var f := fields[index];
      match Pick(f, index, v)
      case None => EncodeFields(env, fields, index + 1, last, v, depth)
      case Some(x) =>
        Join(EncodeField(env, f, last, x, depth), EncodeFields(env, fields, index + 1, f.id, v, depth))
  }

  function EncodeField(env: Env, f: Field, last: int, x: Json, depth: nat): (r: Option<Bytes>)
    requires depth <= MAX_DEPTH
    ensures r.Some? ==> |r.value| >= 1
    decreases MAX_DEPTH + 1 - depth, 0, 0
  {
    match FieldCode(f.ty, x)
    case None => None
    case Some(code) =>
      var header := FieldHeader(last, f.id, code);
      if code <= 2 then Some(header) else Join(Some(header), EncodeValue(env, f.ty, x, depth + 1))
  }
}
