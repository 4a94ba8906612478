// The schema table and the constants both directions of the codec share.
module ThriftSchema {
  import opened Optional
  import opened Text
  import opened Ieee
  import opened Json

  const MAX_DEPTH := 40
  const MAX_WIRE_SIZE := 8 * 1024 * 1024
  const MAX_COUNT := 100000
  const TWO_TO_64 := 0x1_0000_0000_0000_0000

  datatype Type =
    | TBool | TByte | TI16 | TI32 | TI64 | TDouble | TString | TBinary
    | TList(elem: Type)
    | TSet(elem: Type)
    | TMap(key: Type, value: Type)
    | TStruct(name: CStr)
    | TAny

  // One schema entry: [field id, field name, field type].
  datatype Field = Field(id: int, name: CStr, ty: Type)

  // The schema with the two services the codec calls: base64, and printf("%.0f")
  // for numbers that are not integers of at most 53 bits.
  datatype Env = Env(
    structs: map<CStr, seq<Field>>,
    b64Encode: Bytes -> CStr,
    b64Decode: CStr -> Option<Bytes>,
    formatOther: Bits -> CStr)

  // The type code a value of type t is announced with on the wire.
  function CompactType(t: Type): (code: int)
    ensures 1 <= code <= 12 && code != 2
  {
    match t
    case TBool => 1
    case TByte => 3
    case TI16 => 4
    case TI32 => 5
    case TI64 => 6
    case TDouble => 7
    case TString => 8
    case TBinary => 8
    case TList(_) => 9
    case TSet(_) => 10
    case TMap(_, _) => 11
    case TStruct(_) => 12
    case TAny => 12
  }

  function StructFields(env: Env, t: Option<Type>): Option<seq<Field>> {
    match t
    case Some(TStruct(name)) => if name in env.structs then Some(env.structs[name]) else None
    case _ => None
  }

  function ElemType(t: Option<Type>): Option<Type> {
    match t
    case Some(TList(e)) => Some(e)
    case Some(TSet(e)) => Some(e)
    case _ => None
  }

  function KeyType(t: Option<Type>): Option<Type> {
    match t
    case Some(TMap(k, _)) => Some(k)
    case _ => None
  }

  function ValueType(t: Option<Type>): Option<Type> {
    match t
    case Some(TMap(_, v)) => Some(v)
    case _ => None
  }

  // The first schema entry with this id.
  function FindField(fields: seq<Field>, id: int): (r: Option<Field>)
    ensures r.Some? ==> r.value in fields && r.value.id == id
    ensures r.None? ==> forall i :: 0 <= i < |fields| ==> fields[i].id != id
  {
    if fields == [] then None
    else if fields[0].id == id then Some(fields[0])
    else FindField(fields[1..], id)
  }

  function FieldFor(fields: Option<seq<Field>>, id: int): Option<Field> {
    match fields
    case Some(fs) => FindField(fs, id)
    case None => None
  }

  // The key a decoded field is stored under: its schema name, or its number.
  function KeyFor(fields: Option<seq<Field>>, id: int): CStr {
    match FieldFor(fields, id)
    case Some(f) => f.name
    case None => Decimal(id)
  }

  function TypeFor(fields: Option<seq<Field>>, id: int): Option<Type> {
    match FieldFor(fields, id)
    case Some(f) => Some(f.ty)
    case None => None
  }

  // The text under which a numeric map key is stored.
  function NumberKey(env: Env, bits: Bits): CStr {
    match ToSafeInt(bits)
    case Some(n) => if FromInt(n) == bits then Decimal(n) else env.formatOther(bits)
    case None => env.formatOther(bits)
  }

  predicate IsId(n: int) {
    -32768 <= n <= 32767
  }

  // What the generator guarantees of a struct: ids ascend.
  predicate AscendingIds(fields: seq<Field>) {
    && (forall i :: 0 <= i < |fields| ==> IsId(fields[i].id))
    && (forall i, j :: 0 <= i < j < |fields| ==> fields[i].id < fields[j].id)
  }

  // Field names identify fields even ignoring case, and none reads as a number.
  predicate DistinctNames(fields: seq<Field>) {
    && (forall i, j :: 0 <= i < j < |fields| ==> !EqualIgnoringCase(fields[i].name, fields[j].name))
    && (forall i :: 0 <= i < |fields| ==> !NumeralName(fields[i].name))
  }

  predicate NumeralName(name: CStr) {
    name != [] && (IsDigit(name[0]) || name[0] == 45)
  }

  // zigzag: sign in the low bit
  function ZigZag(n: int): (r: nat)
    ensures IsInt64(n) ==> r < TWO_TO_64
  {
    if n >= 0 then 2 * n else -2 * n - 1
  }

  function UnZigZag(n: nat): (r: int)
    ensures n < TWO_TO_64 ==> IsInt64(r)
    ensures ZigZag(r) == n
  {
    if n % 2 == 0 then n / 2 else -(n / 2) - 1
  }

  // (int)x of a 64-bit value, as two's complement truncation.
  function ToInt32(n: int): (r: int)
    ensures -0x8000_0000 <= r < 0x8000_0000
    ensures -0x8000_0000 <= n < 0x8000_0000 ==> r == n
  {
    (n + 0x8000_0000) % 0x1_0000_0000 - 0x8000_0000
  }

  // (int8_t)b
  function SignedByte(b: Byte): (r: int)
    ensures -128 <= r <= 127
  {
    var n: int := b;
    if n < 128 then n else n - 256
  }

  // (unsigned char)n
  function LowByte(n: int): Byte {
    n % 256
  }

  // Little-endian image of a double.
  function LittleEndian(bits: nat, count: nat): (r: Bytes)
    ensures |r| == count
  {
    if count == 0 then [] else [LowByte(bits)] + LittleEndian(bits / 256, count - 1)
  }

  function FromLittleEndian(s: Bytes): nat {
    if s == [] then 0
    else
      var low: int := s[0];
      low + 256 * FromLittleEndian(s[1..])
  }
}
