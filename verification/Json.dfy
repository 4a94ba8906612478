// JSON values as cJSON holds them: numbers are doubles, strings are C strings,
// object members keep their order and may repeat a key.
module Json {
  import opened Optional
  import opened Text
  import opened Ieee

  datatype Member = Member(key: CStr, value: Json)

  datatype Json =
    | Null
    | Bool(b: bool)
    | Num(bits: Bits)
    | Str(s: CStr)
    | Arr(items: seq<Json>)
    | Obj(members: seq<Member>)

  // cJSON_GetObjectItemCaseSensitive: the first member with this key.
  function Find(members: seq<Member>, key: CStr): Option<Json> {
    if members == [] then None
    else if members[0].key == key then Some(members[0].value)
    else Find(members[1..], key)
  }

  // How many cJSON nodes a value is made of.
  function Nodes(v: Json): (n: nat)
    ensures n >= 1
    decreases v, 0
  {
    match v
    case Arr(items) => 1 + ItemNodes(items)
    case Obj(members) => 1 + MemberNodes(members)
    case _ => 1
  }

  function ItemNodes(items: seq<Json>): nat
    decreases items, 1
  {
    if items == [] then 0 else Nodes(items[0]) + ItemNodes(items[1..])
  }

  function MemberNodes(members: seq<Member>): nat
    decreases members, 1
  {
    if members == [] then 0 else Nodes(members[0].value) + MemberNodes(members[1..])
  }
}
