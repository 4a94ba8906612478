// What the reader accepts: varints exactly, and everything a typed read accepts
// is also accepted, over the same bytes, without a schema.
module ThriftErasure {
  import opened Optional
  import opened Text
  import opened Ieee
  import opened Json
  import opened ThriftSchema
  import opened ThriftParsing
  import opened ThriftRoundTrip

  // ---- Varints ----

  // Groups of seven bits, least significant first; the last byte has no high bit.
  predicate IsVarint(g: Bytes) {
    && g != []
    && g[|g| - 1] < 128
    && forall i :: 0 <= i < |g| - 1 ==> g[i] >= 128
  }

  function VarintValue(g: Bytes): nat {
    if g == [] then 0
    else
      var low: int := g[0];
      low % 128 + 128 * VarintValue(g[1..])
  }

  // A varint is accepted exactly when it takes at most ten bytes and its value,
  // over the integers, is below 2^64.
  lemma VarintAccepted(g: Bytes, rest: Bytes)
    requires IsVarint(g)
    ensures ParseVarint(g + rest) == if |g| <= 10 && VarintValue(g) < TWO_TO_64 then Ok(VarintValue(g), rest) else Fail
  {
    assert VarintCap(0) == TWO_TO_64;
    VarintAcceptedAt(g, rest, 0);
  }

  lemma {:induction false} VarintAcceptedAt(g: Bytes, rest: Bytes, i: nat)
    requires IsVarint(g) && i <= 9
    ensures ParseVarint(g + rest, i)
         == if |g| <= 10 - i && VarintValue(g) < VarintCap(i) then Ok(VarintValue(g), rest) else Fail
    decreases |g|
  {
    assert (g + rest)[1..] == g[1..] + rest;
    if |g| > 1 && i < 9 {
      VarintAcceptedAt(g[1..], rest, i + 1);
    } else if |g| == 1 {
      assert g[1..] == [];
    }
  }

  // Whatever is accepted begins with a varint.
  lemma {:induction false} AcceptedIsVarint(s: Bytes, i: nat := 0)
    requires i <= 10 && ParseVarint(s, i).Ok?
    ensures var k := |s| - |ParseVarint(s, i).rest|;
      0 < k <= |s| && IsVarint(s[..k]) && s[k..] == ParseVarint(s, i).rest
    decreases |s|
  {
    if s[0] >= 128 {
      AcceptedIsVarint(s[1..], i + 1);
      var k := |s| - |ParseVarint(s, i).rest|;
      assert s[..k][1..] == s[1..][..k - 1];
      assert forall j :: 1 <= j < k - 1 ==> s[..k][j] == s[1..][..k - 1][j - 1];
      assert s[..k][k - 1] == s[1..][..k - 1][k - 2];
    }
  }

  // ---- Schema erasure ----

  // u is v with the schema's knowledge removed: the same nesting and the same
  // lengths, struct members under their field numbers, binary text as the bytes up
  // to the first NUL instead of base64, and nothing else changed.
  ghost predicate Stripped(env: Env, t: Option<Type>, v: Json, u: Json)
    decreases v, 0
  {
    match t
    case Some(TList(elem)) => v.Arr? && u.Arr? && StrippedItems(env, Some(elem), v.items, u.items)
    case Some(TSet(elem)) => v.Arr? && u.Arr? && StrippedItems(env, Some(elem), v.items, u.items)
    case Some(TMap(key, value)) => v.Obj? && u.Obj? && StrippedEntries(env, Some(key), Some(value), v.members, u.members)
    case Some(TStruct(name)) =>
      if name in env.structs then v.Obj? && u.Obj? && StrippedMembers(env, env.structs[name], v.members, u.members)
      else u == v
    case Some(TBinary) => v.Str? && u.Str? && SameBytes(env, v.s, u.s)
    case _ => u == v
  }

  ghost predicate SameBytes(env: Env, encoded: CStr, text: CStr) {
    exists raw: Bytes :: encoded == env.b64Encode(raw) && text == UpToNul(raw)
  }

  ghost predicate StrippedItems(env: Env, t: Option<Type>, vs: seq<Json>, us: seq<Json>)
    decreases vs, 1
  {
    |us| == |vs| && forall i | 0 <= i < |vs| :: Stripped(env, t, vs[i], us[i])
  }

  ghost predicate StrippedEntries(env: Env, kt: Option<Type>, vt: Option<Type>, ms: seq<Member>, ws: seq<Member>)
    decreases ms, 1
  {
    |ws| == |ms| && forall i | 0 <= i < |ms| :: StrippedEntry(env, kt, vt, ms[i], ws[i])
  }

  ghost predicate StrippedEntry(env: Env, kt: Option<Type>, vt: Option<Type>, m: Member, w: Member)
    decreases m, 1
  {
    (if kt == Some(TBinary) then SameBytes(env, m.key, w.key) else w.key == m.key) && Stripped(env, vt, m.value, w.value)
  }

  ghost predicate StrippedMembers(env: Env, fields: seq<Field>, ms: seq<Member>, ws: seq<Member>)
    decreases ms, 1
  {
    |ws| == |ms| && forall i | 0 <= i < |ms| :: StrippedMember(env, fields, ms[i], ws[i])
  }

  ghost predicate StrippedMember(env: Env, fields: seq<Field>, m: Member, w: Member)
    decreases m, 1
  {
    exists id | IsId(id) ::
      m.key == KeyFor(Some(fields), id) && w.key == Decimal(id) && Stripped(env, TypeFor(Some(fields), id), m.value, w.value)
  }

  predicate DistinctKeys(ms: seq<Member>) {
    forall i, j | 0 <= i < j < |ms| :: !EqualIgnoringCase(ms[i].key, ms[j].key)
  }

  // Two reads of the same bytes: where the typed one succeeds the other does, at
  // the same place and with the same value but for the schema.
  ghost predicate Erases(env: Env, t: Option<Type>, typed: Parse<Json>, untyped: Parse<Json>) {
    typed.Ok? ==> untyped.Ok? && untyped.rest == typed.rest && Stripped(env, t, typed.value, untyped.value)
  }

  lemma {:induction false} ErasedValue(env: Env, t: Option<Type>, code: int, s: Bytes, depth: nat, field: bool)
    requires depth <= MAX_DEPTH + 1
    ensures Erases(env, t, ParseValue(env, false, t, code, s, depth, field), ParseValue(env, false, None, code, s, depth, field))
    decreases MAX_DEPTH + 1 - depth, 2, 0
  {
    hide ParseScalar, ParseList, ParseMap, ParseStruct, StrippedItems, StrippedEntries, StrippedMembers, SameBytes;
    if ParseValue(env, false, t, code, s, depth, field).Ok? && t.Some? {
      if 1 <= code <= 8 {
        ErasedScalar(env, t, code, s, field);
      } else {
        match t.value
        case TList(elem) => ErasedList(env, elem, s, depth + 1);
        case TSet(elem) => ErasedList(env, elem, s, depth + 1);
        case TMap(key, value) => ErasedMap(env, key, value, s, depth + 1);
        case TStruct(name) =>
          if name in env.structs {
            ErasedStruct(env, env.structs[name], s, depth + 1);
          }
        case _ =>
      }
    }
  }

  lemma ErasedScalar(env: Env, t: Option<Type>, code: int, s: Bytes, field: bool)
    requires 1 <= code <= 8 && TypeAgrees(t, code)
    ensures Erases(env, t, ParseScalar(env, false, t, code, s, field), ParseScalar(env, false, None, code, s, field))
  {
    hide ParseVarint, ParseSigned, Decimal, FromInt, FromLittleEndian;
    if code == 8 {
      ErasedBlob(env, t, s);
    }
  }

  lemma ErasedBlob(env: Env, t: Option<Type>, s: Bytes)
    requires TypeAgrees(t, 8)
    ensures Erases(env, t, ParseBlob(env, false, t, s), ParseBlob(env, false, None, s))
  {
    hide ParseVarint;
    match ParseVarint(s)
    case Ok(n, rest) =>
      if n <= |rest| {
        assert t == Some(TBinary) ==> SameBytes(env, env.b64Encode(rest[..n]), UpToNul(rest[..n]));
      }
    case Fail =>
  }

  lemma {:induction false} ErasedList(env: Env, t: Type, s: Bytes, depth: nat)
    requires depth <= MAX_DEPTH + 1
    ensures var typed, untyped := ParseList(env, false, Some(t), s, depth), ParseList(env, false, None, s, depth);
      typed.Ok? ==>
        && untyped.Ok? && untyped.rest == typed.rest
        && typed.value.Arr? && untyped.value.Arr? && StrippedItems(env, Some(t), typed.value.items, untyped.value.items)
    decreases MAX_DEPTH + 1 - depth, 4, 0
  {
    hide StrippedItems;
    match ParseListHeader(s)
    case Ok(h, rest) => ErasedItems(env, Some(t), h.elem, h.count, rest, depth);
    case Fail =>
  }

  lemma {:induction false} ErasedItems(env: Env, t: Option<Type>, code: nat, count: nat, s: Bytes, depth: nat)
    requires depth <= MAX_DEPTH + 1
    ensures var typed, untyped := ParseItems(env, false, t, code, count, s, depth), ParseItems(env, false, None, code, count, s, depth);
      typed.Ok? ==> untyped.Ok? && untyped.rest == typed.rest && StrippedItems(env, t, typed.value, untyped.value)
    decreases MAX_DEPTH + 1 - depth, 3, count
  {
    hide ParseValue, Stripped;
    if count > 0 {
      ErasedValue(env, t, code, s, depth, false);
      match ParseValue(env, false, t, code, s, depth, false) {
        case Ok(v, rest) => ErasedItems(env, t, code, count - 1, rest, depth);
        case Fail =>
      }
    }
  }

  lemma {:induction false} ErasedMap(env: Env, kt: Type, vt: Type, s: Bytes, depth: nat)
    requires depth <= MAX_DEPTH + 1
    ensures var typed, untyped := ParseMap(env, false, Some(kt), Some(vt), s, depth), ParseMap(env, false, None, None, s, depth);
      typed.Ok? ==>
        && untyped.Ok? && untyped.rest == typed.rest && typed.value.Obj? && untyped.value.Obj?
        && StrippedEntries(env, Some(kt), Some(vt), typed.value.members, untyped.value.members)
    decreases MAX_DEPTH + 1 - depth, 4, 0
  {
    hide StrippedEntries;
    match ParseMapHeader(s)
    case Ok(h, rest) => ErasedEntries(env, Some(kt), Some(vt), h.key, h.elem, h.count, rest, depth);
    case Fail =>
  }

  lemma {:induction false} ErasedEntry(env: Env, kt: Option<Type>, vt: Option<Type>, kcode: nat, vcode: nat, s: Bytes, depth: nat)
    requires depth <= MAX_DEPTH + 1
    ensures var typed := ParseEntry(env, false, kt, vt, kcode, vcode, s, depth);
      var untyped := ParseEntry(env, false, None, None, kcode, vcode, s, depth);
      typed.Ok? ==> untyped.Ok? && untyped.rest == typed.rest && StrippedEntry(env, kt, vt, typed.value, untyped.value)
    decreases MAX_DEPTH + 1 - depth, 3, 0
  {
    hide ParseValue, Stripped, SameBytes;
    ErasedValue(env, kt, kcode, s, depth, false);
    match ParseValue(env, false, kt, kcode, s, depth, false)
    case Ok(k, rest) =>
      ErasedValue(env, vt, vcode, rest, depth, false);
      ErasedKey(env, kt, k, ParseValue(env, false, None, kcode, s, depth, false).value);
    case Fail =>
  }

  lemma ErasedKey(env: Env, kt: Option<Type>, k: Json, u: Json)
    requires Stripped(env, kt, k, u)
    ensures EntryKey(env, k).Some? ==> EntryKey(env, u).Some?
    ensures EntryKey(env, k).Some? && kt == Some(TBinary) ==> SameBytes(env, EntryKey(env, k).value, EntryKey(env, u).value)
    ensures EntryKey(env, k).Some? && kt != Some(TBinary) ==> EntryKey(env, u) == EntryKey(env, k)
  {
    hide SameBytes, NumberKey, StrippedItems, StrippedEntries, StrippedMembers;
  }

  lemma {:induction false} ErasedEntries(env: Env, kt: Option<Type>, vt: Option<Type>, kcode: nat, vcode: nat,
      count: nat, s: Bytes, depth: nat)
    requires depth <= MAX_DEPTH + 1
    ensures var typed := ParseEntries(env, false, kt, vt, kcode, vcode, count, s, depth);
      var untyped := ParseEntries(env, false, None, None, kcode, vcode, count, s, depth);
      typed.Ok? ==> untyped.Ok? && untyped.rest == typed.rest && StrippedEntries(env, kt, vt, typed.value, untyped.value)
    decreases MAX_DEPTH + 1 - depth, 3, count
  {
    hide ParseEntry, StrippedEntry;
    if count > 0 {
      ErasedEntry(env, kt, vt, kcode, vcode, s, depth);
      match ParseEntry(env, false, kt, vt, kcode, vcode, s, depth) {
        case Ok(m, rest) => ErasedEntries(env, kt, vt, kcode, vcode, count - 1, rest, depth);
        case Fail =>
      }
    }
  }

  // A typed read of a struct that succeeds is matched by an untyped one, which
  // stops at the same byte and keeps the members apart.
  lemma {:induction false} ErasedStruct(env: Env, fields: seq<Field>, s: Bytes, depth: nat)
    requires depth <= MAX_DEPTH + 1
    ensures var typed, untyped := ParseStruct(env, false, Some(fields), s, depth), ParseStruct(env, false, None, s, depth);
      typed.Ok? ==>
        && untyped.Ok? && untyped.rest == typed.rest
        && StrippedMembers(env, fields, typed.value.members, untyped.value.members)
        && DistinctKeys(typed.value.members) && DistinctKeys(untyped.value.members)
    decreases MAX_DEPTH + 1 - depth, 1, 0
  {
    hide StrippedMembers, DistinctKeys;
    if depth <= MAX_DEPTH {
      assert Keys(Some(fields), []) == [] && Keys(None, []) == [];
      ErasedFields(env, fields, s, depth, 0, []);
      KeysStayDistinct(env, Some(fields), s, depth, 0, []);
      KeysStayDistinct(env, None, s, depth, 0, []);
    }
  }

  // The keys under which fields with these ids are stored.
  function Keys(fields: Option<seq<Field>>, ids: seq<int>): seq<CStr> {
    seq(|ids|, i requires 0 <= i < |ids| => KeyFor(fields, ids[i]))
  }

  lemma {:induction false} KeysStayDistinct(env: Env, fields: Option<seq<Field>>, s: Bytes, depth: nat, last: int, seen: seq<CStr>)
    requires depth <= MAX_DEPTH
    ensures var r := ParseFields(env, false, fields, s, depth, last, seen);
      r.Ok? ==> DistinctKeys(r.value) && forall i | 0 <= i < |r.value| :: !HasIgnoringCase(seen, r.value[i].key)
    decreases |s|
  {
    hide ParseField, KeyFor, EqualIgnoringCase;
    match ParseField(env, false, fields, s, depth, last)
    case Ok(Got(id, v), rest) =>
      var key := KeyFor(fields, id);
      KeysStayDistinct(env, fields, rest, depth, id, seen + [key]);
      var r := ParseFields(env, false, fields, rest, depth, id, seen + [key]);
      if r.Ok? {
        forall i | 0 <= i < |r.value| ensures !EqualIgnoringCase(key, r.value[i].key) && !HasIgnoringCase(seen, r.value[i].key) {
          SeenBoth(seen, key, r.value[i].key);
        }
      }
    case _ =>
  }

  lemma SeenBoth(seen: seq<CStr>, key: CStr, other: CStr)
    requires !HasIgnoringCase(seen + [key], other)
    ensures !EqualIgnoringCase(key, other) && !HasIgnoringCase(seen, other)
  {
    var all := seen + [key];
    assert all[|seen|] == key;
    forall i | 0 <= i < |seen| ensures !EqualIgnoringCase(seen[i], other) {
      assert all[i] == seen[i];
    }
  }

  lemma {:induction false} ErasedFields(env: Env, fields: seq<Field>, s: Bytes, depth: nat, last: int, ids: seq<int>)
    requires depth <= MAX_DEPTH && forall i :: 0 <= i < |ids| ==> IsId(ids[i])
    ensures var typed := ParseFields(env, false, Some(fields), s, depth, last, Keys(Some(fields), ids));
      var untyped := ParseFields(env, false, None, s, depth, last, Keys(None, ids));
      typed.Ok? ==> untyped.Ok? && untyped.rest == typed.rest && StrippedMembers(env, fields, typed.value, untyped.value)
    decreases MAX_DEPTH + 1 - depth, 0, |s| + 1
  {
    hide ParseField, StrippedMember, Keys, KeyFor;
    ErasedField(env, fields, s, depth, last);
    match ParseField(env, false, Some(fields), s, depth, last)
    case Ok(Got(id, v), rest) =>
      if !HasIgnoringCase(Keys(Some(fields), ids), KeyFor(Some(fields), id)) {
        NewIdNewNumeral(fields, ids, id);
        KeysGrow(fields, ids, id);
        ErasedFields(env, fields, rest, depth, id, ids + [id]);
      }
    case _ =>
  }

  lemma KeysGrow(fields: seq<Field>, ids: seq<int>, id: int)
    ensures Keys(Some(fields), ids + [id]) == Keys(Some(fields), ids) + [KeyFor(Some(fields), id)]
    ensures Keys(None, ids + [id]) == Keys(None, ids) + [KeyFor(None, id)]
  {
  }

  lemma {:induction false} ErasedField(env: Env, fields: seq<Field>, s: Bytes, depth: nat, last: int)
    requires depth <= MAX_DEPTH
    ensures match ParseField(env, false, Some(fields), s, depth, last)
      case Fail => true
      case Ok(End, rest) => ParseField(env, false, None, s, depth, last) == Ok(End, rest)
      case Ok(Got(id, v), rest) =>
        var u := ParseField(env, false, None, s, depth, last);
        && u.Ok? && u.rest == rest && u.value.Got? && u.value.id == id
        && StrippedMember(env, fields, Member(KeyFor(Some(fields), id), v), Member(KeyFor(None, id), u.value.value))
    decreases MAX_DEPTH + 1 - depth, 0, 0
  {
    hide ParseValue, Stripped;
    match ParseHead(s, last)
    case Ok(Head(id, code), rest) => ErasedValue(env, TypeFor(Some(fields), id), code, rest, depth + 1, true);
    case _ =>
  }

  lemma NewIdNewNumeral(fields: seq<Field>, ids: seq<int>, id: int)
    requires IsId(id) && forall i :: 0 <= i < |ids| ==> IsId(ids[i])
    requires !HasIgnoringCase(Keys(Some(fields), ids), KeyFor(Some(fields), id))
    ensures !HasIgnoringCase(Keys(None, ids), KeyFor(None, id))
  {
    forall i | 0 <= i < |ids| ensures !EqualIgnoringCase(Keys(None, ids)[i], Decimal(id)) {
      assert Keys(Some(fields), ids)[i] == KeyFor(Some(fields), ids[i]);
      if EqualIgnoringCase(Decimal(ids[i]), Decimal(id)) {
        DecimalInjective(ids[i], id);
      }
    }
  }

  // ---- Decoded trees are no larger than their encoding ----

  lemma {:induction false} ValueNodes(env: Env, strict: bool, t: Option<Type>, code: int, s: Bytes, depth: nat, field: bool)
    requires depth <= MAX_DEPTH + 1
    ensures var r := ParseValue(env, strict, t, code, s, depth, field);
      r.Ok? ==> Nodes(r.value) <= |s| - |r.rest| + (if field && 1 <= code <= 2 then 1 else 0)
    decreases MAX_DEPTH + 1 - depth, 2, 0
  {
    hide ParseScalar, ParseStruct, ParseItems, ParseEntries, ItemNodes, MemberNodes, ParseListHeader, ParseMapHeader;
    if ParseValue(env, strict, t, code, s, depth, field).Ok? {
      if code == 9 || code == 10 {
        match ParseListHeader(s)
        case Ok(h, rest) => ItemsNodes(env, strict, ElemType(t), h.elem, h.count, rest, depth + 1);
        case Fail =>
      } else if code == 11 {
        match ParseMapHeader(s)
        case Ok(h, rest) => EntriesNodes(env, strict, KeyType(t), ValueType(t), h.key, h.elem, h.count, rest, depth + 1);
        case Fail =>
      } else if code == 12 {
        StructNodes(env, strict, StructFields(env, t), s, depth + 1);
      }
    }
  }

  lemma {:induction false} ItemsNodes(env: Env, strict: bool, t: Option<Type>, code: nat, count: nat, s: Bytes, depth: nat)
    requires depth <= MAX_DEPTH + 1
    ensures var r := ParseItems(env, strict, t, code, count, s, depth);
      r.Ok? ==> ItemNodes(r.value) <= |s| - |r.rest|
    decreases MAX_DEPTH + 1 - depth, 3, count
  {
    hide ParseValue, Nodes;
    if count > 0 {
      ValueNodes(env, strict, t, code, s, depth, false);
      match ParseValue(env, strict, t, code, s, depth, false) {
        case Ok(v, rest) => ItemsNodes(env, strict, t, code, count - 1, rest, depth);
        case Fail =>
      }
    }
  }

  lemma {:induction false} EntriesNodes(env: Env, strict: bool, kt: Option<Type>, vt: Option<Type>, kcode: nat,
      vcode: nat, count: nat, s: Bytes, depth: nat)
    requires depth <= MAX_DEPTH + 1
    ensures var r := ParseEntries(env, strict, kt, vt, kcode, vcode, count, s, depth);
      r.Ok? ==> MemberNodes(r.value) <= |s| - |r.rest|
    decreases MAX_DEPTH + 1 - depth, 3, count
  {
    hide ParseValue, Nodes, EntryKey;
    if count > 0 {
      match ParseValue(env, strict, kt, kcode, s, depth, false) {
        case Ok(k, rest) => ValueNodes(env, strict, vt, vcode, rest, depth, false);
        case Fail =>
      }
      match ParseEntry(env, strict, kt, vt, kcode, vcode, s, depth) {
        case Ok(m, rest) => EntriesNodes(env, strict, kt, vt, kcode, vcode, count - 1, rest, depth);
        case Fail =>
      }
    }
  }

  // A decoded struct has at most as many nodes as the bytes it was read from, so
  // decoding never needs more than a constant times the input.
  lemma {:induction false} StructNodes(env: Env, strict: bool, fields: Option<seq<Field>>, s: Bytes, depth: nat)
    requires depth <= MAX_DEPTH + 1
    ensures var r := ParseStruct(env, strict, fields, s, depth);
      r.Ok? ==> Nodes(r.value) <= |s| - |r.rest|
    decreases MAX_DEPTH + 1 - depth, 1, 0
  {
    if depth <= MAX_DEPTH {
      FieldsNodes(env, strict, fields, s, depth, 0, []);
    }
  }

  lemma {:induction false} FieldsNodes(env: Env, strict: bool, fields: Option<seq<Field>>, s: Bytes, depth: nat,
      last: int, seen: seq<CStr>)
    requires depth <= MAX_DEPTH
    ensures var r := ParseFields(env, strict, fields, s, depth, last, seen);
      r.Ok? ==> MemberNodes(r.value) < |s| - |r.rest|
    decreases MAX_DEPTH + 1 - depth, 0, |s| + 1
  {
    hide ParseField, Nodes, KeyFor, HasIgnoringCase;
    FieldNodes(env, strict, fields, s, depth, last);
    match ParseField(env, strict, fields, s, depth, last) {
      case Ok(Got(id, v), rest) =>
        FieldsNodes(env, strict, fields, rest, depth, id, seen + [KeyFor(fields, id)]);
      case Ok(End, _) =>
      case Fail =>
    }
  }

  lemma FieldNodes(env: Env, strict: bool, fields: Option<seq<Field>>, s: Bytes, depth: nat, last: int)
    requires depth <= MAX_DEPTH
    ensures var r := ParseField(env, strict, fields, s, depth, last);
      r.Ok? && r.value.Got? ==> Nodes(r.value.value) <= |s| - |r.rest|
    decreases MAX_DEPTH + 1 - depth, 0, 0
  {
    hide ParseValue, Nodes;
    match ParseHead(s, last) {
      case Ok(Head(id, code), rest) => ValueNodes(env, strict, TypeFor(fields, id), code, rest, depth + 1, true);
      case _ =>
    }
  }
}
