// Forward compatibility: what a reader with an older schema keeps of a value.
module ThriftForward {
  import opened Optional
  import opened Text
  import opened Ieee
  import opened Json
  import opened ThriftSchema
  import opened ThriftEncoding
  import opened ThriftParsing
  import opened ThriftRoundTrip
  import opened ThriftCanonical

  // An older schema table: some structs, with some of their fields.
  ghost predicate Older(re: Env, we: Env) {
    && WellFormed(re) && WellFormed(we)
    && re == we.(structs := re.structs)
    && forall name | name in re.structs :: name in we.structs && Subset(re.structs[name], we.structs[name])
  }

  predicate Subset(known: seq<Field>, fields: seq<Field>) {
    forall f :: f in known ==> f in fields
  }

  lemma KnownField(fields: seq<Field>, known: seq<Field>, index: nat)
    requires AscendingIds(fields) && Subset(known, fields) && index < |fields|
    ensures FindField(known, fields[index].id) == if fields[index] in known then Some(fields[index]) else None
  {
    var f := fields[index];
    var found := FindField(known, f.id);
    if found.Some? {
      var i :| 0 <= i < |fields| && fields[i] == found.value;
      assert i == index;
    }
    if f in known {
      var i :| 0 <= i < |known| && known[i] == f;
    }
  }

  // ---- What is kept ----

  // r is what a reader expecting rt, or knowing no type, keeps of v. Without a type
  // only binary text changes: it is not base64 but the bytes up to the first NUL.
  predicate Kept(re: Env, rt: Option<Type>, we: Env, wt: Type, v: Json, r: Json)
    decreases v, 0, 0
  {
    match wt
    case TList(elem) => v.Arr? && r.Arr? && KeptItems(re, ElemType(rt), we, elem, v.items, r.items)
    case TSet(elem) => v.Arr? && r.Arr? && KeptItems(re, ElemType(rt), we, elem, v.items, r.items)
    case TMap(key, value) => v.Obj? && r.Obj? && KeptEntries(re, KeyType(rt), ValueType(rt), we, key, value, v.members, r.members)
    case TStruct(name) =>
      v.Obj? && r.Obj? && name in we.structs &&
      KeptMembers(re, StructFields(re, rt), we, we.structs[name], v.members, r.members)
    case TBinary => v.Str? && r == Str(KeptText(we, rt, wt, v.s))
    case _ => r == v
  }

  function KeptText(we: Env, rt: Option<Type>, wt: Type, s: CStr): CStr {
    if wt == TBinary && rt.None? && we.b64Decode(s).Some? then UpToNul(we.b64Decode(s).value) else s
  }

  predicate KeptItems(re: Env, rt: Option<Type>, we: Env, wt: Type, items: seq<Json>, rs: seq<Json>)
    decreases items, 1, 0
  {
    |rs| == |items| && forall i | 0 <= i < |items| :: Kept(re, rt, we, wt, items[i], rs[i])
  }

  predicate KeptEntries(re: Env, rk: Option<Type>, rv: Option<Type>, we: Env, wk: Type, wv: Type,
      ms: seq<Member>, rs: seq<Member>)
    decreases ms, 1, 0
  {
    |rs| == |ms| && forall i | 0 <= i < |ms| :: KeptEntry(re, rk, rv, we, wk, wv, ms[i], rs[i])
  }

  predicate KeptEntry(re: Env, rk: Option<Type>, rv: Option<Type>, we: Env, wk: Type, wv: Type, m: Member, r: Member)
    decreases m, 0, 0
  {
    r.key == KeptText(we, rk, wk, m.key) && Kept(re, rv, we, wv, m.value, r.value)
  }

  // The members ms of a struct with the given fields, as rs: a field the reader
  // knows keeps its name and its type, any other is kept untyped under its number.
  predicate KeptMembers(re: Env, known: Option<seq<Field>>, we: Env, fields: seq<Field>, ms: seq<Member>, rs: seq<Member>)
    decreases ms, 1, |fields|
  {
    if ms == [] then rs == []
    else if fields == [] then false
    else if ms[0].key == fields[0].name then
      && rs != []
      && (if known.Some? && fields[0] in known.value
          then rs[0].key == fields[0].name && Kept(re, Some(fields[0].ty), we, fields[0].ty, ms[0].value, rs[0].value)
          else rs[0].key == Decimal(fields[0].id) && Kept(re, None, we, fields[0].ty, ms[0].value, rs[0].value))
      && KeptMembers(re, known, we, fields[1..], ms[1..], rs[1..])
    else KeptMembers(re, known, we, fields[1..], ms, rs)
  }

  // Whatever the reader recovers of a canonical value is what it keeps of it.
  lemma {:induction false} RecoveredIsKept(re: Env, rt: Option<Type>, we: Env, wt: Type, v: Json, depth: nat)
    requires Older(re, we) && Canonical(we, wt, v) && depth <= MAX_DEPTH + 1 && EncodeValue(we, wt, v, depth).Some?
    requires rt in {None, Some(wt)}
    ensures var r := Recovered(re, rt, we, wt, v, depth); r.Some? ==> Kept(re, rt, we, wt, v, r.value)
    decreases v, 0, 0
  {
    hide EncodeItems, EncodeEntries, EncodeStruct, EncodeScalar, RecoveredItems, RecoveredEntries, RecoveredStruct, RecoveredScalar;
    hide KeptItems, KeptEntries, KeptMembers, CanonicalFields, CanonicalKey, Older;
    match wt
    case TList(elem) => ItemsKept(re, ElemType(rt), we, elem, v.items, depth + 1);
    case TSet(elem) => ItemsKept(re, ElemType(rt), we, elem, v.items, depth + 1);
    case TMap(key, value) => EntriesKept(re, KeyType(rt), ValueType(rt), we, key, value, v.members, depth + 1);
    case TStruct(name) => StructKept(re, StructFields(re, rt), we, name, v, depth + 1) by { KnownOfOlder(re, we, rt, name); }
    case _ => ScalarKept(re, rt, we, wt, v);
  }

  lemma KnownOfOlder(re: Env, we: Env, rt: Option<Type>, name: CStr)
    requires Older(re, we) && rt in {None, Some(TStruct(name))}
    ensures StructFields(re, rt) in {None, if name in re.structs then Some(re.structs[name]) else None}
  {
  }

  lemma ScalarKept(re: Env, rt: Option<Type>, we: Env, wt: Type, v: Json)
    requires Older(re, we) && CompactType(wt) <= 8 && Canonical(we, wt, v) && EncodeScalar(we, wt, v).Some?
    ensures Kept(re, rt, we, wt, v, RecoveredScalar(re, rt, we, wt, v))
  {
    hide WellFormed;
    CanonicalScalar(we, wt, v);
  }

  lemma {:induction false} ItemsKept(re: Env, rt: Option<Type>, we: Env, wt: Type, items: seq<Json>, depth: nat)
    requires Older(re, we) && depth <= MAX_DEPTH + 1 && EncodeItems(we, wt, items, depth).Some?
    requires rt in {None, Some(wt)}
    requires forall i :: 0 <= i < |items| ==> Canonical(we, wt, items[i])
    ensures var r := RecoveredItems(re, rt, we, wt, items, depth); r.Some? ==> KeptItems(re, rt, we, wt, items, r.value)
    decreases items, 1, 0
  {
    hide EncodeValue, Recovered, Canonical, Kept, Older;
    if items != [] {
      RecoveredIsKept(re, rt, we, wt, items[0], depth);
      ItemsKept(re, rt, we, wt, items[1..], depth);
    }
  }

  lemma {:induction false} EntriesKept(re: Env, rk: Option<Type>, rv: Option<Type>, we: Env, wk: Type, wv: Type,
      ms: seq<Member>, depth: nat)
    requires Older(re, we) && 1 <= depth <= MAX_DEPTH + 1 && EncodeEntries(we, wk, wv, ms, depth).Some?
    requires rk in {None, Some(wk)} && rv in {None, Some(wv)}
    requires forall i :: 0 <= i < |ms| ==> CanonicalKey(we, wk, ms[i].key) && Canonical(we, wv, ms[i].value)
    ensures var r := RecoveredEntries(re, rk, rv, we, wk, wv, ms, depth);
      r.Some? ==> KeptEntries(re, rk, rv, we, wk, wv, ms, r.value)
    decreases ms, 1, 0
  {
    hide EncodeEntry, RecoveredEntry, CanonicalKey, Canonical, KeptEntry, Older;
    if ms != [] {
      EntryKept(re, rk, rv, we, wk, wv, ms[0], depth);
      EntriesKept(re, rk, rv, we, wk, wv, ms[1..], depth);
    }
  }

  lemma {:induction false} EntryKept(re: Env, rk: Option<Type>, rv: Option<Type>, we: Env, wk: Type, wv: Type,
      m: Member, depth: nat)
    requires Older(re, we) && 1 <= depth <= MAX_DEPTH + 1 && EncodeEntry(we, wk, wv, m, depth).Some?
    requires rk in {None, Some(wk)} && rv in {None, Some(wv)}
    requires CanonicalKey(we, wk, m.key) && Canonical(we, wv, m.value)
    ensures var r := RecoveredEntry(re, rk, rv, we, wk, wv, m, depth); r.Some? ==> KeptEntry(re, rk, rv, we, wk, wv, m, r.value)
    decreases m, 1, 0
  {
    hide EncodeValue, Recovered, EntryKey, CanonicalKey, Canonical, Kept, KeptText, Older;
    KeyKept(re, rk, we, wk, m.key, depth);
    RecoveredIsKept(re, rv, we, wv, m.value, depth);
  }

  lemma KeyKept(re: Env, rk: Option<Type>, we: Env, wk: Type, key: CStr, depth: nat)
    requires Older(re, we) && CanonicalKey(we, wk, key) && rk in {None, Some(wk)} && depth <= MAX_DEPTH + 1
    requires EncodeValue(we, wk, Str(key), depth).Some?
    ensures Recovered(re, rk, we, wk, Str(key), depth).Some?
    ensures EntryKey(re, Recovered(re, rk, we, wk, Str(key), depth).value) == Some(KeptText(we, rk, wk, key))
  {
    hide WellFormed;
    if wk == TByte || wk == TI16 || wk == TI32 {
      SafeIntRoundTrip(Text.ParseInteger(key).value);
    }
  }

  lemma {:induction false} StructKept(re: Env, known: Option<seq<Field>>, we: Env, name: CStr, v: Json, depth: nat)
    requires Older(re, we) && depth <= MAX_DEPTH + 1 && name in we.structs
    requires known in {None, if name in re.structs then Some(re.structs[name]) else None}
    requires v.Obj? && CanonicalFields(we, we.structs[name], v.members)
    requires EncodeStruct(we, Some(we.structs[name]), v, depth).Some?
    ensures var r := RecoveredStruct(re, known, we, Some(we.structs[name]), v, depth);
      r.Some? ==> r.value.Obj? && KeptMembers(re, known, we, we.structs[name], v.members, r.value.members)
    decreases v.members, 2, 0
  {
    hide EncodeFields, RecoveredFields, KeptMembers, CanonicalFields;
    var fields := we.structs[name];
    assert fields[0..] == fields && [] + v.members == v.members;
    MembersKept(re, known, we, fields, 0, 0, [], v.members, depth);
  }

  lemma {:induction false} MembersKept(re: Env, known: Option<seq<Field>>, we: Env, fields: seq<Field>, index: nat, last: int,
                                       written: seq<Member>, ms: seq<Member>, depth: nat)
    requires Older(re, we) && depth <= MAX_DEPTH && index <= |fields| && DistinctNames(fields) && AscendingIds(fields)
    requires known.Some? ==> Subset(known.value, fields)
    requires CanonicalFields(we, fields[index..], ms)
    requires AllNamed(fields[..index], written)
    requires EncodeFields(we, fields, index, last, Obj(written + ms), depth).Some?
    ensures var r := RecoveredFields(re, known, we, fields, index, last, Obj(written + ms), depth);
      r.Some? ==> KeptMembers(re, known, we, fields[index..], ms, r.value)
    decreases ms, 1, |fields| - index
  {
    hide EncodeValue, EncodeField, Recovered, RecoveredField, Canonical, WellFormed, AllNamed, AscendingIds, DistinctNames;
    hide Subset, Kept, Older;
    var v := Obj(written + ms);
    if index < |fields| {
      var f := fields[index];
      assert fields[index..][0] == f && fields[index..][1..] == fields[index + 1..];
      FindPastWritten(fields, index, written, ms);
      if ms != [] && ms[0].key == f.name {
        var next := written + [ms[0]];
        assert next + ms[1..] == v.members;
        NamedGrows(fields, index, written, next);
        assert Pick(f, index, v) == Some(ms[0].value);
        MembersKept(re, known, we, fields, index + 1, f.id, next, ms[1..], depth);
        FieldKnown(known, fields, index);
        FieldKept(re, known, we, f, last, ms[0].value, depth);
      } else {
        KeysAreNames(we, fields[index + 1..], ms);
        MissingField(fields, index, ms);
        assert Pick(f, index, v).None?;
        NamedGrows(fields, index, written, written);
        MembersKept(re, known, we, fields, index + 1, last, written, ms, depth);
      }
    }
  }

  lemma FieldKnown(known: Option<seq<Field>>, fields: seq<Field>, index: nat)
    requires AscendingIds(fields) && (known.Some? ==> Subset(known.value, fields)) && index < |fields|
    ensures FieldFor(known, fields[index].id) == if known.Some? && fields[index] in known.value then Some(fields[index]) else None
  {
    if known.Some? {
      KnownField(fields, known.value, index);
    }
  }

  lemma {:induction false} FieldKept(re: Env, known: Option<seq<Field>>, we: Env, f: Field, last: int, x: Json, depth: nat)
    requires Older(re, we) && Canonical(we, f.ty, x) && depth <= MAX_DEPTH && EncodeField(we, f, last, x, depth).Some?
    requires FieldFor(known, f.id) == if known.Some? && f in known.value then Some(f) else None
    ensures KeyFor(known, f.id) == if known.Some? && f in known.value then f.name else Decimal(f.id)
    ensures var r, t := RecoveredField(re, known, we, f, last, x, depth), TypeFor(known, f.id);
      && t == (if known.Some? && f in known.value then Some(f.ty) else None)
      && (r.Some? ==> Kept(re, t, we, f.ty, x, r.value))
    decreases x, 1, 0
  {
    hide Canonical, Recovered, EncodeValue, KeptItems, KeptEntries, KeptMembers, Older;
    if f.ty != TBool {
      RecoveredIsKept(re, TypeFor(known, f.id), we, f.ty, x, depth + 1);
    }
  }

  // ---- The guarantee ----

  // Bytes written under one schema table, read under an older one: the reader takes
  // them, and exactly them, if the value fits its limits, and what it returns is
  // what it keeps of the value.
  lemma ForwardCompatible(re: Env, we: Env, name: CStr, v: Json, b: Bytes, suffix: Bytes)
    requires Older(re, we) && name in we.structs
    requires v.Obj? && CanonicalFields(we, we.structs[name], v.members)
    requires EncodeStruct(we, Some(we.structs[name]), v, 0) == Some(b) && |b| <= MAX_WIRE_SIZE
    ensures
      var known := StructFields(re, Some(TStruct(name)));
      var r := ParseStruct(re, false, known, b + suffix, 0);
      && (r.Ok? <==> FitsStruct(we, Some(we.structs[name]), v, 0))
      && (r.Ok? ==> r.rest == suffix && r.value.Obj? && KeptMembers(re, known, we, we.structs[name], v.members, r.value.members))
  {
    var known, fields := StructFields(re, Some(TStruct(name))), we.structs[name];
    OlderIsCompatible(re, we);
    hide ParseStruct, EncodeStruct, FitsStruct, CanonicalFields, KeptMembers, RecoveredStruct, FieldsAgree;
    StructRoundTrip(re, known, we, Some(fields), v, 0, b, suffix);
    StructIffFits(re, known, we, Some(fields), v, 0);
    StructKept(re, known, we, name, v, 0);
  }

  lemma OlderIsCompatible(re: Env, we: Env)
    requires Older(re, we)
    ensures Compatible(re, we)
  {
    forall name | name in we.structs && name in re.structs ensures FieldsAgree(re.structs[name], we.structs[name]) {
      AgreeOnTypes(we.structs[name], re.structs[name]);
    }
    hide FieldsAgree, Subset;
  }

  // A reader with the same table keeps everything as it is.
  lemma {:induction false} KeptBySelf(env: Env, t: Type, v: Json, r: Json)
    requires WellFormed(env) && Kept(env, Some(t), env, t, v, r)
    ensures r == v
    decreases v, 0
  {
    match t
    case TList(elem) => ItemsKeptBySelf(env, elem, v.items, r.items);
    case TSet(elem) => ItemsKeptBySelf(env, elem, v.items, r.items);
    case TMap(key, value) =>
      forall i | 0 <= i < |v.members| ensures r.members[i] == v.members[i] {
        assert KeptEntry(env, Some(key), Some(value), env, key, value, v.members[i], r.members[i]);
        KeptBySelf(env, value, v.members[i].value, r.members[i].value);
      }
    case TStruct(name) => MembersKeptBySelf(env, env.structs[name], env.structs[name], v.members, r.members);
    case _ =>
  }

  lemma {:induction false} ItemsKeptBySelf(env: Env, t: Type, items: seq<Json>, rs: seq<Json>)
    requires WellFormed(env) && KeptItems(env, Some(t), env, t, items, rs)
    ensures rs == items
    decreases items, 1
  {
    forall i | 0 <= i < |items| ensures rs[i] == items[i] {
      KeptBySelf(env, t, items[i], rs[i]);
    }
  }

  lemma {:induction false} MembersKeptBySelf(env: Env, all: seq<Field>, fields: seq<Field>, ms: seq<Member>, rs: seq<Member>)
    requires WellFormed(env) && Subset(fields, all) && KeptMembers(env, Some(all), env, fields, ms, rs)
    ensures rs == ms
    decreases ms, 1, |fields|
  {
    if ms != [] {
      assert fields[0] in fields;
      if ms[0].key == fields[0].name {
        KeptBySelf(env, fields[0].ty, ms[0].value, rs[0].value);
        MembersKeptBySelf(env, all, fields[1..], ms[1..], rs[1..]);
        assert rs[0] == ms[0] && rs == [rs[0]] + rs[1..] && ms == [ms[0]] + ms[1..];
      } else {
        MembersKeptBySelf(env, all, fields[1..], ms, rs);
      }
    }
  }

  lemma AgreeOnTypes(fields: seq<Field>, known: seq<Field>)
    requires AscendingIds(fields) && Subset(known, fields) && DistinctNames(known)
    ensures FieldsAgree(known, fields)
  {
    forall i | 0 <= i < |fields|
      ensures FindField(known, fields[i].id).Some? ==> FindField(known, fields[i].id).value.ty == fields[i].ty
    {
      KnownField(fields, known, i);
    }
  }
}
