// Exactly when the reader takes back what the writer wrote, and the values that
// come back unchanged.
module ThriftCanonical {
  import opened Optional
  import opened Text
  import opened Ieee
  import opened Json
  import opened ThriftSchema
  import opened ThriftEncoding
  import opened ThriftParsing
  import opened ThriftRoundTrip

  // ---- The reader's two extra limits, as a test on the value alone ----

  // Lists and maps stay within the reader's count cap, and no struct at the last
  // level has a bool field.
  predicate Fits(env: Env, t: Type, v: Json, depth: nat)
    requires depth <= MAX_DEPTH + 1 && EncodeValue(env, t, v, depth).Some?
    decreases MAX_DEPTH + 1 - depth, 2, 0
  {
    match t
    case TList(elem) => FitsList(env, elem, v, depth + 1)
    case TSet(elem) => FitsList(env, elem, v, depth + 1)
    case TMap(key, value) => FitsMap(env, key, value, v, depth + 1)
    case TStruct(_) => FitsStruct(env, StructFields(env, Some(t)), v, depth + 1)
    case _ => true
  }

  predicate FitsList(env: Env, t: Type, v: Json, depth: nat)
    requires depth <= MAX_DEPTH + 1 && EncodeList(env, t, v, depth).Some?
    decreases MAX_DEPTH + 1 - depth, 4, 0
  {
    |v.items| <= MAX_COUNT && FitItems(env, t, v.items, depth)
  }

  predicate FitItems(env: Env, t: Type, items: seq<Json>, depth: nat)
    requires depth <= MAX_DEPTH + 1 && EncodeItems(env, t, items, depth).Some?
    decreases MAX_DEPTH + 1 - depth, 3, |items|
  {
    items != [] ==> Fits(env, t, items[0], depth) && FitItems(env, t, items[1..], depth)
  }

  predicate FitsMap(env: Env, key: Type, value: Type, v: Json, depth: nat)
    requires depth <= MAX_DEPTH + 1 && EncodeMap(env, key, value, v, depth).Some?
    decreases MAX_DEPTH + 1 - depth, 4, 0
  {
    |v.members| <= MAX_COUNT && FitEntries(env, key, value, v.members, depth)
  }

  predicate FitEntries(env: Env, key: Type, value: Type, ms: seq<Member>, depth: nat)
    requires depth <= MAX_DEPTH + 1 && EncodeEntries(env, key, value, ms, depth).Some?
    decreases MAX_DEPTH + 1 - depth, 3, |ms|
  {
    ms != [] ==>
      && EncodeEntry(env, key, value, ms[0], depth).Some?
      && Fits(env, value, ms[0].value, depth)
      && FitEntries(env, key, value, ms[1..], depth)
  }

  predicate FitsStruct(env: Env, fields: Option<seq<Field>>, v: Json, depth: nat)
    requires depth <= MAX_DEPTH + 1 && EncodeStruct(env, fields, v, depth).Some?
    decreases MAX_DEPTH + 1 - depth, 1, 0
  {
    FitFields(env, fields.value, 0, 0, v, depth)
  }

  predicate FitsField(env: Env, f: Field, last: int, x: Json, depth: nat)
    requires depth <= MAX_DEPTH && EncodeField(env, f, last, x, depth).Some?
    decreases MAX_DEPTH + 1 - depth, 0, 0
  {
    if f.ty == TBool then depth < MAX_DEPTH else Fits(env, f.ty, x, depth + 1)
  }

  predicate FitFields(env: Env, fields: seq<Field>, index: nat, last: int, v: Json, depth: nat)
    requires depth <= MAX_DEPTH && index <= |fields|
    requires EncodeFields(env, fields, index, last, v, depth).Some?
    decreases MAX_DEPTH + 1 - depth, 0, |fields| - index + 1
  {
    index < |fields| ==>
      match Pick(fields[index], index, v)
      case None => FitFields(env, fields, index + 1, last, v, depth)
      case Some(x) =>
        && FitsField(env, fields[index], last, x, depth)
        && FitFields(env, fields, index + 1, fields[index].id, v, depth)
  }

  // The reader takes back what the writer wrote if and only if it Fits, whatever
  // schema the reader has.
  lemma {:induction false} RecoveredIffFits(re: Env, rt: Option<Type>, we: Env, wt: Type, v: Json, depth: nat)
    requires depth <= MAX_DEPTH + 1 && EncodeValue(we, wt, v, depth).Some?
    ensures Recovered(re, rt, we, wt, v, depth).Some? <==> Fits(we, wt, v, depth)
    decreases MAX_DEPTH + 1 - depth, 2, 0
  {
    match wt
    case TList(elem) => ItemsIffFit(re, ElemType(rt), we, elem, v.items, depth + 1);
    case TSet(elem) => ItemsIffFit(re, ElemType(rt), we, elem, v.items, depth + 1);
    case TMap(key, value) => EntriesIffFit(re, KeyType(rt), ValueType(rt), we, key, value, v.members, depth + 1);
    case TStruct(_) => StructIffFits(re, StructFields(re, rt), we, StructFields(we, Some(wt)), v, depth + 1);
    case _ =>
  }

  lemma {:induction false} ItemsIffFit(re: Env, rt: Option<Type>, we: Env, wt: Type, items: seq<Json>, depth: nat)
    requires depth <= MAX_DEPTH + 1 && EncodeItems(we, wt, items, depth).Some?
    ensures RecoveredItems(re, rt, we, wt, items, depth).Some? <==> FitItems(we, wt, items, depth)
    decreases MAX_DEPTH + 1 - depth, 3, |items|
  {
    hide EncodeValue, Recovered, Fits;
    if items != [] {
      RecoveredIffFits(re, rt, we, wt, items[0], depth);
      ItemsIffFit(re, rt, we, wt, items[1..], depth);
    }
  }

  lemma {:induction false} EntriesIffFit(re: Env, rk: Option<Type>, rv: Option<Type>, we: Env, wk: Type, wv: Type,
      ms: seq<Member>, depth: nat)
    requires depth <= MAX_DEPTH + 1 && EncodeEntries(we, wk, wv, ms, depth).Some?
    ensures RecoveredEntries(re, rk, rv, we, wk, wv, ms, depth).Some? <==> FitEntries(we, wk, wv, ms, depth)
    decreases MAX_DEPTH + 1 - depth, 3, |ms|
  {
    hide EncodeValue, EncodeEntry, Recovered, RecoveredEntry, Fits;
    if ms != [] {
      EntryIffFits(re, rk, rv, we, wk, wv, ms[0], depth);
      EntriesIffFit(re, rk, rv, we, wk, wv, ms[1..], depth);
    }
  }

  lemma {:induction false} EntryIffFits(re: Env, rk: Option<Type>, rv: Option<Type>, we: Env, wk: Type, wv: Type,
      m: Member, depth: nat)
    requires depth <= MAX_DEPTH + 1 && EncodeEntry(we, wk, wv, m, depth).Some?
    ensures EncodeValue(we, wv, m.value, depth).Some?
    ensures RecoveredEntry(re, rk, rv, we, wk, wv, m, depth).Some? <==> Fits(we, wv, m.value, depth)
    decreases MAX_DEPTH + 1 - depth, 3, 0
  {
    hide EncodeValue, Recovered, Fits, EntryKey;
    KeyAlwaysRecovered(re, rk, we, wk, m.key, depth);
    RecoveredIffFits(re, rv, we, wv, m.value, depth);
  }

  // A string can only be written as a scalar, and reads back as a usable map key.
  lemma KeyAlwaysRecovered(re: Env, rk: Option<Type>, we: Env, wk: Type, key: CStr, depth: nat)
    requires depth <= MAX_DEPTH + 1 && EncodeValue(we, wk, Str(key), depth).Some?
    ensures CompactType(wk) <= 8
    ensures Recovered(re, rk, we, wk, Str(key), depth).Some?
    ensures EntryKey(re, Recovered(re, rk, we, wk, Str(key), depth).value).Some?
  {
  }

  lemma {:induction false} StructIffFits(re: Env, rf: Option<seq<Field>>, we: Env, wf: Option<seq<Field>>, v: Json, depth: nat)
    requires depth <= MAX_DEPTH + 1 && EncodeStruct(we, wf, v, depth).Some?
    ensures RecoveredStruct(re, rf, we, wf, v, depth).Some? <==> FitsStruct(we, wf, v, depth)
    decreases MAX_DEPTH + 1 - depth, 1, 0
  {
    FieldsIffFit(re, rf, we, wf.value, 0, 0, v, depth);
  }

  lemma {:induction false} FieldsIffFit(re: Env, rf: Option<seq<Field>>, we: Env, wf: seq<Field>, index: nat,
      last: int, v: Json, depth: nat)
    requires depth <= MAX_DEPTH && index <= |wf|
    requires EncodeFields(we, wf, index, last, v, depth).Some?
    ensures RecoveredFields(re, rf, we, wf, index, last, v, depth).Some? <==> FitFields(we, wf, index, last, v, depth)
    decreases MAX_DEPTH + 1 - depth, 0, |wf| - index
  {
    hide EncodeValue, Recovered, Fits;
    if index < |wf| {
      match Pick(wf[index], index, v) {
        case None => FieldsIffFit(re, rf, we, wf, index + 1, last, v, depth);
        case Some(x) =>
          if wf[index].ty != TBool {
            RecoveredIffFits(re, TypeFor(rf, wf[index].id), we, wf[index].ty, x, depth + 1);
          }
          FieldsIffFit(re, rf, we, wf, index + 1, wf[index].id, v, depth);
      }
    }
  }

  // ---- Values in the form the reader itself produces ----

  predicate CanonicalNumeral(s: CStr) {
    Text.ParseInteger(s).Some? && Decimal(Text.ParseInteger(s).value) == s
  }

  predicate CanonicalNumber(t: Type, bits: Bits) {
    ToSafeInt(bits).Some? && FromInt(ToSafeInt(bits).value) == bits && InRange(t, ToSafeInt(bits).value)
  }

  predicate CanonicalBase64(env: Env, s: CStr) {
    env.b64Decode(s).Some? && env.b64Encode(env.b64Decode(s).value) == s
  }

  predicate CanonicalKey(env: Env, t: Type, key: CStr) {
    match t
    case TString => true
    case TBinary => CanonicalBase64(env, key)
    case TByte => CanonicalNumeral(key) && InRange(t, Text.ParseInteger(key).value)
    case TI16 => CanonicalNumeral(key) && InRange(t, Text.ParseInteger(key).value)
    case TI32 => CanonicalNumeral(key) && InRange(t, Text.ParseInteger(key).value)
    case TI64 => CanonicalNumeral(key)
    case _ => false
  }

  predicate Canonical(env: Env, t: Type, v: Json)
    decreases v, 0, 0
  {
    match t
    case TBool => v.Bool?
    case TByte => v.Num? && CanonicalNumber(t, v.bits)
    case TI16 => v.Num? && CanonicalNumber(t, v.bits)
    case TI32 => v.Num? && CanonicalNumber(t, v.bits)
    case TI64 => v.Str? && CanonicalNumeral(v.s)
    case TDouble => v.Num?
    case TString => v.Str?
    case TBinary => v.Str? && CanonicalBase64(env, v.s)
    case TList(elem) => v.Arr? && forall i :: 0 <= i < |v.items| ==> Canonical(env, elem, v.items[i])
    case TSet(elem) => v.Arr? && forall i :: 0 <= i < |v.items| ==> Canonical(env, elem, v.items[i])
    case TMap(key, value) =>
      && v.Obj?
      && forall i :: 0 <= i < |v.members| ==>
           CanonicalKey(env, key, v.members[i].key) && Canonical(env, value, v.members[i].value)
    case TStruct(name) => v.Obj? && name in env.structs && CanonicalFields(env, env.structs[name], v.members)
    case TAny => false
  }

  // Members follow schema order, each under its schema name, none of them null.
  predicate CanonicalFields(env: Env, fields: seq<Field>, ms: seq<Member>)
    decreases ms, 1, |fields|
  {
    if ms == [] then true
    else if fields == [] then false
    else if ms[0].key == fields[0].name then
      !ms[0].value.Null? && Canonical(env, fields[0].ty, ms[0].value) && CanonicalFields(env, fields[1..], ms[1..])
    else CanonicalFields(env, fields[1..], ms)
  }

  // Levels of nesting a value adds below the one it stands at.
  function Levels(env: Env, t: Type, v: Json): (n: nat)
    decreases v, 0, 0
  {
    match t
    case TList(elem) => if v.Arr? then ItemLevels(env, elem, v.items) else 0
    case TSet(elem) => if v.Arr? then ItemLevels(env, elem, v.items) else 0
    case TMap(key, value) => if v.Obj? then EntryLevels(env, value, v.members) else 0
    case TStruct(name) => if v.Obj? && name in env.structs then 1 + FieldLevels(env, env.structs[name], v.members) else 1
    case _ => 0
  }

  function Max(a: nat, b: nat): nat {
    if a < b then b else a
  }

  function ItemLevels(env: Env, t: Type, items: seq<Json>): nat
    decreases items, 1, 0
  {
    if items == [] then 0 else Max(1 + Levels(env, t, items[0]), ItemLevels(env, t, items[1..]))
  }

  function EntryLevels(env: Env, t: Type, ms: seq<Member>): nat
    decreases ms, 1, 0
  {
    if ms == [] then 0 else Max(1 + Levels(env, t, ms[0].value), EntryLevels(env, t, ms[1..]))
  }

  // A bool field costs the writer nothing.
  function FieldLevels(env: Env, fields: seq<Field>, ms: seq<Member>): nat
    decreases ms, 1, |fields|
  {
    if ms == [] || fields == [] then 0
    else if ms[0].key == fields[0].name then
      Max(if fields[0].ty == TBool then 0 else 1 + Levels(env, fields[0].ty, ms[0].value),
          FieldLevels(env, fields[1..], ms[1..]))
    else FieldLevels(env, fields[1..], ms)
  }

  predicate WellFormed(env: Env) {
    forall name :: name in env.structs ==> AscendingIds(env.structs[name]) && DistinctNames(env.structs[name])
  }

  // The writer takes a canonical value exactly when its nesting fits, and what
  // the reader recovers, if anything, is the value itself.
  lemma {:induction false} CanonicalValue(env: Env, t: Type, v: Json, depth: nat)
    requires WellFormed(env) && Canonical(env, t, v) && depth <= MAX_DEPTH + 1
    ensures EncodeValue(env, t, v, depth).Some? <==> depth + Levels(env, t, v) <= MAX_DEPTH
    ensures EncodeValue(env, t, v, depth).Some? ==>
      Recovered(env, Some(t), env, t, v, depth) in {None, Some(v)}
    decreases v, 0, 0
  {
    hide EncodeItems, EncodeEntries, EncodeStruct, EncodeScalar, RecoveredItems, RecoveredEntries, RecoveredStruct, RecoveredScalar;
    hide ItemLevels, EntryLevels, FieldLevels, CanonicalFields, CanonicalKey;
    if depth <= MAX_DEPTH {
      match t
      case TList(elem) => CanonicalItems(env, elem, v.items, depth + 1);
      case TSet(elem) => CanonicalItems(env, elem, v.items, depth + 1);
      case TMap(key, value) => CanonicalEntries(env, key, value, v.members, depth + 1);
      case TStruct(name) =>
        CanonicalStruct(env, env.structs[name], v, depth + 1);
      case _ => CanonicalScalar(env, t, v);
    }
  }

  lemma CanonicalScalar(env: Env, t: Type, v: Json)
    requires CompactType(t) <= 8 && Canonical(env, t, v)
    ensures EncodeScalar(env, t, v).Some?
    ensures RecoveredScalar(env, Some(t), env, t, v) == v
  {
  }

  lemma {:induction false} CanonicalItems(env: Env, t: Type, items: seq<Json>, depth: nat)
    requires WellFormed(env) && 1 <= depth <= MAX_DEPTH + 1
    requires forall i :: 0 <= i < |items| ==> Canonical(env, t, items[i])
    ensures EncodeItems(env, t, items, depth).Some? <==> depth - 1 + ItemLevels(env, t, items) <= MAX_DEPTH
    ensures EncodeItems(env, t, items, depth).Some? ==>
      RecoveredItems(env, Some(t), env, t, items, depth) in {None, Some(items)}
    decreases items, 1, 0
  {
    hide EncodeValue, Recovered, Levels, Canonical, WellFormed;
    if items != [] {
      CanonicalValue(env, t, items[0], depth);
      CanonicalItems(env, t, items[1..], depth);
      assert [items[0]] + items[1..] == items;
    }
  }

  lemma {:induction false} CanonicalEntries(env: Env, key: Type, value: Type, ms: seq<Member>, depth: nat)
    requires WellFormed(env) && 1 <= depth <= MAX_DEPTH + 1
    requires forall i :: 0 <= i < |ms| ==> CanonicalKey(env, key, ms[i].key) && Canonical(env, value, ms[i].value)
    ensures EncodeEntries(env, key, value, ms, depth).Some? <==> depth - 1 + EntryLevels(env, value, ms) <= MAX_DEPTH
    ensures EncodeEntries(env, key, value, ms, depth).Some? ==>
      RecoveredEntries(env, Some(key), Some(value), env, key, value, ms, depth) in {None, Some(ms)}
    decreases ms, 1, 0
  {
    hide EncodeValue, Recovered, Levels, EntryKey, CanonicalKey, Canonical, WellFormed;
    if ms != [] {
      CanonicalMapKey(env, key, ms[0].key, depth);
      CanonicalValue(env, value, ms[0].value, depth);
      CanonicalEntries(env, key, value, ms[1..], depth);
      assert [ms[0]] + ms[1..] == ms;
    }
  }

  lemma CanonicalMapKey(env: Env, t: Type, key: CStr, depth: nat)
    requires CanonicalKey(env, t, key) && depth <= MAX_DEPTH + 1
    ensures EncodeValue(env, t, Str(key), depth).Some? <==> depth <= MAX_DEPTH
    ensures depth <= MAX_DEPTH ==>
      && Recovered(env, Some(t), env, t, Str(key), depth).Some?
      && EntryKey(env, Recovered(env, Some(t), env, t, Str(key), depth).value) == Some(key)
  {
    if t == TByte || t == TI16 || t == TI32 {
      SafeIntRoundTrip(Text.ParseInteger(key).value);
    }
  }

  lemma {:induction false} CanonicalStruct(env: Env, fields: seq<Field>, v: Json, depth: nat)
    requires WellFormed(env) && depth <= MAX_DEPTH + 1 && DistinctNames(fields) && AscendingIds(fields)
    requires v.Obj? && CanonicalFields(env, fields, v.members)
    ensures EncodeStruct(env, Some(fields), v, depth).Some? <==> depth + FieldLevels(env, fields, v.members) <= MAX_DEPTH
    ensures EncodeStruct(env, Some(fields), v, depth).Some? ==>
      RecoveredStruct(env, Some(fields), env, Some(fields), v, depth) in {None, Some(v)}
    decreases v.members, 2, 0
  {
    if depth <= MAX_DEPTH {
      assert fields[0..] == fields && [] + v.members == v.members;
      CanonicalMembers(env, fields, 0, 0, [], v.members, depth);
    }
  }

  predicate NamesOne(fields: seq<Field>, key: CStr) {
    exists i :: 0 <= i < |fields| && key == fields[i].name
  }

  predicate AllNamed(fields: seq<Field>, ms: seq<Member>) {
    forall k :: 0 <= k < |ms| ==> NamesOne(fields, ms[k].key)
  }

  // The members not yet written, ms, belong to the fields from index on.
  lemma {:induction false} CanonicalMembers(env: Env, fields: seq<Field>, index: nat, last: int,
      written: seq<Member>, ms: seq<Member>, depth: nat)
    requires WellFormed(env) && depth <= MAX_DEPTH && index <= |fields| && DistinctNames(fields) && AscendingIds(fields)
    requires CanonicalFields(env, fields[index..], ms)
    requires AllNamed(fields[..index], written)
    ensures EncodeFields(env, fields, index, last, Obj(written + ms), depth).Some?
      <==> depth + FieldLevels(env, fields[index..], ms) <= MAX_DEPTH
    ensures EncodeFields(env, fields, index, last, Obj(written + ms), depth).Some? ==>
      RecoveredFields(env, Some(fields), env, fields, index, last, Obj(written + ms), depth) in {None, Some(ms)}
    decreases ms, 1, |fields| - index
  {
    hide EncodeValue, EncodeField, Recovered, Levels, Canonical, WellFormed, AllNamed, AscendingIds, DistinctNames;
    var v := Obj(written + ms);
    if index < |fields| {
      var f := fields[index];
      assert fields[index..][0] == f && fields[index..][1..] == fields[index + 1..];
      FindPastWritten(fields, index, written, ms);
      if ms != [] && ms[0].key == f.name {
        var next := written + [ms[0]];
        assert next + ms[1..] == written + ms;
        NamedGrows(fields, index, written, next);
        CanonicalMembers(env, fields, index + 1, f.id, next, ms[1..], depth);
        assert Pick(f, index, v) == Some(ms[0].value);
        FieldIsKnown(fields, index);
        CanonicalValue(env, f.ty, ms[0].value, depth + 1);
        CanonicalField(env, f, last, ms[0].value, depth);
        assert [ms[0]] + ms[1..] == ms && ms[0] == Member(f.name, ms[0].value);
      } else {
        KeysAreNames(env, fields[index + 1..], ms);
        MissingField(fields, index, ms);
        assert Pick(f, index, v).None?;
        NamedGrows(fields, index, written, written);
        CanonicalMembers(env, fields, index + 1, last, written, ms, depth);
      }
    }
  }

  lemma CanonicalField(env: Env, f: Field, last: int, x: Json, depth: nat)
    requires WellFormed(env) && Canonical(env, f.ty, x) && depth <= MAX_DEPTH
    requires EncodeValue(env, f.ty, x, depth + 1).Some? <==> depth + 1 + Levels(env, f.ty, x) <= MAX_DEPTH
    requires EncodeValue(env, f.ty, x, depth + 1).Some? ==>
      Recovered(env, Some(f.ty), env, f.ty, x, depth + 1) in {None, Some(x)}
    ensures EncodeField(env, f, last, x, depth).Some?
      <==> depth + (if f.ty == TBool then 0 else 1 + Levels(env, f.ty, x)) <= MAX_DEPTH
  {
  }

  // The round trip for one schema: a canonical value nested at most 40 levels is
  // written, and if it also fits the reader's limits the reader returns it and
  // consumes exactly its bytes; otherwise the reader refuses.
  lemma RoundTrip(env: Env, name: CStr, v: Json, suffix: Bytes)
    requires WellFormed(env) && name in env.structs
    requires v.Obj? && CanonicalFields(env, env.structs[name], v.members)
    ensures EncodeStruct(env, Some(env.structs[name]), v, 0).Some?
      <==> FieldLevels(env, env.structs[name], v.members) <= MAX_DEPTH
    ensures forall b :: EncodeStruct(env, Some(env.structs[name]), v, 0) == Some(b) && |b| <= MAX_WIRE_SIZE ==>
      ParseStruct(env, false, Some(env.structs[name]), b + suffix, 0)
        == if FitsStruct(env, Some(env.structs[name]), v, 0) then Ok(v, suffix) else Fail
  {
    var fields := Some(env.structs[name]);
    CanonicalStruct(env, env.structs[name], v, 0);
    forall b | EncodeStruct(env, fields, v, 0) == Some(b) && |b| <= MAX_WIRE_SIZE
      ensures ParseStruct(env, false, fields, b + suffix, 0) == if FitsStruct(env, fields, v, 0) then Ok(v, suffix) else Fail
    {
      SelfCompatible(env);
      StructRoundTrip(env, fields, env, fields, v, 0, b, suffix);
      StructIffFits(env, fields, env, fields, v, 0);
    }
  }

  lemma SelfCompatible(env: Env)
    requires WellFormed(env)
    ensures Compatible(env, env)
  {
  }

  lemma NamedGrows(fields: seq<Field>, index: nat, written: seq<Member>, next: seq<Member>)
    requires index < |fields| && AllNamed(fields[..index], written)
    requires next == written || (|next| == |written| + 1 && next[..|written|] == written && next[|written|].key == fields[index].name)
    ensures AllNamed(fields[..index + 1], next)
  {
    forall k | 0 <= k < |next| ensures NamesOne(fields[..index + 1], next[k].key) {
      if k == |written| {
        assert fields[..index + 1][index].name == next[k].key;
      } else {
        assert next[k] == next[..|written|][k] && NamesOne(fields[..index], written[k].key);
        var i :| 0 <= i < index && written[k].key == fields[..index][i].name;
        assert fields[..index + 1][i].name == next[k].key;
      }
    }
  }

  lemma {:induction false} KeysAreNames(env: Env, fields: seq<Field>, ms: seq<Member>)
    requires CanonicalFields(env, fields, ms)
    ensures AllNamed(fields, ms)
    decreases |fields|
  {
    if ms != [] {
      var taken := ms[0].key == fields[0].name;
      var rest := if taken then ms[1..] else ms;
      KeysAreNames(env, fields[1..], rest);
      forall k | 0 <= k < |ms| ensures NamesOne(fields, ms[k].key) {
        if taken && k == 0 {
          assert fields[0].name == ms[k].key;
        } else {
          assert NamesOne(fields[1..], rest[if taken then k - 1 else k].key);
          var i :| 0 <= i < |fields[1..]| && fields[1..][i].name == ms[k].key;
          assert fields[i + 1].name == ms[k].key;
        }
      }
    }
  }

  lemma FieldIsKnown(fields: seq<Field>, index: nat)
    requires AscendingIds(fields) && index < |fields|
    ensures FindField(fields, fields[index].id) == Some(fields[index])
  {
  }

  lemma {:induction false} NotFound(ms: seq<Member>, key: CStr)
    requires forall k :: 0 <= k < |ms| ==> ms[k].key != key
    ensures Find(ms, key).None?
  {
    if ms != [] {
      NotFound(ms[1..], key);
    }
  }

  lemma NameIsDistinct(fields: seq<Field>, index: nat, others: seq<Field>, key: CStr)
    requires DistinctNames(fields) && index < |fields| && NamesOne(others, key)
    requires others == fields[..index] || others == fields[index + 1..]
    ensures key != fields[index].name
  {
    var i :| 0 <= i < |others| && others[i].name == key;
    var j := if others == fields[..index] then i else index + 1 + i;
    assert j != index && fields[j].name == key;
    if key == fields[index].name {
      EqualItself(key);
    }
  }

  lemma EqualItself(key: CStr)
    ensures EqualIgnoringCase(key, key)
  {
  }

  lemma {:induction false} FindPastWritten(fields: seq<Field>, index: nat, written: seq<Member>, ms: seq<Member>)
    requires DistinctNames(fields) && index < |fields| && AllNamed(fields[..index], written)
    ensures Find(written + ms, fields[index].name) == Find(ms, fields[index].name)
  {
    if written == [] {
      assert written + ms == ms;
    } else {
      NameIsDistinct(fields, index, fields[..index], written[0].key);
      assert (written + ms)[1..] == written[1..] + ms;
      FindPastWritten(fields, index, written[1..], ms);
    }
  }

  lemma MissingField(fields: seq<Field>, index: nat, ms: seq<Member>)
    requires DistinctNames(fields) && index < |fields| && AllNamed(fields[index + 1..], ms)
    ensures Find(ms, fields[index].name).None?
  {
    forall k | 0 <= k < |ms| ensures ms[k].key != fields[index].name {
      NameIsDistinct(fields, index, fields[index + 1..], ms[k].key);
    }
    NotFound(ms, fields[index].name);
  }
}
