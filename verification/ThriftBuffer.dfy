// The writer: a growing buffer capped at 8 MiB. Each method appends exactly the
// bytes ThriftEncoding assigns to its argument, or reports failure; on failure
// the buffer may be left with part of them, and the caller drops it.
module ThriftBuffer {
  import opened Optional
  import opened Text
  import opened Ieee
  import opened Json
  import opened ThriftSchema
  import opened ThriftEncoding

  class Buffer {
    var data: Bytes

    constructor ()
      ensures data == []
    {
      data := [];
    }

    ghost predicate Valid()
      reads this
    {
      |data| <= MAX_WIRE_SIZE
    }

    // ok: the bytes of what were appended to before and still fit the cap.
    ghost predicate Wrote(before: Bytes, what: Option<Bytes>, ok: bool)
      reads this
    {
      && Valid()
      && (ok <==> what.Some? && |before| + |what.value| <= MAX_WIRE_SIZE)
      && (ok ==> data == before + what.value)
    }

    method AppendBytes(p: Bytes) returns (ok: bool)
      requires Valid()
      modifies this
      ensures Wrote(old(data), Some(p), ok)
    {
      if |p| > MAX_WIRE_SIZE || |data| > MAX_WIRE_SIZE - |p| {
        return false;
      }
      data := data + p;
      return true;
    }

    method WriteByte(c: Byte) returns (ok: bool)
      requires Valid()
      modifies this
      ensures Wrote(old(data), Some([c]), ok)
    {
      ok := AppendBytes([c]);
    }

    method WriteVarint(n: nat) returns (ok: bool)
      requires Valid()
      modifies this
      ensures Wrote(old(data), Some(EncodeVarint(n)), ok)
    {
      var rest := n;
      while rest >= 128
        invariant Valid() && old(data) <= data
        invariant EncodeVarint(n) == data[|old(data)|..] + EncodeVarint(rest)
      {
        ghost var before := data;
        ok := WriteByte(rest % 128 + 128);
        if !ok {
          return;
        }
        assert data[|old(data)|..] == before[|old(data)|..] + [rest % 128 + 128];
        rest := rest / 128;
      }
      assert data == old(data) + data[|old(data)|..];
      ghost var before := data;
      ok := WriteByte(rest);
      assert ok ==> data == old(data) + (before[|old(data)|..] + [rest]);
    }

    method WriteInteger(t: Type, v: Json) returns (ok: bool)
      requires Valid()
      modifies this
      ensures Wrote(old(data), EncodeInteger(t, v), ok)
    {
      match JsonInteger(v) {
        case None => return false;
        case Some(n) =>
          if !InRange(t, n) {
            return false;
          }
          if t == TByte {
            ok := WriteByte(LowByte(n));
          } else {
            ok := WriteVarint(ZigZag(n));
          }
      }
    }

    method WriteBlob(s: Bytes) returns (ok: bool)
      requires Valid()
      modifies this
      ensures Wrote(old(data), Some(EncodeBlob(s)), ok)
    {
      ok := WriteVarint(|s|);
      if ok {
        ok := AppendBytes(s);
        assert ok ==> data == old(data) + (EncodeVarint(|s|) + s);
      }
    }

    method WriteDouble(bits: Bits) returns (ok: bool)
      requires Valid()
      modifies this
      ensures Wrote(old(data), Some(LittleEndian(bits, 8)), ok)
    {
      var rest: nat := bits;
      var i := 0;
      while i < 8
        invariant 0 <= i <= 8 && Valid() && old(data) <= data && |data| == |old(data)| + i
        invariant LittleEndian(bits, 8) == data[|old(data)|..] + LittleEndian(rest, 8 - i)
      {
        ghost var before := data;
        ok := WriteByte(LowByte(rest));
        if !ok {
          return;
        }
        assert data[|old(data)|..] == before[|old(data)|..] + [LowByte(rest)];
        rest := rest / 256;
        i := i + 1;
      }
      assert data == old(data) + data[|old(data)|..];
      return true;
    }

    method WriteScalar(env: Env, t: Type, v: Json) returns (ok: bool)
      requires Valid()
      modifies this
      ensures Wrote(old(data), EncodeScalar(env, t, v), ok)
    {
      match t {
        case TBool =>
          if !v.Bool? {
            return false;
          }
          ok := WriteByte(if v.b then 1 else 2);
        case TDouble =>
          if !v.Num? {
            return false;
          }
          ok := WriteDouble(v.bits);
        case TString =>
          if !v.Str? {
            return false;
          }
          ok := WriteBlob(v.s);
        case TBinary =>
          if !v.Str? {
            return false;
          }
          match env.b64Decode(v.s) {
            case None => return false;
            case Some(raw) => ok := WriteBlob(raw);
          }
        case _ => ok := WriteInteger(t, v);
      }
    }

    method WriteValue(env: Env, t: Type, v: Json, depth: nat) returns (ok: bool)
      requires Valid() && depth <= MAX_DEPTH + 1
      modifies this
      ensures Wrote(old(data), EncodeValue(env, t, v, depth), ok)
      decreases MAX_DEPTH + 1 - depth, 3, 0
    {
      if depth > MAX_DEPTH {
        return false;
      }
      match t {
        case TList(elem) => ok := WriteList(env, elem, v, depth + 1);
        case TSet(elem) => ok := WriteList(env, elem, v, depth + 1);
        case TMap(key, value) => ok := WriteMap(env, key, value, v, depth + 1);
        case TStruct(_) => ok := WriteStruct(env, StructFields(env, Some(t)), v, depth + 1);
        case TAny => return false;
        case _ => ok := WriteScalar(env, t, v);
      }
    }

    method WriteList(env: Env, elem: Type, v: Json, depth: nat) returns (ok: bool)
      requires Valid() && depth <= MAX_DEPTH + 1
      modifies this
      ensures Wrote(old(data), EncodeList(env, elem, v, depth), ok)
      decreases MAX_DEPTH + 1 - depth, 5, 0
    {
      hide EncodeItems, ListHeader;
      if !v.Arr? {
        return false;
      }
      ok := WriteListHeader(elem, |v.items|);
      if ok {
        ghost var header := ListHeader(elem, |v.items|);
        ok := WriteItems(env, elem, v.items, depth);
        Sequenced(old(data), header, EncodeItems(env, elem, v.items, depth));
      }
    }

    method WriteListHeader(elem: Type, count: nat) returns (ok: bool)
      requires Valid()
      modifies this
      ensures Wrote(old(data), Some(ListHeader(elem, count)), ok)
    {
      ok := WriteByte((if count < 15 then count else 15) * 16 + CompactType(elem));
      if ok && count >= 15 {
        ok := WriteVarint(count);
        Sequenced(old(data), [15 * 16 + CompactType(elem)], Some(EncodeVarint(count)));
      }
    }

    method WriteItems(env: Env, elem: Type, items: seq<Json>, depth: nat) returns (ok: bool)
      requires Valid() && depth <= MAX_DEPTH + 1
      modifies this
      ensures Wrote(old(data), EncodeItems(env, elem, items, depth), ok)
      decreases MAX_DEPTH + 1 - depth, 4, 0
    {
      hide EncodeValue;
      ghost var all := EncodeItems(env, elem, items, depth);
      ghost var done: Bytes := [];
      JoinNothing(all);
      assert items[0..] == items;
      for i := 0 to |items|
        invariant Valid() && data == old(data) + done
        invariant all == Join(Some(done), EncodeItems(env, elem, items[i..], depth))
      {
        assert items[i..][1..] == items[i + 1..];
        ok := WriteValue(env, elem, items[i], depth);
        ghost var item := EncodeValue(env, elem, items[i], depth);
        JoinAssoc(done, item, EncodeItems(env, elem, items[i + 1..], depth));
        if !ok {
          return;
        }
        done := done + item.value;
      }
      assert done + [] == done;
      return true;
    }

    method WriteMap(env: Env, key: Type, value: Type, v: Json, depth: nat) returns (ok: bool)
      requires Valid() && depth <= MAX_DEPTH + 1
      modifies this
      ensures Wrote(old(data), EncodeMap(env, key, value, v, depth), ok)
      decreases MAX_DEPTH + 1 - depth, 5, 0
    {
      hide EncodeEntries, MapHeader;
      if !v.Obj? {
        return false;
      }
      ok := WriteMapHeader(key, value, |v.members|);
      if ok {
        ghost var header := MapHeader(key, value, |v.members|);
        ok := WriteEntries(env, key, value, v.members, depth);
        Sequenced(old(data), header, EncodeEntries(env, key, value, v.members, depth));
      }
    }

    method WriteMapHeader(key: Type, value: Type, count: nat) returns (ok: bool)
      requires Valid()
      modifies this
      ensures Wrote(old(data), Some(MapHeader(key, value, count)), ok)
    {
      ok := WriteVarint(count);
      if ok && count > 0 {
        ghost var kinds := [CompactType(key) * 16 + CompactType(value)];
        ok := WriteByte(CompactType(key) * 16 + CompactType(value));
        Sequenced(old(data), EncodeVarint(count), Some(kinds));
      }
    }

    method WriteEntries(env: Env, key: Type, value: Type, members: seq<Member>, depth: nat) returns (ok: bool)
      requires Valid() && depth <= MAX_DEPTH + 1
      modifies this
      ensures Wrote(old(data), EncodeEntries(env, key, value, members, depth), ok)
      decreases MAX_DEPTH + 1 - depth, 4, 1
    {
      hide EncodeEntry;
      ghost var all := EncodeEntries(env, key, value, members, depth);
      ghost var done: Bytes := [];
      JoinNothing(all);
      assert members[0..] == members;
      for i := 0 to |members|
        invariant Valid() && data == old(data) + done
        invariant all == Join(Some(done), EncodeEntries(env, key, value, members[i..], depth))
      {
        assert members[i..][1..] == members[i + 1..];
        ok := WriteEntry(env, key, value, members[i], depth);
        ghost var entry := EncodeEntry(env, key, value, members[i], depth);
        JoinAssoc(done, entry, EncodeEntries(env, key, value, members[i + 1..], depth));
        if !ok {
          return;
        }
        done := done + entry.value;
      }
      assert done + [] == done;
      return true;
    }

    method WriteEntry(env: Env, key: Type, value: Type, m: Member, depth: nat) returns (ok: bool)
      requires Valid() && depth <= MAX_DEPTH + 1
      modifies this
      ensures Wrote(old(data), EncodeEntry(env, key, value, m, depth), ok)
      decreases MAX_DEPTH + 1 - depth, 4, 0
    {
      hide EncodeValue;
      ok := WriteValue(env, key, Str(m.key), depth);
      if ok {
        ghost var k := EncodeValue(env, key, Str(m.key), depth).value;
        ok := WriteValue(env, value, m.value, depth);
        Sequenced(old(data), k, EncodeValue(env, value, m.value, depth));
      }
    }

    method WriteStruct(env: Env, fields: Option<seq<Field>>, v: Json, depth: nat) returns (ok: bool)
      requires Valid() && depth <= MAX_DEPTH + 1
      modifies this
      ensures Wrote(old(data), EncodeStruct(env, fields, v, depth), ok)
      decreases MAX_DEPTH + 1 - depth, 2, 0
    {
      if depth > MAX_DEPTH || fields.None? || !(v.Obj? || v.Arr?) {
        return false;
      }
      hide EncodeField;
      var fs := fields.value;
      var last := 0;
      ghost var all := EncodeFields(env, fs, 0, 0, v, depth);
      ghost var done: Bytes := [];
      JoinNothing(all);
      for index := 0 to |fs|
        invariant Valid() && data == old(data) + done
        invariant all == Join(Some(done), EncodeFields(env, fs, index, last, v, depth))
      {
        var f := fs[index];
        match Pick(f, index, v) {
          case None =>
          case Some(x) =>
            ok := WriteField(env, f, last, x, depth);
            ghost var field := EncodeField(env, f, last, x, depth);
            JoinAssoc(done, field, EncodeFields(env, fs, index + 1, f.id, v, depth));
            if !ok {
              return;
            }
            done := done + field.value;
            last := f.id;
        }
      }
      ok := WriteByte(0);
      Sequenced(old(data), done, Some([0]));
    }

    method WriteField(env: Env, f: Field, last: int, x: Json, depth: nat) returns (ok: bool)
      requires Valid() && depth <= MAX_DEPTH
      modifies this
      ensures Wrote(old(data), EncodeField(env, f, last, x, depth), ok)
      decreases MAX_DEPTH + 1 - depth, 0, 0
    {
      hide EncodeValue, FieldHeader;
      var code := CompactType(f.ty);
      if code == 1 {
        if !x.Bool? {
          return false;
        }
        code := if x.b then 1 else 2;
      }
      ok := WriteFieldHeader(last, f.id, code);
      if ok && code > 2 {
        ghost var header := FieldHeader(last, f.id, code);
        ok := WriteValue(env, f.ty, x, depth + 1);
        Sequenced(old(data), header, EncodeValue(env, f.ty, x, depth + 1));
      }
    }

    method WriteFieldHeader(last: int, id: int, code: int) returns (ok: bool)
      requires Valid() && 1 <= code <= 12
      modifies this
      ensures Wrote(old(data), Some(FieldHeader(last, id, code)), ok)
    {
      var delta := id - last;
      ok := WriteByte((if 0 < delta < 16 then delta * 16 else 0) + code);
      if ok && (delta <= 0 || delta >= 16) {
        ok := WriteVarint(ZigZag(id));
        Sequenced(old(data), [code], Some(EncodeVarint(ZigZag(id))));
      }
    }
  }

  // Two appends in a row are the append of the joined bytes.
  lemma Sequenced(before: Bytes, a: Bytes, b: Option<Bytes>)
    ensures b.Some? ==> (before + a) + b.value == before + (a + b.value)
  {
  }

  lemma JoinNothing(c: Option<Bytes>)
    ensures Join(Some([]), c) == c
  {
    if c.Some? {
      assert [] + c.value == c.value;
    }
  }

  lemma JoinAssoc(a: Bytes, b: Option<Bytes>, c: Option<Bytes>)
    ensures b.Some? ==> Join(Some(a), Join(b, c)) == Join(Some(a + b.value), c)
  {
    if b.Some? && c.Some? {
      assert a + (b.value + c.value) == (a + b.value) + c.value;
    }
  }
}
