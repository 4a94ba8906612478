// The reader: a cursor over a byte block that never passes its end, and a flag
// that once set stays set. Each method decodes exactly what ThriftParsing says,
// or sets the flag; it may run on after that, and then only these two facts hold.
module ThriftReader {
  import opened Optional
  import opened Text
  import opened Ieee
  import opened Json
  import opened ThriftSchema
  import opened ThriftParsing

  class Reader {
    const p: Bytes
    const strict: bool
    var pos: nat
    var bad: bool

    constructor (p: Bytes, strict: bool)
      ensures this.p == p && this.strict == strict && pos == 0 && !bad
    {
      this.p := p;
      this.strict := strict;
      pos := 0;
      bad := false;
    }

    ghost predicate Valid()
      reads this
    {
      pos <= |p|
    }

    ghost function Rest(): Bytes
      requires Valid()
      reads this
    {
      p[pos..]
    }

    // The cursor only moves on, and a failure is never forgotten.
    twostate predicate Advanced()
      reads this
    {
      Valid() && old(pos) <= pos && (old(bad) ==> bad)
    }

    // What was read is what parsing the bytes ahead gives; failing to parse them
    // sets the flag.
    ghost predicate Read<T>(parse: Parse<T>, value: T)
      requires Valid()
      reads this
    {
      match parse
      case Fail => bad
      case Ok(v, rest) => !bad && value == v && Rest() == rest
    }

    method ReadByte() returns (c: Byte)
      requires Valid()
      modifies this`pos, this`bad
      ensures Advanced()
      ensures old(pos) < |p| ==> c == p[old(pos)] && pos == old(pos) + 1 && bad == old(bad)
      ensures old(pos) == |p| ==> c == 0 && pos == old(pos) && bad
    {
      if pos >= |p| {
        bad := true;
        return 0;
      }
      c := p[pos];
      pos := pos + 1;
    }

    // The value is kept in 64 bits, as the C accumulator is.
    method ReadVarint() returns (n: nat)
      requires Valid()
      modifies this`pos, this`bad
      ensures Advanced() && n < TWO_TO_64
      ensures !old(bad) ==> Read(ParseVarint(old(Rest())), n)
    {
      hide Shifted, Weighs, OrInto, ParseVarint;
      n := 0;
      var weight: nat := 1;
      ghost var all := ParseVarint(old(Rest()));
      ShiftNone(all);
      for i := 0 to 10
        invariant Advanced() && n < TWO_TO_64
        invariant !old(bad) && bad ==> all.Fail?
        invariant i == 10 ==> bad
        invariant !old(bad) && !bad && i <= 9 ==> Weighs(n, weight, i)
        invariant !old(bad) && !bad ==> all == Shifted(n, weight, ParseVarint(Rest(), i))
      {
        ghost var rest, fine := Rest(), !old(bad) && !bad;
        var c := ReadByte();
        assert rest != [] ==> rest[0] == c && Rest() == rest[1..];
        if fine {
          GroupStep(n, weight, i, rest);
        }
        if i == 9 && c > 1 {
          bad := true;
        }
        n := OrInto(n, LowGroup(c), weight);
        if c < 128 {
          return;
        }
        weight := weight * 128;
      }
      bad := true;
      return 0;
    }

    method ReadSigned() returns (n: int)
      requires Valid()
      modifies this`pos, this`bad
      ensures Advanced() && IsInt64(n)
      ensures !old(bad) ==> Read(ParseSigned(old(Rest())), n)
    {
      var raw := ReadVarint();
      n := UnZigZag(raw);
    }

    method ReadDouble() returns (bits: Bits)
      requires Valid()
      modifies this`pos, this`bad
      ensures Advanced()
      ensures !old(bad) ==>
        var s := old(Rest());
        if |s| < 8 then bad else !bad && bits == FromLittleEndian(s[..8]) && Rest() == s[8..]
    {
      ghost var s := Rest();
      var image: Bytes := [];
      for i := 0 to 8
        invariant Advanced() && |image| == i
        invariant !old(bad) && !bad ==> i <= |s| && image == s[..i] && Rest() == s[i..]
        invariant !old(bad) && bad ==> |s| < 8
      {
        var c := ReadByte();
        image := image + [c];
      }
      LittleEndianRange(image);
      bits := FromLittleEndian(image);
    }

    method ReadBlob(env: Env, t: Option<Type>) returns (v: Option<Json>)
      requires Valid()
      modifies this`pos, this`bad
      ensures Advanced() && (v.None? ==> bad)
      ensures !old(bad) ==> Read(Boxed(ParseBlob(env, strict, t, old(Rest()))), v)
    {
      var n := ReadVarint();
      ghost var rest := Rest();
      if n > |p| - pos || n > MAX_WIRE_SIZE {
        bad := true;
        return None;
      }
      assert rest[..n] == p[pos..pos + n] && rest[n..] == p[pos + n..];
      match BlobText(env, strict, t, p[pos..pos + n]) {
        case None =>
          bad := true;
          return None;
        case Some(text) =>
          pos := pos + n;
          return Some(Str(text));
      }
    }

    method ReadScalar(env: Env, t: Option<Type>, code: int, field: bool) returns (v: Option<Json>)
      requires Valid() && 1 <= code <= 8
      modifies this`pos, this`bad
      ensures Advanced() && (v.None? ==> bad)
      ensures !old(bad) ==> Read(Boxed(ParseScalar(env, strict, t, code, old(Rest()), field)), v)
    {
      hide ParseBlob, ParseSigned, FromInt, Decimal, FromLittleEndian;
      if code <= 2 {
        var flag: int := code;
        if !field {
          flag := ReadByte();
        }
        if flag != 1 && flag != 2 {
          bad := true;
        }
        v := Some(Bool(flag == 1));
      } else if code == 3 {
        var c := ReadByte();
        v := Some(Num(FromInt(SignedByte(c))));
      } else if code <= 6 {
        var n := ReadSigned();
        v := Some(if code == 6 then Str(Decimal(n)) else Num(FromInt(n)));
      } else if code == 7 {
        var bits := ReadDouble();
        v := Some(Num(bits));
      } else {
        v := ReadBlob(env, t);
      }
    }

    // None is the C code's NULL.
    method ReadValue(env: Env, t: Option<Type>, code: int, depth: nat, field: bool) returns (v: Option<Json>)
      requires Valid() && depth <= MAX_DEPTH + 1
      modifies this`pos, this`bad
      ensures Advanced() && (v.None? ==> bad)
      ensures !old(bad) ==> Read(Boxed(ParseValue(env, strict, t, code, old(Rest()), depth, field)), v)
      decreases MAX_DEPTH + 1 - depth, 2, 0
    {
      hide ParseScalar, ParseList, ParseMap, ParseStruct;
      if depth > MAX_DEPTH || !TypeAgrees(t, code) {
        bad := true;
        return None;
      }
      if 1 <= code <= 8 {
        v := ReadScalar(env, t, code, field);
      } else if code == 9 || code == 10 {
        v := ReadList(env, ElemType(t), depth + 1);
      } else if code == 11 {
        v := ReadMap(env, KeyType(t), ValueType(t), depth + 1);
      } else if code == 12 {
        var o := ReadStruct(env, StructFields(env, t), depth + 1);
        v := Some(o);
      } else {
        bad := true;
        return None;
      }
    }

    method ReadList(env: Env, t: Option<Type>, depth: nat) returns (v: Option<Json>)
      requires Valid() && depth <= MAX_DEPTH + 1
      modifies this`pos, this`bad
      ensures Advanced() && (v.None? ==> bad)
      ensures !old(bad) ==> Read(Boxed(ParseList(env, strict, t, old(Rest()), depth)), v)
      decreases MAX_DEPTH + 1 - depth, 4, 0
    {
      hide ParseItems, ParseListHeader;
      var h := ReadListHeader();
      if h.count > MAX_COUNT || h.count > |p| - pos {
        bad := true;
        return Some(Arr([]));
      }
      var items := ReadItems(env, t, h.elem, h.count, depth);
      v := Some(Arr(items));
    }

    method ReadListHeader() returns (h: Header)
      requires Valid()
      modifies this`pos, this`bad
      ensures Advanced()
      ensures !old(bad) ==> Read(ParseListHeader(old(Rest())), h)
    {
      hide ParseVarint;
      var c := ReadByte();
      var first: int := c;
      var n := first / 16;
      if n == 15 {
        n := ReadVarint();
      }
      h := Header(0, first % 16, n);
    }

    method ReadItems(env: Env, t: Option<Type>, code: nat, count: nat, depth: nat) returns (items: seq<Json>)
      requires Valid() && depth <= MAX_DEPTH + 1
      modifies this`pos, this`bad
      ensures Advanced()
      ensures !old(bad) ==> Read(ParseItems(env, strict, t, code, count, old(Rest()), depth), items)
      decreases MAX_DEPTH + 1 - depth, 3, count
    {
      hide ParseValue;
      items := [];
      ghost var all := ParseItems(env, strict, t, code, count, Rest(), depth);
      AfterNone(all);
      var i := 0;
      while i < count && !bad
        invariant Advanced() && i <= count
        invariant !old(bad) && bad ==> all.Fail?
        invariant !old(bad) && !bad ==> all == After(items, ParseItems(env, strict, t, code, count - i, Rest(), depth))
      {
        var v := ReadValue(env, t, code, depth, false);
        if v.None? {
          return;
        }
        items := items + [v.value];
        AfterOne(items[..|items| - 1], v.value, ParseItems(env, strict, t, code, count - i - 1, Rest(), depth));
        i := i + 1;
      }
      assert items + [] == items;
    }

    method ReadMap(env: Env, kt: Option<Type>, vt: Option<Type>, depth: nat) returns (v: Option<Json>)
      requires Valid() && depth <= MAX_DEPTH + 1
      modifies this`pos, this`bad
      ensures Advanced() && (v.None? ==> bad)
      ensures !old(bad) ==> Read(Boxed(ParseMap(env, strict, kt, vt, old(Rest()), depth)), v)
      decreases MAX_DEPTH + 1 - depth, 4, 0
    {
      hide ParseEntries, ParseMapHeader;
      var h := ReadMapHeader();
      if h.count > MAX_COUNT || h.count > |p| - pos {
        bad := true;
        return Some(Obj([]));
      }
      var members := ReadEntries(env, kt, vt, h.key, h.elem, h.count, depth);
      v := Some(Obj(members));
    }

    method ReadMapHeader() returns (h: Header)
      requires Valid()
      modifies this`pos, this`bad
      ensures Advanced()
      ensures !old(bad) ==> Read(ParseMapHeader(old(Rest())), h)
    {
      hide ParseVarint;
      var n := ReadVarint();
      if n == 0 {
        return Header(0, 0, 0);
      }
      var c := ReadByte();
      var kinds: int := c;
      h := Header(kinds / 16, kinds % 16, n);
    }

    method ReadEntries(env: Env, kt: Option<Type>, vt: Option<Type>, kcode: nat, vcode: nat, count: nat,
        depth: nat) returns (members: seq<Member>)
      requires Valid() && depth <= MAX_DEPTH + 1
      modifies this`pos, this`bad
      ensures Advanced()
      ensures !old(bad) ==> Read(ParseEntries(env, strict, kt, vt, kcode, vcode, count, old(Rest()), depth), members)
      decreases MAX_DEPTH + 1 - depth, 3, count
    {
      hide ParseEntry;
      members := [];
      ghost var all := ParseEntries(env, strict, kt, vt, kcode, vcode, count, Rest(), depth);
      AfterNone(all);
      var i := 0;
      while i < count && !bad
        invariant Advanced() && i <= count
        invariant !old(bad) && bad ==> all.Fail?
        invariant !old(bad) && !bad ==>
          all == After(members, ParseEntries(env, strict, kt, vt, kcode, vcode, count - i, Rest(), depth))
      {
        ghost var before := members;
        var m := ReadEntry(env, kt, vt, kcode, vcode, depth);
        if m.None? {
          return;
        }
        members := members + [m.value];
        AfterOne(before, m.value, ParseEntries(env, strict, kt, vt, kcode, vcode, count - i - 1, Rest(), depth));
        i := i + 1;
      }
      assert members + [] == members;
    }

    method ReadEntry(env: Env, kt: Option<Type>, vt: Option<Type>, kcode: nat, vcode: nat, depth: nat) returns (m: Option<Member>)
      requires Valid() && depth <= MAX_DEPTH + 1
      modifies this`pos, this`bad
      ensures Advanced() && (m.None? ==> bad)
      ensures !old(bad) ==> Read(Boxed(ParseEntry(env, strict, kt, vt, kcode, vcode, old(Rest()), depth)), m)
      decreases MAX_DEPTH + 1 - depth, 2, 1
    {
      hide ParseValue;
      var k := ReadValue(env, kt, kcode, depth, false);
      var v := ReadValue(env, vt, vcode, depth, false);
      if k.None? || v.None? {
        return None;
      }
      match EntryKey(env, k.value) {
        case None =>
          bad := true;
          return None;
        case Some(key) => return Some(Member(key, v.value));
      }
    }

    method ReadStruct(env: Env, fields: Option<seq<Field>>, depth: nat) returns (o: Json)
      requires Valid() && depth <= MAX_DEPTH + 1
      modifies this`pos, this`bad
      ensures Advanced()
      ensures !old(bad) ==> Read(ParseStruct(env, strict, fields, old(Rest()), depth), o)
      decreases MAX_DEPTH + 1 - depth, 1, 0
    {
      hide ParseField, KeyFor, HasIgnoringCase;
      if depth > MAX_DEPTH {
        bad := true;
        return Obj([]);
      }
      var members: seq<Member> := [];
      var keys: seq<CStr> := [];
      var last := 0;
      ghost var all := ParseFields(env, strict, fields, Rest(), depth, 0, []);
      AfterNone(all);
      while !bad
        invariant Advanced()
        invariant !old(bad) && bad ==> all.Fail?
        invariant !old(bad) && !bad ==> all == After(members, ParseFields(env, strict, fields, Rest(), depth, last, keys))
        decreases |p| - pos, if bad then 0 else 1
      {
        var r := ReadField(env, fields, depth, last);
        if r == End {
          assert members + [] == members;
          break;
        }
        var key := KeyFor(fields, r.id);
        if HasIgnoringCase(keys, key) {
          bad := true;
          break;
        }
        ghost var before := members;
        members, keys, last := members + [Member(key, r.value)], keys + [key], r.id;
        AfterOne(before, Member(key, r.value), ParseFields(env, strict, fields, Rest(), depth, last, keys));
      }
      return Obj(members);
    }

    // One trip round the field loop: the stop byte or a failure gives End.
    method ReadField(env: Env, fields: Option<seq<Field>>, depth: nat, last: int) returns (r: FieldRead)
      requires Valid() && depth <= MAX_DEPTH
      modifies this`pos, this`bad
      ensures Advanced() && (r == End || bad || pos > old(pos))
      ensures !old(bad) ==> Read(ParseField(env, strict, fields, old(Rest()), depth, last), r)
      decreases MAX_DEPTH + 1 - depth, 0, 0
    {
      hide ParseValue, ParseSigned;
      var h := ReadByte();
      if h == 0 {
        return End;
      }
      var first: int := h;
      var id := last + first / 16;
      if first / 16 == 0 {
        var n := ReadSigned();
        id := ToInt32(n);
      }
      if !IsId(id) {
        bad := true;
        return End;
      }
      var v := ReadValue(env, TypeFor(fields, id), first % 16, depth + 1, true);
      if v.None? {
        bad := true;
        return End;
      }
      return Got(id, v.value);
    }
  }

  function Boxed<T>(parse: Parse<T>): Parse<Option<T>> {
    match parse
    case Fail => Fail
    case Ok(v, rest) => Ok(Some(v), rest)
  }

  // The parse of a sequence whose first elements were read already.
  function After<T>(read: seq<T>, parse: Parse<seq<T>>): Parse<seq<T>> {
    match parse
    case Fail => Fail
    case Ok(v, rest) => Ok(read + v, rest)
  }

  lemma AfterOne<T>(read: seq<T>, x: T, parse: Parse<seq<T>>)
    ensures After(read + [x], parse) == After(read, After([x], parse))
  {
    if parse.Ok? {
      assert (read + [x]) + parse.value == read + ([x] + parse.value);
    }
  }

  lemma AfterNone<T>(parse: Parse<seq<T>>)
    ensures After([], parse) == parse
  {
    if parse.Ok? {
      assert [] + parse.value == parse.value;
    }
  }

  // c & 127
  function LowGroup(c: Byte): nat {
    var low: int := c;
    low % 128
  }

  // n | (uint64_t)low << 7i, with weight 128^i; the bits do not overlap.
  function OrInto(n: nat, low: nat, weight: nat): (r: nat)
    ensures r < TWO_TO_64
  {
    (n + low * weight) % TWO_TO_64
  }

  // n holds i groups, weight is 128^i.
  predicate Weighs(n: nat, weight: nat, i: nat)
    requires i <= 9
  {
    n < weight && weight * VarintCap(i) == TWO_TO_64
  }

  // A varint's remaining groups, weighted and added to what was read before.
  function Shifted(n: nat, weight: nat, parse: Parse<nat>): Parse<nat> {
    match parse
    case Fail => Fail
    case Ok(v, rest) => Ok(n + weight * v, rest)
  }

  lemma ShiftNone(parse: Parse<nat>)
    ensures Weighs(0, 1, 0) && Shifted(0, 1, parse) == parse
  {
    assert VarintCap(0) == TWO_TO_64;
  }

  // What one more byte does to the varint being read.
  lemma GroupStep(n: nat, weight: nat, i: nat, rest: Bytes)
    requires i <= 9 && Weighs(n, weight, i)
    ensures rest == [] ==> Shifted(n, weight, ParseVarint(rest, i)).Fail?
    ensures rest != [] && i == 9 && rest[0] > 1 ==> Shifted(n, weight, ParseVarint(rest, i)).Fail?
    ensures rest != [] && !(i == 9 && rest[0] > 1) ==>
      var m := OrInto(n, LowGroup(rest[0]), weight);
      if rest[0] < 128 then Shifted(n, weight, ParseVarint(rest, i)) == Ok(m, rest[1..])
      else
        && i < 9 && Weighs(m, weight * 128, i + 1)
        && Shifted(n, weight, ParseVarint(rest, i)) == Shifted(m, weight * 128, ParseVarint(rest[1..], i + 1))
  {
    hide Weighs, OrInto;
    if rest != [] && !(i == 9 && rest[0] > 1) {
      var low := LowGroup(rest[0]);
      if rest[0] < 128 {
        ShiftLast(n, weight, low, i, rest[1..]);
      } else {
        ShiftOne(n, weight, low, i, ParseVarint(rest[1..], i + 1));
      }
    }
  }

  lemma ShiftLast(n: nat, weight: nat, low: nat, i: nat, rest: Bytes)
    requires i <= 9 && low < 128 && Weighs(n, weight, i)
    ensures low < VarintCap(i) ==> Shifted(n, weight, Ok(low, rest)) == Ok(OrInto(n, low, weight), rest)
  {
    if low < VarintCap(i) {
      MulLe(low + 1, VarintCap(i), weight);
      assert (low + 1) * weight == low * weight + weight;
      assert VarintCap(i) * weight == weight * VarintCap(i);
      assert low * weight == weight * low;
    }
  }

  lemma ShiftOne(n: nat, weight: nat, low: nat, i: nat, tail: Parse<nat>)
    requires i <= 9 && low < 128 && Weighs(n, weight, i)
    ensures i < 9 ==> Weighs(OrInto(n, low, weight), weight * 128, i + 1)
    ensures i < 9 ==>
      Shifted(n, weight, match tail { case Fail => Fail case Ok(v, rest) => Ok(low + 128 * v, rest) })
        == Shifted(OrInto(n, low, weight), weight * 128, tail)
  {
    if i < 9 {
      MulAssoc(weight, 128, VarintCap(i + 1));
      MulLe(low, 127, weight);
      assert OrInto(n, low, weight) == n + low * weight by {
        MulLe(2, VarintCap(i + 1), weight * 128);
      }
      if tail.Ok? {
        MulAssoc(weight, 128, tail.value);
        assert weight * (low + 128 * tail.value) == weight * low + weight * (128 * tail.value);
      }
    }
  }
}
