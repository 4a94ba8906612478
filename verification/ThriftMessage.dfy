// The call and reply envelopes around the struct codec.
module ThriftMessage {
  import opened Optional
  import opened Text
  import opened Ieee
  import opened Json
  import opened ThriftSchema
  import opened ThriftEncoding
  import opened ThriftParsing
  import opened ThriftRoundTrip
  import opened ThriftCanonical
  import opened ThriftErasure
  import opened ThriftBuffer
  import opened ThriftReader

  const PROTOCOL := 0x82
  const CALL := 1
  const REPLY := 2
  const EXCEPTION := 3

  // Protocol byte, version and kind, sequence number 0, method name.
  function Envelope(kind: nat, name: CStr): (r: Bytes)
    requires kind < 8
    ensures |r| > |name|
  {
    [PROTOCOL, kind * 32 + 1] + EncodeVarint(0) + EncodeBlob(name)
  }

  method EncodeCall(env: Env, name: CStr, fields: seq<Field>, args: Json) returns (wire: Option<Bytes>)
    ensures wire == match EncodeStruct(env, Some(fields), args, 0)
      case None => None
      case Some(body) =>
        if |Envelope(CALL, name) + body| <= MAX_WIRE_SIZE then Some(Envelope(CALL, name) + body) else None
  {
    var out := new Buffer();
    var ok := out.WriteByte(PROTOCOL);
    if ok { ok := out.WriteByte(CALL * 32 + 1); }
    if ok { ok := out.WriteVarint(0); }
    if ok { ok := out.WriteBlob(name); }
    assert ok ==> out.data == Envelope(CALL, name);
    if ok { ok := out.WriteStruct(env, Some(fields), args, 0); }
    wire := if ok then Some(out.data) else None;
  }

  datatype Reply = Reply(value: Json, exception: bool)

  // The method name and sequence number a reply must carry.
  function ParseName(name: CStr, s: Bytes): Parse<()> {
    match ParseVarint(s)
    case Fail => Fail
    case Ok(sequence, rest) =>
      if sequence != 0 then Fail
      else
        match ParseVarint(rest)
        case Fail => Fail
        case Ok(n, rest') =>
          if n != |name| || n > |rest'| || rest'[..n] != name then Fail else Ok((), rest'[n..])
  }

  // raw decodes without a schema, with NUL-free strings, and admits exceptions.
  // One redundant stop byte may follow the struct.
  function ParseReply(env: Env, name: CStr, fields: Option<seq<Field>>, raw: bool, data: Bytes): Option<Reply> {
    if |data| > MAX_WIRE_SIZE || |data| < 2 || data[0] != PROTOCOL then None
    else
      var kind: int := data[1];
      if kind % 32 != 1 || !(kind / 32 == REPLY || (raw && kind / 32 == EXCEPTION)) then None
      else
        match ParseName(name, data[2..])
        case Fail => None
        case Ok(_, rest) =>
          match ParseStruct(env, raw, if raw then None else fields, rest, 0)
          case Fail => None
          case Ok(v, rest') => if rest' == [] || rest' == [0] then Some(Reply(v, kind / 32 == EXCEPTION)) else None
  }

  // False, or the flag set: the name and sequence number are not the expected ones.
  method ReadName(reader: Reader, name: CStr) returns (ok: bool)
    requires reader.Valid() && !reader.bad
    modifies reader
    ensures reader.Valid()
    ensures match ParseName(name, old(reader.Rest()))
      case Fail => !ok || reader.bad
      case Ok(_, rest) => ok && !reader.bad && reader.Rest() == rest
  {
    hide ParseVarint;
    var sequence := reader.ReadVarint();
    if sequence != 0 {
      return false;
    }
    var n := reader.ReadVarint();
    var p, pos := reader.p, reader.pos;
    if n != |name| || n > |p| - pos || p[pos..pos + n] != name {
      return false;
    }
    assert reader.Rest()[..n] == p[pos..pos + n] && reader.Rest()[n..] == p[pos + n..];
    reader.pos := pos + n;
    return true;
  }

  method DecodeReply(env: Env, name: CStr, fields: Option<seq<Field>>, raw: bool, data: Bytes) returns (r: Option<Reply>)
    ensures r == ParseReply(env, name, fields, raw, data)
  {
    hide ParseStruct, ParseName;
    if |data| > MAX_WIRE_SIZE {
      return None;
    }
    var reader := new Reader(data, raw);
    var c := reader.ReadByte();
    if c != PROTOCOL {
      return None;
    }
    c := reader.ReadByte();
    var kind: int := c;
    if kind % 32 != 1 || !(kind / 32 == REPLY || (raw && kind / 32 == EXCEPTION)) {
      return None;
    }
    var named := ReadName(reader, name);
    if !named {
      return None;
    }
    var o := reader.ReadStruct(env, if raw then None else fields, 0);
    ghost var rest := reader.Rest();
    if reader.pos < |data| && |data| - reader.pos == 1 && data[reader.pos] == 0 {
      assert rest == [0];
      reader.pos := reader.pos + 1;
    } else {
      assert rest == [0] ==> data[reader.pos] == rest[0];
    }
    if reader.bad || reader.pos != |data| {
      return None;
    }
    return Some(Reply(o, kind / 32 == EXCEPTION));
  }

  // A reply carrying a canonical struct decodes to it, with or without the
  // redundant stop byte, and with nothing else after it.
  lemma ReplyRoundTrip(env: Env, name: CStr, result: CStr, v: Json, body: Bytes, extra: Bytes)
    requires WellFormed(env) && result in env.structs
    requires v.Obj? && CanonicalFields(env, env.structs[result], v.members)
    requires EncodeStruct(env, Some(env.structs[result]), v, 0) == Some(body)
    requires FitsStruct(env, Some(env.structs[result]), v, 0)
    requires |Envelope(REPLY, name) + body + extra| <= MAX_WIRE_SIZE
    ensures ParseReply(env, name, Some(env.structs[result]), false, Envelope(REPLY, name) + body + extra)
         == if extra == [] || extra == [0] then Some(Reply(v, false)) else None
  {
    hide ParseStruct, ParseName, Envelope, EncodeStruct, FitsStruct, CanonicalFields, WellFormed;
    var data := Envelope(REPLY, name) + body + extra;
    EnvelopeRead(name, body + extra);
    assert data == Envelope(REPLY, name) + (body + extra);
    RoundTrip(env, result, v, extra);
  }

  lemma EnvelopeRead(name: CStr, rest: Bytes)
    requires |name| < TWO_TO_64
    ensures var data := Envelope(REPLY, name) + rest;
      && |data| >= 2 && data[0] == PROTOCOL && data[1] == 65
      && ParseName(name, data[2..]) == Ok((), rest)
  {
    var data := Envelope(REPLY, name) + rest;
    assert VarintCap(0) == TWO_TO_64;
    assert data[2..] == EncodeVarint(0) + (EncodeVarint(|name|) + (name + rest));
    VarintRoundTrip(0, EncodeVarint(|name|) + (name + rest));
    VarintRoundTrip(|name|, name + rest);
    assert (name + rest)[..|name|] == name && (name + rest)[|name|..] == rest;
  }
}
