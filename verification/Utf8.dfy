// UTF-8 as section 3 of RFC 3629 defines it, UTF-16 lengths as section 2.1 of
// RFC 2781 does, and the engine's conversion of one offset into the other.
module Utf8 {
  import opened Optional
  import opened Text

  // A Unicode scalar value other than NUL, which ends a C string.
  predicate Scalar(cp: int) {
    0 < cp < 0xd800 || 0xdfff < cp <= 0x10ffff
  }

  function Encode(cp: int): Bytes
    requires Scalar(cp)
  {
    if cp < 0x80 then [cp]
    else if cp < 0x800 then [0xc0 + cp / 64, 0x80 + cp % 64]
    else if cp < 0x10000 then [0xe0 + cp / 4096, 0x80 + cp / 64 % 64, 0x80 + cp % 64]
    else [0xf0 + cp / 262144, 0x80 + cp / 4096 % 64, 0x80 + cp / 64 % 64, 0x80 + cp % 64]
  }

  // UTF-16 code units: a surrogate pair above the basic plane.
  function Units(cp: int): int {
    if cp > 0xffff then 2 else 1
  }

  predicate Scalars(cps: seq<int>) {
    forall i | 0 <= i < |cps| :: Scalar(cps[i])
  }

  function EncodeAll(cps: seq<int>): Bytes
    requires Scalars(cps)
  {
    if cps == [] then [] else Encode(cps[0]) + EncodeAll(cps[1..])
  }

  function AllUnits(cps: seq<int>): int {
    if cps == [] then 0 else Units(cps[0]) + AllUnits(cps[1..])
  }

  ghost predicate Valid(s: Bytes) {
    exists cps :: Scalars(cps) && EncodeAll(cps) == s
  }

  // ---- One character, as the engine reads it ----

  // The byte at an offset; a C string reads as NUL at its end.
  function ByteAt(s: CStr, i: nat): Byte {
    if i < |s| then s[i] else 0
  }

  function LeadLength(c: Byte): int {
    if c < 0x80 then 1
    else if 0xc2 <= c <= 0xdf then 2
    else if 0xe0 <= c <= 0xef then 3
    else if 0xf0 <= c <= 0xf4 then 4
    else 0
  }

  function LeadBits(c: Byte): int {
    var n: int := c;
    if c < 0x80 then n else if c <= 0xdf then n % 32 else if c <= 0xef then n % 16 else n % 8
  }

  predicate Continuation(c: Byte) {
    0x80 <= c < 0xc0
  }

  // The value of the n bytes at p, continuation bytes included.
  function Assembled(s: CStr, p: nat, n: nat): Option<int>
    requires n >= 1
  {
    if n == 1 then Some(LeadBits(ByteAt(s, p)))
    else
      var c: int := ByteAt(s, p + n - 1);
      var high := Assembled(s, p, n - 1);
      if high.None? || !Continuation(ByteAt(s, p + n - 1)) then None else Some(64 * high.value + c % 64)
  }

  predicate WellFormed(cp: int, n: int) {
    !(n == 3 && cp < 0x800) && !(n == 4 && cp < 0x10000) && !(0xd800 <= cp <= 0xdfff) && cp <= 0x10ffff
  }

  datatype Char = Char(cp: int, n: nat)

  // The character at p, which is not the end of the text.
  function Decode(s: CStr, p: nat): Option<Char>
    requires p < |s|
  {
    var n := LeadLength(s[p]);
    if n == 0 then None
    else
      var cp := Assembled(s, p, n);
      if cp.None? || !WellFormed(cp.value, n) then None else Some(Char(cp.value, n))
  }

  lemma AssembledFourBytes(s: CStr, p: nat)
    ensures Assembled(s, p, 1) == Some(LeadBits(ByteAt(s, p)))
    ensures Assembled(s, p, 2) ==
      if Continuation(ByteAt(s, p + 1)) then Some(64 * LeadBits(ByteAt(s, p)) + ByteAt(s, p + 1) as int % 64) else None
    ensures Assembled(s, p, 3) ==
      if Continuation(ByteAt(s, p + 1)) && Continuation(ByteAt(s, p + 2))
      then Some(64 * (64 * LeadBits(ByteAt(s, p)) + ByteAt(s, p + 1) as int % 64) + ByteAt(s, p + 2) as int % 64) else None
    ensures Assembled(s, p, 4) ==
      if Continuation(ByteAt(s, p + 1)) && Continuation(ByteAt(s, p + 2)) && Continuation(ByteAt(s, p + 3))
      then Some(64 * (64 * (64 * LeadBits(ByteAt(s, p)) + ByteAt(s, p + 1) as int % 64) + ByteAt(s, p + 2) as int % 64)
                + ByteAt(s, p + 3) as int % 64) else None
  {
    assert Assembled(s, p, 1) == Some(LeadBits(ByteAt(s, p)));
    assert Assembled(s, p, 2).Some? <==> Continuation(ByteAt(s, p + 1));
  }

  // ---- The arithmetic of the four lengths ----

  lemma Two(a: Byte, b: Byte)
    requires 0xc2 <= a <= 0xdf && Continuation(b)
    ensures var cp := 64 * LeadBits(a) + b as int % 64;
      0x80 <= cp < 0x800 && Encode(cp) == [a, b]
  {
  }

  lemma Three(a: Byte, b: Byte, c: Byte)
    requires 0xe0 <= a <= 0xef && Continuation(b) && Continuation(c)
    requires var cp := 64 * (64 * LeadBits(a) + b as int % 64) + c as int % 64; WellFormed(cp, 3)
    ensures var cp := 64 * (64 * LeadBits(a) + b as int % 64) + c as int % 64;
      0x800 <= cp < 0x10000 && Scalar(cp) && Encode(cp) == [a, b, c]
  {
    var x, y, z := LeadBits(a), b as int % 64, c as int % 64;
    var cp := 64 * (64 * x + y) + z;
    assert cp / 64 == 64 * x + y && cp % 64 == z;
    assert cp / 4096 == x && cp / 64 % 64 == y;
  }

  lemma Four(a: Byte, b: Byte, c: Byte, d: Byte)
    requires 0xf0 <= a <= 0xf4 && Continuation(b) && Continuation(c) && Continuation(d)
    requires var cp := 64 * (64 * (64 * LeadBits(a) + b as int % 64) + c as int % 64) + d as int % 64; WellFormed(cp, 4)
    ensures var cp := 64 * (64 * (64 * LeadBits(a) + b as int % 64) + c as int % 64) + d as int % 64;
      0x10000 <= cp && Scalar(cp) && Encode(cp) == [a, b, c, d]
  {
    var x, y, z, t := LeadBits(a), b as int % 64, c as int % 64, d as int % 64;
    var cp := 64 * (64 * (64 * x + y) + z) + t;
    assert cp / 64 == 64 * (64 * x + y) + z && cp % 64 == t;
    assert cp / 4096 == 64 * x + y && cp / 64 % 64 == z;
    assert cp / 262144 == x && cp / 4096 % 64 == y;
  }

  lemma TwoBack(cp: int)
    requires 0x80 <= cp < 0x800
    ensures var a, b := 0xc0 + cp / 64, 0x80 + cp % 64;
      0xc2 <= a <= 0xdf && 0x80 <= b < 0xc0 && 64 * (a % 32) + b % 64 == cp
  {
  }

  lemma ThreeBack(cp: int)
    requires 0x800 <= cp < 0x10000
    ensures var a, b, c := 0xe0 + cp / 4096, 0x80 + cp / 64 % 64, 0x80 + cp % 64;
      0xe0 <= a <= 0xef && 0x80 <= b < 0xc0 && 0x80 <= c < 0xc0 && 64 * (64 * (a % 16) + b % 64) + c % 64 == cp
  {
    assert cp / 4096 == cp / 64 / 64;
  }

  lemma FourBack(cp: int)
    requires 0x10000 <= cp <= 0x10ffff
    ensures var a, b, c, d := 0xf0 + cp / 262144, 0x80 + cp / 4096 % 64, 0x80 + cp / 64 % 64, 0x80 + cp % 64;
      0xf0 <= a <= 0xf4 && 0x80 <= b < 0xc0 && 0x80 <= c < 0xc0 && 0x80 <= d < 0xc0 &&
      64 * (64 * (64 * (a % 8) + b % 64) + c % 64) + d % 64 == cp
  {
    assert cp / 4096 == cp / 64 / 64 && cp / 262144 == cp / 4096 / 64;
  }

  // What is read is a scalar value in its one encoding.
  lemma DecodeIsSound(s: CStr, p: nat)
    requires p < |s| && Decode(s, p).Some?
    ensures var c := Decode(s, p).value;
      Scalar(c.cp) && p + c.n <= |s| && s[p..p + c.n] == Encode(c.cp)
  {
    AssembledFourBytes(s, p);
    var n := LeadLength(s[p]);
    assert s[p] != 0;
    assert Continuation(ByteAt(s, p + 1)) ==> p + 1 < |s|;
    assert Continuation(ByteAt(s, p + 2)) ==> p + 2 < |s|;
    assert Continuation(ByteAt(s, p + 3)) ==> p + 3 < |s|;
    hide Assembled, Encode, LeadBits;
    if n == 1 {
      OneByte(s[p]);
      assert s[p..p + 1] == [s[p]];
    } else if n == 2 {
      Two(s[p], s[p + 1]);
      assert s[p..p + 2] == [s[p], s[p + 1]];
    } else if n == 3 {
      Three(s[p], s[p + 1], s[p + 2]);
      assert s[p..p + 3] == [s[p], s[p + 1], s[p + 2]];
    } else {
      Four(s[p], s[p + 1], s[p + 2], s[p + 3]);
      assert s[p..p + 4] == [s[p], s[p + 1], s[p + 2], s[p + 3]];
    }
  }

  lemma OneByte(a: Byte)
    requires 0 < a < 0x80
    ensures LeadBits(a) == a as int && Scalar(a as int) && Encode(a as int) == [a]
  {
  }

  lemma Lengths(cp: int)
    requires Scalar(cp)
    ensures |Encode(cp)| == (if cp < 0x80 then 1 else if cp < 0x800 then 2 else if cp < 0x10000 then 3 else 4)
  {
  }

  // And every encoding is read.
  lemma DecodeIsComplete(s: CStr, p: nat, cp: int)
    requires Scalar(cp) && p + |Encode(cp)| <= |s| && s[p..p + |Encode(cp)|] == Encode(cp)
    ensures p < |s| && Decode(s, p) == Some(Char(cp, |Encode(cp)|))
  {
    AssembledFourBytes(s, p);
    Lengths(cp);
    var e := Encode(cp);
    forall i | 0 <= i < |e| ensures ByteAt(s, p + i) == e[i] {
      assert s[p..p + |e|][i] == s[p + i];
    }
    assert ByteAt(s, p) == e[0] by { assert ByteAt(s, p + 0) == e[0]; }
    hide Assembled;
    if cp < 0x80 {
      OneByte(e[0]);
    } else if cp < 0x800 {
      assert ByteAt(s, p + 1) == e[1];
      TwoBack(cp);
    } else if cp < 0x10000 {
      assert ByteAt(s, p + 1) == e[1] && ByteAt(s, p + 2) == e[2];
      ThreeBack(cp);
    } else {
      assert ByteAt(s, p + 1) == e[1] && ByteAt(s, p + 2) == e[2] && ByteAt(s, p + 3) == e[3];
      FourBack(cp);
    }
  }

  // ---- UTF-16 offsets ----

  function BoundaryFrom(s: CStr, p: nat, units: int, target: int): Option<nat>
    requires p <= |s|
    decreases |s| - p
  {
    if units >= target || p == |s| then (if units == target then Some(p) else None)
    else
      match Decode(s, p)
      case None => None
      case Some(c) => if p + c.n > |s| || c.n == 0 then None else BoundaryFrom(s, p + c.n, units + Units(c.cp), target)
  }

  // utf16_boundary
  method Utf16Boundary(s: CStr, target: int) returns (offset: Option<nat>)
    ensures offset == BoundaryFrom(s, 0, 0, target)
  {
    hide Decode;
    var p, units := 0, 0;
    while units < target && p < |s|
      invariant 0 <= p <= |s|
      invariant BoundaryFrom(s, 0, 0, target) == BoundaryFrom(s, p, units, target)
    {
      var c := Decode(s, p);
      if c.None? {
        return None;
      }
      DecodeIsSound(s, p);
      EncodeNotEmpty(c.value.cp);
      units := units + Units(c.value.cp);
      p := p + c.value.n;
    }
    offset := if units == target then Some(p) else None;
  }

  lemma EncodeNotEmpty(cp: int)
    requires Scalar(cp)
    ensures 1 <= |Encode(cp)| <= 4
  {
  }

  lemma {:induction false} BoundaryIsSound(s: CStr, p: nat, units: int, target: int) returns (cps: seq<int>)
    requires p <= |s| && BoundaryFrom(s, p, units, target).Some?
    ensures var q := BoundaryFrom(s, p, units, target).value;
      p <= q <= |s| && Scalars(cps) && EncodeAll(cps) == s[p..q] && AllUnits(cps) == target - units
    decreases |s| - p
  {
    hide Encode, Units, Decode;
    if units >= target || p == |s| {
      cps := [];
    } else {
      DecodeIsSound(s, p);
      var c := Decode(s, p).value;
      var rest := BoundaryIsSound(s, p + c.n, units + Units(c.cp), target);
      cps := [c.cp] + rest;
      assert cps[1..] == rest;
      var q := BoundaryFrom(s, p, units, target).value;
      assert s[p..q] == s[p..p + c.n] + s[p + c.n..q];
    }
  }

  lemma {:induction false} BoundaryIsComplete(s: CStr, p: nat, units: int, target: int, q: nat, cps: seq<int>)
    requires p <= q <= |s| && Scalars(cps) && EncodeAll(cps) == s[p..q] && AllUnits(cps) == target - units
    ensures BoundaryFrom(s, p, units, target) == Some(q)
    decreases |cps|
  {
    hide Encode, Decode;
    if cps != [] {
      var e := Encode(cps[0]);
      EncodeNotEmpty(cps[0]);
      assert s[p..q][..|e|] == e && s[p..p + |e|] == e;
      UnitsNotNegative(cps[1..]);
      DecodeIsComplete(s, p, cps[0]);
      assert s[p + |e|..q] == s[p..q][|e|..];
      BoundaryIsComplete(s, p + |e|, units + Units(cps[0]), target, q, cps[1..]);
    }
  }

  lemma UnitsNotNegative(cps: seq<int>)
    ensures AllUnits(cps) >= 0
  {
  }

  // The text up to q is well-formed and exactly target UTF-16 units long.
  ghost predicate HasUnits(s: CStr, q: nat, target: int) {
    q <= |s| && exists cps :: Scalars(cps) && EncodeAll(cps) == s[..q] && AllUnits(cps) == target
  }

  // On every text, well-formed or not: the offset found is the one prefix that is
  // well-formed and has that many units; without one, none is found.
  lemma BoundaryIff(s: CStr, target: int, q: nat)
    ensures BoundaryFrom(s, 0, 0, target) == Some(q) <==> HasUnits(s, q, target)
  {
    if BoundaryFrom(s, 0, 0, target) == Some(q) {
      var cps := BoundaryIsSound(s, 0, 0, target);
      assert s[0..q] == s[..q];
    }
    if HasUnits(s, q, target) {
      var cps :| Scalars(cps) && EncodeAll(cps) == s[..q] && AllUnits(cps) == target;
      assert s[0..q] == s[..q];
      BoundaryIsComplete(s, 0, 0, target, q, cps);
    }
  }

  // ---- Cutting well-formed text at an ASCII byte ----

  lemma {:induction false} EncodeParts(a: seq<int>, b: seq<int>)
    requires Scalars(a) && Scalars(b)
    ensures Scalars(a + b) && EncodeAll(a + b) == EncodeAll(a) + EncodeAll(b)
  {
    hide Encode;
    if a == [] {
      assert a + b == b;
    } else {
      assert (a + b)[1..] == a[1..] + b;
      EncodeParts(a[1..], b);
    }
  }

  lemma AsciiIsWhole(cp: int, i: nat)
    requires Scalar(cp) && i < |Encode(cp)| && Encode(cp)[i] < 0x80
    ensures i == 0 && Encode(cp) == [cp]
  {
  }

  lemma {:induction false} AsciiCuts(cps: seq<int>, i: nat) returns (k: nat)
    requires Scalars(cps) && i < |EncodeAll(cps)| && EncodeAll(cps)[i] < 0x80
    ensures k < |cps| && EncodeAll(cps[..k]) == EncodeAll(cps)[..i] && Encode(cps[k]) == [EncodeAll(cps)[i]]
  {
    var e := Encode(cps[0]);
    if i < |e| {
      AsciiIsWhole(cps[0], i);
      k := 0;
    } else {
      hide Encode;
      var rest := EncodeAll(cps[1..]);
      assert EncodeAll(cps)[i] == rest[i - |e|];
      k := AsciiCuts(cps[1..], i - |e|);
      k := k + 1;
      assert cps[..k][1..] == cps[1..][..k - 1];
      assert EncodeAll(cps)[..i] == e + rest[..i - |e|];
    }
  }

  // Before an ASCII byte and after it there are code-point boundaries.
  lemma AsciiIsBoundary(s: Bytes, i: nat)
    requires Valid(s) && i < |s| && s[i] < 0x80
    ensures Valid(s[..i]) && Valid(s[i..]) && Valid(s[..i + 1]) && Valid(s[i + 1..])
  {
    hide Encode;
    var cps :| Scalars(cps) && EncodeAll(cps) == s;
    var k := AsciiCuts(cps, i);
    assert cps == cps[..k] + cps[k..] && cps[k..] == [cps[k]] + cps[k + 1..];
    EncodeParts(cps[..k], cps[k..]);
    EncodeParts([cps[k]], cps[k + 1..]);
    EncodeParts(cps[..k], [cps[k]]);
    assert EncodeAll([cps[k]]) == [s[i]] by { assert [cps[k]][1..] == []; assert EncodeAll([]) == []; }
    assert s[i..] == EncodeAll(cps[k..]) && s[..i + 1] == EncodeAll(cps[..k] + [cps[k]]);
    assert s[i + 1..] == EncodeAll(cps[k + 1..]);
  }
}
