// Bytes, C strings, and the decimal text the engine reads and writes.
module Text {
  import opened Optional

  type Byte = b: int | 0 <= b < 256
  type Bytes = seq<Byte>

  // What a C string can hold: bytes, none of them NUL.
  type CStr = s: Bytes | 0 !in s witness []

  const LF: Byte := 10
  const CR: Byte := 13

  const INT64_MIN := -0x8000_0000_0000_0000
  const INT64_MAX := 0x7fff_ffff_ffff_ffff

  predicate IsInt64(n: int) {
    INT64_MIN <= n <= INT64_MAX
  }

  // The C string a byte block becomes when it is read up to its first NUL.
  function UpToNul(s: Bytes): (r: CStr)
    ensures r <= s
    ensures 0 !in s ==> r == s
    ensures |r| < |s| ==> s[|r|] == 0
  {
    if s == [] || s[0] == 0 then [] else [s[0]] + UpToNul(s[1..])
  }

  // ---- ASCII case folding (cJSON's case-insensitive key lookup) ----

  function Lower(b: Byte): Byte {
    if 65 <= b <= 90 then b + 32 else b
  }

  predicate EqualIgnoringCase(a: Bytes, b: Bytes) {
    && |a| == |b|
    && forall i :: 0 <= i < |a| ==> Lower(a[i]) == Lower(b[i])
  }

  predicate HasIgnoringCase(names: seq<CStr>, name: CStr) {
    exists i :: 0 <= i < |names| && EqualIgnoringCase(names[i], name)
  }

  // ---- Decimal ----

  predicate IsDigit(b: Byte) {
    48 <= b <= 57
  }

  function Digits(n: nat): (r: CStr)
    ensures |r| > 0 && forall i :: 0 <= i < |r| ==> IsDigit(r[i])
  {
    if n < 10 then [48 + n] else Digits(n / 10) + [48 + n % 10]
  }

  // printf("%lld") and printf("%d")
  function Decimal(n: int): (r: CStr) {
    if n < 0 then [45] + Digits(-n) else Digits(n)
  }

  function DigitOf(b: Byte): nat
    requires IsDigit(b)
  {
    var n: int := b;
    n - 48
  }

  // The value of a digit string, most significant digit first.
  function DigitsValue(s: Bytes): nat
    requires forall i :: 0 <= i < |s| ==> IsDigit(s[i])
  {
    if s == [] then 0 else 10 * DigitsValue(s[..|s| - 1]) + DigitOf(s[|s| - 1])
  }

  predicate IsSpace(b: Byte) {
    b == 32 || 9 <= b <= 13
  }

  // strtoll(s, &end, 10) with the caller's tests: some digits were read, nothing
  // is left over and errno is clear.
  function ParseInteger(s: Bytes): (r: Option<int>)
    ensures r.Some? ==> IsInt64(r.value)
  {
    if s == [] then None
    else if IsSpace(s[0]) then ParseInteger(s[1..])
    else
      var digits := if s[0] == 45 || s[0] == 43 then s[1..] else s;
      if digits == [] || exists i :: 0 <= i < |digits| && !IsDigit(digits[i]) then None
      else
        var n: int := DigitsValue(digits) * (if s[0] == 45 then -1 else 1);
        if IsInt64(n) then Some(n) else None
  }

  lemma {:induction false} DigitsRoundTrip(n: nat)
    ensures DigitsValue(Digits(n)) == n
  {
    if n >= 10 {
      DigitsRoundTrip(n / 10);
      assert Digits(n)[..|Digits(n)| - 1] == Digits(n / 10);
    } else {
      assert Digits(n)[..0] == [];
    }
  }

  // Reading back what printf wrote gives the number again.
  lemma DecimalRoundTrip(n: int)
    requires IsInt64(n)
    ensures ParseInteger(Decimal(n)) == Some(n)
  {
    DigitsRoundTrip(if n < 0 then -n else n);
    var s := Decimal(n);
    if n < 0 {
      assert s[1..] == Digits(-n);
    }
  }

  // Distinct numbers have numerals that differ even ignoring case.
  lemma DecimalInjective(a: int, b: int)
    requires IsInt64(a) && IsInt64(b)
    requires EqualIgnoringCase(Decimal(a), Decimal(b))
    ensures a == b
  {
    var s, t := Decimal(a), Decimal(b);
    forall i | 0 <= i < |s| ensures s[i] == t[i] {
      assert Lower(s[i]) == Lower(t[i]);
    }
    assert s == t;
    DecimalRoundTrip(a);
    DecimalRoundTrip(b);
  }
}
