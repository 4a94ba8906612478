// A value that is written and not taken back: the reader charges a bool field one
// level of nesting more than the writer does.
module ThriftNesting {
  import opened Optional
  import opened Text
  import opened Json
  import opened ThriftSchema
  import opened ThriftEncoding
  import opened ThriftParsing
  import opened ThriftCanonical

  // struct S { 1: S s, 2: bool b }
  const STRUCT: Field := Field(1, [115], TStruct([83]))
  const FLAG: Field := Field(2, [98], TBool)
  const FIELDS: seq<Field> := [STRUCT, FLAG]

  function Schema(env: Env): Env {
    env.(structs := map[[83] := FIELDS])
  }

  // n structs around one that holds the bool.
  function Nested(n: nat): (v: Json)
    ensures v.Obj?
  {
    if n == 0 then Obj([Member([98], Bool(true))]) else Obj([Member([115], Nested(n - 1))])
  }

  lemma SchemaIsWellFormed(env: Env)
    ensures WellFormed(Schema(env)) && AscendingIds(FIELDS) && DistinctNames(FIELDS)
  {
    assert Lower(STRUCT.name[0]) != Lower(FLAG.name[0]);
    assert !EqualIgnoringCase(STRUCT.name, FLAG.name);
    forall i, j | 0 <= i < j < |FIELDS| ensures !EqualIgnoringCase(FIELDS[i].name, FIELDS[j].name) {
      assert i == 0 && j == 1;
    }
    assert DistinctNames(FIELDS);
  }

  lemma {:induction false} NestedIsCanonical(env: Env, n: nat)
    ensures CanonicalFields(Schema(env), FIELDS, Nested(n).members)
  {
    var ms := Nested(n).members;
    assert ms[1..] == [] && FIELDS[1..] == [FLAG] && FIELDS[1..][1..] == [];
    if n > 0 {
      NestedIsCanonical(env, n - 1);
    }
  }

  lemma Picked(n: nat)
    ensures Pick(STRUCT, 0, Nested(n)) == if n == 0 then None else Some(Nested(n - 1))
    ensures Pick(FLAG, 1, Nested(n)) == if n == 0 then Some(Bool(true)) else None
  {
    var ms := Nested(n).members;
    assert ms[1..] == [] && STRUCT.name[0] != FLAG.name[0] && STRUCT.name != FLAG.name;
    assert Find(ms[1..], STRUCT.name) == None && Find(ms[1..], FLAG.name) == None;
  }

  // The bool stands 2n levels below the value, and the reader needs one more.
  lemma {:induction false} NestedFits(env: Env, n: nat, depth: nat)
    requires depth + 2 * n <= MAX_DEPTH
    ensures EncodeStruct(Schema(env), Some(FIELDS), Nested(n), depth).Some?
    ensures |EncodeStruct(Schema(env), Some(FIELDS), Nested(n), depth).value| == 2 * n + 2
    ensures FitsStruct(Schema(env), Some(FIELDS), Nested(n), depth) <==> depth + 2 * n < MAX_DEPTH
    decreases n
  {
    var e, v := Schema(env), Nested(n);
    Picked(n);
    assert FIELDS[0] == STRUCT && FIELDS[1] == FLAG;
    if n == 0 {
      Innermost(e, depth);
      assert EncodeFields(e, FIELDS, 0, 0, v, depth) == EncodeFields(e, FIELDS, 1, 0, v, depth);
    } else {
      NestedFits(env, n - 1, depth + 2);
      assert EncodeValue(e, STRUCT.ty, Nested(n - 1), depth + 1) == EncodeStruct(e, Some(FIELDS), Nested(n - 1), depth + 2);
      Outer(e, Nested(n - 1), v, depth);
    }
  }

  lemma Innermost(e: Env, depth: nat)
    requires depth <= MAX_DEPTH
    ensures EncodeFields(e, FIELDS, 1, 0, Nested(0), depth) == Some([33, 0])
    ensures FitFields(e, FIELDS, 1, 0, Nested(0), depth) <==> depth < MAX_DEPTH
  {
    Picked(0);
    assert EncodeFields(e, FIELDS, 2, 2, Nested(0), depth) == Some([0]);
    assert EncodeField(e, FLAG, 0, Bool(true), depth) == Some([33]);
    assert FIELDS[1] == FLAG && FIELDS[1].id == 2 && [33] + [0] == [33, 0];
  }

  lemma Outer(e: Env, inner: Json, v: Json, depth: nat)
    requires depth + 2 <= MAX_DEPTH && [83] in e.structs && e.structs[[83]] == FIELDS
    requires Pick(STRUCT, 0, v) == Some(inner) && Pick(FLAG, 1, v) == None
    requires EncodeStruct(e, Some(FIELDS), inner, depth + 2).Some?
    ensures var b := EncodeFields(e, FIELDS, 0, 0, v, depth);
      && b == Some([28] + EncodeStruct(e, Some(FIELDS), inner, depth + 2).value + [0])
      && (FitFields(e, FIELDS, 0, 0, v, depth) <==> FitsStruct(e, Some(FIELDS), inner, depth + 2))
  {
    var b := EncodeStruct(e, Some(FIELDS), inner, depth + 2);
    assert EncodeValue(e, STRUCT.ty, inner, depth + 1) == b;
    assert EncodeField(e, STRUCT, 0, inner, depth) == Some([28] + b.value);
    assert EncodeFields(e, FIELDS, 2, 1, v, depth) == Some([0]);
    assert EncodeFields(e, FIELDS, 1, 1, v, depth) == Some([0]);
    assert Fits(e, STRUCT.ty, inner, depth + 1) <==> FitsStruct(e, Some(FIELDS), inner, depth + 2);
    assert FitFields(e, FIELDS, 2, 1, v, depth) && FitFields(e, FIELDS, 1, 1, v, depth);
    assert FitsField(e, STRUCT, 0, inner, depth) <==> Fits(e, STRUCT.ty, inner, depth + 1);
  }

  // Twenty of them: the writer takes the value, and the reader refuses its bytes.
  lemma WrittenButRefused(env: Env, suffix: Bytes)
    ensures CanonicalFields(Schema(env), FIELDS, Nested(20).members)
    ensures var b := EncodeStruct(Schema(env), Some(FIELDS), Nested(20), 0);
      b.Some? && ParseStruct(Schema(env), false, Some(FIELDS), b.value + suffix, 0) == Fail
  {
    hide EncodeStruct, ParseStruct, FitsStruct, FIELDS, CanonicalFields, WellFormed;
    SchemaIsWellFormed(env);
    NestedIsCanonical(env, 20);
    NestedFits(env, 20, 0);
    RoundTrip(Schema(env), [83], Nested(20), suffix);
  }
}
