/**
 The text of a BasicHTTP form body: fields `name=value` joined by `&`, percent-encoded
 outside the unreserved set of section 2.3 of RFC 3986, with `+` for a space.
 */
module FormText {
  import opened Basics

  type bytes = seq<byte>

  const AMPERSAND: byte := 0x26
  const EQUALS: byte := 0x3D
  const PLUS: byte := 0x2B
  const PERCENT: byte := 0x25
  const SPACE: byte := 0x20

  // ----- encoding one component --------------------------------------------

  predicate Unreserved(v: byte) {
    || 0x41 <= v <= 0x5A || 0x61 <= v <= 0x7A || 0x30 <= v <= 0x39
    || v == 0x2D || v == 0x2E || v == 0x5F || v == 0x7E
  }

  function HexDigit(n: int): byte
    requires 0 <= n < 16
  {
    if n < 10 then 0x30 + n else 0x41 + (n - 10)
  }

  function EncodeByte(v: byte): bytes {
    if Unreserved(v) then [v] else if v == SPACE then [PLUS] else [PERCENT, HexDigit(v / 16), HexDigit(v % 16)]
  }

  function Encode(s: bytes): bytes {
    if s == [] then [] else Encode(s[..|s| - 1]) + EncodeByte(s[|s| - 1])
  }

  function Width(v: byte): nat { if Unreserved(v) || v == SPACE then 1 else 3 }

  function EncodedSize(s: bytes): nat {
    if s == [] then 0 else EncodedSize(s[..|s| - 1]) + Width(s[|s| - 1])
  }

  lemma {:induction false} EncodeSize(s: bytes)
    ensures |Encode(s)| == EncodedSize(s)
  {
    if s != [] { EncodeSize(s[..|s| - 1]); }
  }

  lemma EncodeSnoc(s: bytes, i: nat)
    requires i < |s|
    ensures Encode(s[..i + 1]) == Encode(s[..i]) + EncodeByte(s[i])
    ensures EncodedSize(s[..i + 1]) == EncodedSize(s[..i]) + Width(s[i])
  {
    assert s[..i + 1][..i] == s[..i];
  }

  lemma {:induction false} EncodedPrefix(s: bytes, i: nat)
    requires i <= |s|
    ensures EncodedSize(s[..i]) <= EncodedSize(s)
    decreases |s| - i
  {
    if i < |s| {
      EncodeSnoc(s, i);
      EncodedPrefix(s, i + 1);
    } else {
      assert s[..i] == s;
    }
  }

  /** Encoded text contains neither separator. */
  lemma {:induction false} EncodedClean(s: bytes, c: byte)
    requires c == AMPERSAND || c == EQUALS
    ensures c !in Encode(s)
  {
    if s != [] { EncodedClean(s[..|s| - 1], c); }
  }

  // ----- decoding one component --------------------------------------------

  function HexValue(v: byte): int {
    if 0x30 <= v <= 0x39 then v - 0x30
    else if 0x41 <= v <= 0x46 then v - 0x41 + 10
    else if 0x61 <= v <= 0x66 then v - 0x61 + 10
    else -1
  }

  /** The first decoded byte and how much source it took. */
  function DecodeOne(s: bytes): Option<(byte, nat)>
    requires s != []
  {
    if s[0] == PLUS then Some((SPACE, 1))
    else if s[0] == PERCENT then
      if |s| < 3 || HexValue(s[1]) < 0 || HexValue(s[2]) < 0 then None
      else if HexValue(s[1]) * 16 + HexValue(s[2]) == 0 then None
      else Some((HexValue(s[1]) * 16 + HexValue(s[2]), 3))
    else if s[0] == 0 then None
    else Some((s[0], 1))
  }

  function Prepend(a: bytes, r: Option<bytes>): Option<bytes> {
    if r.Some? then Some(a + r.value) else None
  }

  function Decode(s: bytes): (r: Option<bytes>)
    ensures r.Some? ==> |r.value| <= |s| && 0 !in r.value
  {
    if s == [] then Some([])
    else
      var one := DecodeOne(s);
      if one.None? then None
      else assert 0 < one.value.1 <= |s|; Prepend([one.value.0], Decode(s[one.value.1..]))
  }

  lemma PrependTwice(a: bytes, b: bytes, r: Option<bytes>)
    ensures Prepend(a, Prepend(b, r)) == Prepend(a + b, r)
  {
    if r.Some? { assert a + (b + r.value) == a + b + r.value; }
  }

  lemma DecodeEncodedByte(v: byte, t: bytes)
    requires v != 0
    ensures Decode(EncodeByte(v) + t) == Prepend([v], Decode(t))
  {
    var s := EncodeByte(v) + t;
    if Unreserved(v) || v == SPACE {
      assert s[1..] == t;
    } else {
      assert s[3..] == t;
      HexRoundTrip(v / 16);
      HexRoundTrip(v % 16);
      assert v / 16 * 16 + v % 16 == v;
    }
  }

  lemma HexRoundTrip(n: int)
    requires 0 <= n < 16
    ensures HexValue(HexDigit(n)) == n
  {
  }

  /** Decoding undoes encoding, whatever follows. */
  lemma {:induction false} DecodeEncoded(s: bytes, t: bytes)
    requires 0 !in s
    ensures Decode(Encode(s) + t) == Prepend(s, Decode(t))
  {
    if s == [] {
      assert Encode(s) + t == t;
      if Decode(t).Some? { assert [] + Decode(t).value == Decode(t).value; }
    } else {
      var n := |s| - 1;
      assert Encode(s) + t == Encode(s[..n]) + (EncodeByte(s[n]) + t);
      DecodeEncoded(s[..n], EncodeByte(s[n]) + t);
      DecodeEncodedByte(s[n], t);
      PrependTwice(s[..n], [s[n]], Decode(t));
      assert s[..n] + [s[n]] == s;
    }
  }

  lemma ComponentRoundTrip(s: bytes)
    requires 0 !in s
    ensures Decode(Encode(s)) == Some(s)
  {
    DecodeEncoded(s, []);
    assert Encode(s) + [] == Encode(s);
    assert s + [] == s;
  }

  // ----- fields ------------------------------------------------------------

  datatype Field = Field(name: bytes, value: bytes)

  function FieldText(f: Field): bytes { Encode(f.name) + [EQUALS] + Encode(f.value) }

  function Separator(prior: bool): bytes { if prior then [AMPERSAND] else [] }

  /** The whole body, built as the writer builds it. */
  function FormBody(fields: seq<Field>): bytes {
    if fields == [] then []
    else
      var n := |fields| - 1;
      FormBody(fields[..n]) + Separator(n != 0) + FieldText(fields[n])
  }

  function FieldSize(f: Field): nat { EncodedSize(f.name) + 1 + EncodedSize(f.value) }

  function FormSize(fields: seq<Field>): nat {
    if fields == [] then 0
    else
      var n := |fields| - 1;
      FormSize(fields[..n]) + (if n != 0 then 1 else 0) + FieldSize(fields[n])
  }

  lemma {:induction false} FormBodySize(fields: seq<Field>)
    ensures |FormBody(fields)| == FormSize(fields)
  {
    if fields != [] {
      var n := |fields| - 1;
      FormBodySize(fields[..n]);
      EncodeSize(fields[n].name);
      EncodeSize(fields[n].value);
    }
  }

  lemma FormSnoc(fields: seq<Field>, i: nat)
    requires i < |fields|
    ensures FormBody(fields[..i + 1]) == FormBody(fields[..i]) + Separator(i != 0) + FieldText(fields[i])
    ensures FormSize(fields[..i + 1]) == FormSize(fields[..i]) + (if i != 0 then 1 else 0) + FieldSize(fields[i])
  {
    assert fields[..i + 1][..i] == fields[..i];
  }

  lemma {:induction false} FormPrefix(fields: seq<Field>, i: nat)
    requires i <= |fields|
    ensures FormSize(fields[..i]) <= FormSize(fields)
    decreases |fields| - i
  {
    if i < |fields| {
      FormSnoc(fields, i);
      FormPrefix(fields, i + 1);
    } else {
      assert fields[..i] == fields;
    }
  }

  /** What follows the first field. */
  function Rest(fields: seq<Field>): bytes {
    if |fields| <= 1 then [] else [AMPERSAND] + FormBody(fields[1..])
  }

  lemma {:induction false} FormCons(fields: seq<Field>)
    requires fields != []
    ensures FormBody(fields) == FieldText(fields[0]) + Rest(fields)
  {
    var n := |fields| - 1;
    if n == 0 {
      assert fields[..0] == [];
    } else {
      FormCons(fields[..n]);
      TailSnoc(fields, n);
      Glue(FieldText(fields[0]), Rest(fields[..n]), FormBody(fields[..n][1..]), FieldText(fields[n]), n);
    }
  }

  lemma TailSnoc(fields: seq<Field>, n: nat)
    requires 1 <= n == |fields| - 1
    ensures FormBody(fields[1..]) == FormBody(fields[..n][1..]) + Separator(n - 1 != 0) + FieldText(fields[n])
  {
    FormSnoc(fields[1..], n - 1);
    assert fields[1..][..n] == fields[1..] && fields[1..][..n - 1] == fields[..n][1..];
  }

  lemma Glue(first: bytes, rest: bytes, middle: bytes, last: bytes, n: nat)
    requires 1 <= n && rest == if n == 1 then [] else [AMPERSAND] + middle
    requires n == 1 ==> middle == []
    ensures first + rest + [AMPERSAND] + last == first + ([AMPERSAND] + (middle + Separator(n - 1 != 0) + last))
  {
    Regroup(first, rest, [AMPERSAND], last);
    if n == 1 {
      assert middle + [] + last == last;
    } else {
      Regroup([AMPERSAND], middle, [AMPERSAND], last);
    }
  }

  lemma Regroup(a: bytes, b: bytes, c: bytes, d: bytes)
    ensures a + b + c + d == a + (b + c + d)
  {
  }

  // ----- finding separators ------------------------------------------------

  /** The first index of `c`, or the length. */
  function Find(s: bytes, c: byte): (k: nat)
    ensures k <= |s| && (k < |s| ==> s[k] == c) && forall j :: 0 <= j < k ==> s[j] != c
  {
    if s == [] || s[0] == c then 0 else 1 + Find(s[1..], c)
  }

  lemma {:induction false} FindIs(s: bytes, c: byte, k: nat)
    requires k <= |s| && (k < |s| ==> s[k] == c) && forall j :: 0 <= j < k ==> s[j] != c
    ensures Find(s, c) == k
  {
    if 0 < k { FindIs(s[1..], c, k - 1); }
  }
}
