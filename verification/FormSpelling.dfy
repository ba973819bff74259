/**
 Which texts spell which values: a relation over single spellings, given by tables. The
 decoder accepts exactly the texts that spell something; the encoder writes the shortest
 spelling that stays inside the unreserved set.
 */
module FormSpelling {
  import opened Basics
  import opened FormText

  const UPPER := "0123456789ABCDEF"
  const LOWER := "0123456789abcdef"

  /** `c` is a hexadecimal digit of value `n`, in either case. */
  predicate Digit(c: byte, n: int) { 0 <= n < 16 && (c == UPPER[n] as int || c == LOWER[n] as int) }

  /** One way to write byte `v`: itself, a plus sign for a space, or an escape. */
  predicate Spelled(u: bytes, v: byte) {
    || (u == [v] && v != PERCENT && v != PLUS)
    || (u == [PLUS] && v == SPACE)
    || (|u| == 3 && u[0] == PERCENT && Digit(u[1], v / 16) && Digit(u[2], v % 16))
  }

  /** The text is the spellings of the bytes one after the other, none of them NUL. */
  predicate Spells(text: bytes, value: bytes) {
    if value == [] then text == []
    else value[0] != 0 && exists k :: 1 <= k <= |text| && Spelled(text[..k], value[0]) && Spells(text[k..], value[1..])
  }

  // ----- the decoder -------------------------------------------------------

  lemma HexValueMeans(c: byte, n: int)
    ensures 0 <= HexValue(c) && HexValue(c) == n <==> Digit(c, n)
    ensures HexValue(c) < 16
  {
  }

  lemma TwoDigits(h: int, l: int)
    requires 0 <= h < 16 && 0 <= l < 16
    ensures (h * 16 + l) / 16 == h && (h * 16 + l) % 16 == l
  {
  }

  /** The next byte is decoded exactly as one of its spellings says. */
  lemma OneMeans(text: bytes, v: byte, k: nat)
    requires text != [] && 1 <= k <= |text|
    ensures DecodeOne(text) == Some((v, k)) <==> v != 0 && Spelled(text[..k], v)
  {
    var u := text[..k];
    if |text| >= 3 {
      HexValueMeans(text[1], HexValue(text[1]));
      HexValueMeans(text[2], HexValue(text[2]));
      if 0 <= HexValue(text[1]) && 0 <= HexValue(text[2]) { TwoDigits(HexValue(text[1]), HexValue(text[2])); }
      HexValueMeans(text[1], v / 16);
      HexValueMeans(text[2], v % 16);
    }
    assert u[0] == text[0] && (k >= 3 ==> u[1] == text[1] && u[2] == text[2]);
  }

  /** A text decodes to a value if and only if it spells it; so no text spells two values. */
  lemma {:induction false} DecodeMeans(text: bytes, value: bytes)
    ensures Decode(text) == Some(value) <==> Spells(text, value)
    decreases |text|
  {
    if text != [] {
      if Decode(text) == Some(value) {
        var (v, k) := DecodeOne(text).value;
        OneMeans(text, v, k);
        assert value[0] == v && Decode(text[k..]) == Some(value[1..]);
        DecodeMeans(text[k..], value[1..]);
      }
      if Spells(text, value) && value != [] {
        var k :| 1 <= k <= |text| && Spelled(text[..k], value[0]) && Spells(text[k..], value[1..]);
        OneMeans(text, value[0], k);
        DecodeMeans(text[k..], value[1..]);
        assert [value[0]] + value[1..] == value;
      }
    } else {
      if Spells(text, value) && value != [] { assert false; }
    }
  }

  /** An escape stands for its byte, whichever case its digits have and whatever follows; anything else after a
      percent sign, and an escaped NUL, is refused. */
  lemma EscapeMeans(h: byte, l: byte, t: bytes)
    ensures forall m, n :: Digit(h, m) && Digit(l, n) && (m, n) != (0, 0) ==>
              Decode([PERCENT, h, l] + t) == Prepend([m * 16 + n], Decode(t))
    ensures (forall m :: !Digit(h, m)) || (forall n :: !Digit(l, n)) || (Digit(h, 0) && Digit(l, 0)) ==>
              Decode([PERCENT, h, l] + t) == None
  {
    var text := [PERCENT, h, l] + t;
    assert text[3..] == t;
    HexValueMeans(h, HexValue(h));
    HexValueMeans(l, HexValue(l));
    HexValueMeans(h, 0);
    HexValueMeans(l, 0);
    forall m, n | Digit(h, m) && Digit(l, n) && (m, n) != (0, 0)
      ensures Decode(text) == Prepend([m * 16 + n], Decode(t))
    {
      HexValueMeans(h, m);
      HexValueMeans(l, n);
    }
  }

  // ----- the encoder -------------------------------------------------------

  /** The unreserved characters of section 2.3 of RFC 3986: letters, digits and four marks. */
  predicate Letter(v: byte) {
    || 'A' <= v as char <= 'Z' || 'a' <= v as char <= 'z' || '0' <= v as char <= '9'
    || v as char == '-' || v as char == '.' || v as char == '_' || v as char == '~'
  }

  lemma UnreservedMeans(v: byte)
    ensures Unreserved(v) <==> Letter(v)
  {
  }

  lemma DigitWritten(n: int)
    requires 0 <= n < 16
    ensures HexDigit(n) == UPPER[n] as int
  {
  }

  /** How one byte is written: a letter of the unreserved set as itself, a space as a plus sign, any other byte as
      an escape with upper-case digits. */
  lemma ByteWritten(v: byte)
    ensures EncodeByte(v) == if Letter(v) then [v] else if v == ' ' as int then ['+' as int]
                             else ['%' as int, UPPER[v / 16] as int, UPPER[v % 16] as int]
  {
    UnreservedMeans(v);
    DigitWritten(v / 16);
    DigitWritten(v % 16);
  }

  /** Only unreserved letters stand for themselves. */
  predicate Modest(text: bytes) { forall i :: 0 <= i < |text| ==> Letter(text[i]) || text[i] == PLUS || text[i] == PERCENT }

  lemma EncodeLast(s: bytes, front: bytes, v: byte)
    requires s == front + [v]
    ensures Encode(s) == Encode(front) + EncodeByte(v)
  {
    EncodeSnoc(s, |front|);
    assert s[..|front|] == front && s[..|front| + 1] == s;
  }

  lemma {:induction false} EncodeConcat(a: bytes, b: bytes)
    ensures Encode(a + b) == Encode(a) + Encode(b)
    decreases |b|
  {
    if b == [] {
      assert a + b == a && Encode(a) + [] == Encode(a);
    } else {
      var front, v := b[..|b| - 1], b[|b| - 1];
      assert b == front + [v] && a + b == (a + front) + [v];
      EncodeLast(b, front, v);
      EncodeLast(a + b, a + front, v);
      EncodeConcat(a, front);
      Append(Encode(a), Encode(front), EncodeByte(v));
    }
  }

  lemma Append(a: bytes, b: bytes, c: bytes)
    ensures a + b + c == a + (b + c)
  {
  }

  lemma EncodeCons(s: bytes)
    requires s != []
    ensures Encode(s) == EncodeByte(s[0]) + Encode(s[1..])
  {
    assert s[..1] + s[1..] == s;
    EncodeConcat(s[..1], s[1..]);
    EncodeLast(s[..1], [], s[0]);
    assert Encode([]) + EncodeByte(s[0]) == EncodeByte(s[0]);
  }

  lemma ByteSpelled(v: byte)
    ensures Spelled(EncodeByte(v), v) && Modest(EncodeByte(v))
  {
    ByteWritten(v);
    UnreservedMeans(v);
    DigitModest(v / 16);
    DigitModest(v % 16);
  }

  lemma DigitModest(n: int)
    requires 0 <= n < 16
    ensures Letter(UPPER[n] as int)
  {
  }

  /** The encoded text spells the value and is modest. */
  lemma {:induction false} EncodeSpells(s: bytes)
    requires 0 !in s
    ensures Spells(Encode(s), s) && Modest(Encode(s))
    decreases |s|
  {
    if s != [] {
      var first, rest := EncodeByte(s[0]), Encode(s[1..]);
      EncodeCons(s);
      ByteSpelled(s[0]);
      EncodeSpells(s[1..]);
      assert (first + rest)[..|first|] == first && (first + rest)[|first|..] == rest;
    }
  }

  lemma ShortestByte(u: bytes, v: byte)
    requires Spelled(u, v) && Modest(u)
    ensures |EncodeByte(v)| <= |u|
  {
    ByteWritten(v);
    if |u| == 1 && u[0] != PLUS { assert Letter(u[0]); }
  }

  /** No modest spelling of the value is shorter. */
  lemma {:induction false} EncodeShortest(text: bytes, value: bytes)
    requires Spells(text, value) && Modest(text)
    ensures |Encode(value)| <= |text|
    decreases |value|
  {
    if value != [] {
      var k :| 1 <= k <= |text| && Spelled(text[..k], value[0]) && Spells(text[k..], value[1..]);
      assert forall i :: 0 <= i < k ==> text[..k][i] == text[i];
      assert forall i :: 0 <= i < |text| - k ==> text[k..][i] == text[k + i];
      ShortestByte(text[..k], value[0]);
      EncodeShortest(text[k..], value[1..]);
      EncodeCons(value);
    }
  }
}
