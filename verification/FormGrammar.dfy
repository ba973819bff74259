/**
 What any form body means, without reference to how it is scanned: its pieces between
 ampersands, the field each piece says, and the first piece there is an objection to.
 */
module FormGrammar {
  import opened Basics
  import opened FormText
  import opened FormSpelling
  import opened FormCodec

  // ----- pieces ------------------------------------------------------------

  /** Pieces written one after the other with an ampersand between any two. */
  function Join(pieces: seq<bytes>): bytes {
    if pieces == [] then []
    else if |pieces| == 1 then pieces[0]
    else pieces[0] + ['&' as int] + Join(pieces[1..])
  }

  predicate Apart(pieces: seq<bytes>) { forall i :: 0 <= i < |pieces| ==> '&' as int !in pieces[i] }

  /** The pieces of a body; there is no other way to cut it. */
  function Pieces(s: bytes): (pieces: seq<bytes>)
    ensures pieces != [] && Join(pieces) == s && Apart(pieces)
    decreases |s|
  {
    var k := Find(s, AMPERSAND);
    if k == |s| then [s]
    else
      assert s == s[..k] + [AMPERSAND] + s[k + 1..];
      [s[..k]] + Pieces(s[k + 1..])
  }

  /** An empty body has no pieces. */
  function PiecesOf(body: bytes): seq<bytes> { if body == [] then [] else Pieces(body) }

  lemma {:induction false} PiecesUnique(pieces: seq<bytes>)
    requires pieces != [] && Apart(pieces)
    ensures Pieces(Join(pieces)) == pieces
    decreases |pieces|
  {
    var first, s := pieces[0], Join(pieces);
    if |pieces| == 1 {
      FindIs(s, AMPERSAND, |s|);
    } else {
      FindIs(s, AMPERSAND, |first|);
      assert s[..|first|] == first && s[|first| + 1..] == Join(pieces[1..]);
      PiecesUnique(pieces[1..]);
    }
  }

  // ----- what a piece says -------------------------------------------------

  /** The piece is cut at its first equals sign, if it has one, into a name and a value that are spelled there;
      the name is not empty and both are valid text. */
  ghost predicate Says(utf8: bytes -> bool, piece: bytes, f: Field) {
    var cut := Find(piece, '=' as int);
    && f.name != [] && Valid(utf8, f.name) && Valid(utf8, f.value)
    && Spells(piece[..cut], f.name) && Spells(if cut < |piece| then piece[cut + 1..] else [], f.value)
  }

  predicate Named(fields: seq<Field>) { exists i :: 0 <= i < |fields| && fields[i].name == RESERVED }

  /** The field is one too many of its kind, or empty where it must not be. */
  predicate Bad(f: Field, before: seq<Field>) { f.name == RESERVED && (f.value == [] || Named(before)) }

  predicate TooMuch(f: Field, before: seq<Field>, limits: Limits, capacity: nat) {
    if f.name == RESERVED then limits.maxEvent < |f.value|
    else limits.maxName < |f.name| || limits.maxValue < |f.value| || capacity <= |Others(before)|
  }

  /** After the fields `before`, the piece is taken as the field `f`. */
  ghost predicate Admits(utf8: bytes -> bool, piece: bytes, before: seq<Field>, f: Field, limits: Limits, capacity: nat) {
    && piece != [] && |before| < limits.maxCount && Says(utf8, piece, f)
    && !Bad(f, before) && !TooMuch(f, before, limits, capacity)
  }

  /** After the fields `before`, the piece is refused. */
  ghost predicate Objects(utf8: bytes -> bool, piece: bytes, before: seq<Field>, limits: Limits, capacity: nat, e: Decoded) {
    if piece == [] then e == BadRequest
    else if limits.maxCount <= |before| then e == Decoded.LimitExceeded
    else if forall f :: !Says(utf8, piece, f) then e == BadRequest
    else exists f :: Says(utf8, piece, f) && if Bad(f, before) then e == BadRequest
                                             else TooMuch(f, before, limits, capacity) && e == Decoded.LimitExceeded
  }

  /** After `before`, the pieces are taken one by one as `fields`; the first that is not decides, and if all are
      taken they make the form. */
  ghost predicate Reads(
    utf8: bytes -> bool, pieces: seq<bytes>, before: seq<Field>, fields: seq<Field>, limits: Limits, capacity: nat, d: Decoded)
    decreases |fields|
  {
    if fields == [] then
      if pieces == [] then d == Form(EventOf(before), Others(before))
      else Objects(utf8, pieces[0], before, limits, capacity, d)
    else
      pieces != [] && Admits(utf8, pieces[0], before, fields[0], limits, capacity)
      && Reads(utf8, pieces[1..], before + [fields[0]], fields[1..], limits, capacity, d)
  }

  // ----- the decoder reads so ----------------------------------------------

  lemma ComponentMeans(utf8: bytes -> bool, text: bytes, value: bytes)
    ensures Component(utf8, text) == Some(value) <==> Spells(text, value) && Valid(utf8, value)
  {
    DecodeMeans(text, value);
  }

  lemma SaysMeans(utf8: bytes -> bool, piece: bytes, f: Field)
    ensures Says(utf8, piece, f) <==>
      f.name != [] && Component(utf8, NamePart(piece)) == Some(f.name) && Component(utf8, ValuePart(piece)) == Some(f.value)
  {
    ComponentMeans(utf8, NamePart(piece), f.name);
    ComponentMeans(utf8, ValuePart(piece), f.value);
  }

  /** A piece says at most one field. */
  lemma SaysOnce(utf8: bytes -> bool, piece: bytes, f: Field, g: Field)
    requires Says(utf8, piece, f) && Says(utf8, piece, g)
    ensures f == g
  {
    SaysMeans(utf8, piece, f);
    SaysMeans(utf8, piece, g);
  }

  lemma {:induction false} CollectSnoc(before: seq<Field>, f: Field)
    ensures Others(before + [f]) == Others(before) + if f.name == RESERVED then [] else [f]
    ensures Named(before + [f]) <==> Named(before) || f.name == RESERVED
    ensures EventOf(before + [f]) == if Named(before) then EventOf(before)
                                     else if f.name == RESERVED then f.value else DEFAULT_EVENT
  {
    if before == [] {
      assert [f][1..] == [] && before + [f] == [f] && (before + [f])[0] == f;
    } else {
      CollectSnoc(before[1..], f);
      assert (before + [f])[1..] == before[1..] + [f] && (before + [f])[0] == before[0];
      NamedCons(before);
      NamedSnoc(before, f);
    }
  }

  lemma NamedCons(fields: seq<Field>)
    requires fields != []
    ensures Named(fields) <==> fields[0].name == RESERVED || Named(fields[1..])
  {
    if Named(fields[1..]) {
      var i :| 0 <= i < |fields[1..]| && fields[1..][i].name == RESERVED;
      assert fields[i + 1].name == RESERVED;
    }
    if Named(fields) {
      var i :| 0 <= i < |fields| && fields[i].name == RESERVED;
      if i > 0 { assert fields[1..][i - 1].name == RESERVED; }
    }
  }

  lemma NamedSnoc(before: seq<Field>, f: Field)
    ensures Named(before + [f]) <==> Named(before) || f.name == RESERVED
  {
    if Named(before) {
      var i :| 0 <= i < |before| && before[i].name == RESERVED;
      assert (before + [f])[i].name == RESERVED;
    }
    if f.name == RESERVED { assert (before + [f])[|before|].name == RESERVED; }
  }

  /** The decoder's account of what it has read. */
  function Account(before: seq<Field>): Progress {
    Progress(|before|, Others(before), if Named(before) then Some(EventOf(before)) else None)
  }

  lemma AccountSnoc(before: seq<Field>, f: Field)
    ensures Account(before + [f]).count == |before| + 1
    ensures f.name != RESERVED ==>
      Account(before + [f]) == Account(before).(count := |before| + 1, entries := Others(before) + [f])
    ensures f.name == RESERVED && !Named(before) ==>
      Account(before + [f]) == Account(before).(count := |before| + 1, event := Some(f.value))
  {
    CollectSnoc(before, f);
  }

  /** One piece: it is taken as the field it says, or refused for the first objection. */
  lemma PieceIsRead(utf8: bytes -> bool, piece: bytes, before: seq<Field>, limits: Limits, capacity: nat)
    returns (f: Field)
    requires piece != []
    ensures match FileParts(utf8, NamePart(piece), ValuePart(piece), Account(before), limits, capacity)
      case Took(p) => Admits(utf8, piece, before, f, limits, capacity) && p == Account(before + [f])
      case Refused(e) => Objects(utf8, piece, before, limits, capacity, e)
  {
    var name, value := Component(utf8, NamePart(piece)), Component(utf8, ValuePart(piece));
    f := Field([], []);
    if name.Some? && value.Some? && name.value != [] {
      f := Field(name.value, value.value);
      SaysMeans(utf8, piece, f);
      AccountSnoc(before, f);
    } else {
      forall g ensures !Says(utf8, piece, g) { SaysMeans(utf8, piece, g); }
    }
  }

  lemma {:induction false} RestIsRead(utf8: bytes -> bool, s: bytes, before: seq<Field>, limits: Limits, capacity: nat)
    returns (fields: seq<Field>)
    requires s != []
    ensures Reads(utf8, Pieces(s), before, fields, limits, capacity,
                  DecodeRest(utf8, s, Account(before), limits, capacity))
    decreases |s|
  {
    var k := Find(s, AMPERSAND);
    var piece, pieces := s[..k], Pieces(s);
    fields := [];
    assert pieces[0] == piece && pieces[1..] == if k == |s| then [] else Pieces(s[k + 1..]);
    if piece != [] {
      var f := PieceIsRead(utf8, piece, before, limits, capacity);
      if FieldStep(utf8, s, Account(before), limits, capacity).Took? {
        fields := [f];
        if k == |s| {
          FormOf(before + [f]);
        } else if k + 1 < |s| {
          var rest := RestIsRead(utf8, s[k + 1..], before + [f], limits, capacity);
          fields := [f] + rest;
          assert fields[1..] == rest;
        }
      }
    }
  }

  lemma FormOf(fields: seq<Field>)
    ensures (if Named(fields) then EventOf(fields) else DEFAULT_EVENT) == EventOf(fields)
  {
    if fields != [] {
      NamedCons(fields);
      FormOf(fields[1..]);
    }
  }

  /** Any body within the size limits is read so: no pieces at all if it is empty, else all of its pieces. */
  lemma FormIsRead(utf8: bytes -> bool, body: bytes, limits: Limits, capacity: nat, textCapacity: nat)
    returns (fields: seq<Field>)
    requires |body| <= limits.maxBody && |body| <= textCapacity
    ensures Reads(utf8, PiecesOf(body), [], fields, limits, capacity,
                  DecodeForm(utf8, body, limits, capacity, textCapacity))
  {
    assert Account([]) == Progress(0, [], None);
    if body == [] {
      fields := [];
    } else {
      fields := RestIsRead(utf8, body, [], limits, capacity);
    }
  }

  // ----- there is one reading ----------------------------------------------

  lemma Excludes(utf8: bytes -> bool, piece: bytes, before: seq<Field>, f: Field, limits: Limits, capacity: nat, e: Decoded)
    requires Admits(utf8, piece, before, f, limits, capacity)
    ensures !Objects(utf8, piece, before, limits, capacity, e)
  {
    if Objects(utf8, piece, before, limits, capacity, e) {
      var g :| Says(utf8, piece, g) && (Bad(g, before) || TooMuch(g, before, limits, capacity));
      SaysOnce(utf8, piece, f, g);
    }
  }

  lemma OneObjection(utf8: bytes -> bool, piece: bytes, before: seq<Field>, limits: Limits, capacity: nat, d: Decoded, e: Decoded)
    requires Objects(utf8, piece, before, limits, capacity, d) && Objects(utf8, piece, before, limits, capacity, e)
    ensures d == e
  {
    if piece != [] && |before| < limits.maxCount && exists f :: Says(utf8, piece, f) {
      var f :| Says(utf8, piece, f) && if Bad(f, before) then d == BadRequest
                                       else TooMuch(f, before, limits, capacity) && d == Decoded.LimitExceeded;
      var g :| Says(utf8, piece, g) && if Bad(g, before) then e == BadRequest
                                       else TooMuch(g, before, limits, capacity) && e == Decoded.LimitExceeded;
      SaysOnce(utf8, piece, f, g);
    }
  }

  /** So a body means what some reading of it says, and nothing else. */
  lemma {:induction false} OneReading(
    utf8: bytes -> bool, pieces: seq<bytes>, before: seq<Field>, f1: seq<Field>, f2: seq<Field>,
    limits: Limits, capacity: nat, d1: Decoded, d2: Decoded)
    requires Reads(utf8, pieces, before, f1, limits, capacity, d1) && Reads(utf8, pieces, before, f2, limits, capacity, d2)
    ensures d1 == d2 && f1 == f2
    decreases |pieces|
  {
    if f1 != [] && f2 != [] {
      SaysOnce(utf8, pieces[0], f1[0], f2[0]);
      OneReading(utf8, pieces[1..], before + [f1[0]], f1[1..], f2[1..], limits, capacity, d1, d2);
      assert f1 == [f1[0]] + f1[1..] && f2 == [f2[0]] + f2[1..];
    } else if f1 != [] {
      Excludes(utf8, pieces[0], before, f1[0], limits, capacity, d2);
    } else if f2 != [] {
      Excludes(utf8, pieces[0], before, f2[0], limits, capacity, d1);
    } else if pieces != [] {
      OneObjection(utf8, pieces[0], before, limits, capacity, d1, d2);
    }
  }

  /** Some reading of the body's pieces says so. */
  ghost predicate Readable(utf8: bytes -> bool, body: bytes, limits: Limits, capacity: nat, d: Decoded) {
    exists fields :: Reads(utf8, PiecesOf(body), [], fields, limits, capacity, d)
  }

  /** What a body decodes to, in one sentence: too large a body exceeds the limits; any other decodes to what its
      one reading says. */
  lemma FormMeans(utf8: bytes -> bool, body: bytes, limits: Limits, capacity: nat, textCapacity: nat, d: Decoded)
    ensures DecodeForm(utf8, body, limits, capacity, textCapacity) == d <==>
      if limits.maxBody < |body| || textCapacity < |body| then d == Decoded.LimitExceeded
      else Readable(utf8, body, limits, capacity, d)
  {
    if |body| <= limits.maxBody && |body| <= textCapacity {
      var pieces, made := PiecesOf(body), DecodeForm(utf8, body, limits, capacity, textCapacity);
      var fields := FormIsRead(utf8, body, limits, capacity, textCapacity);
      assert Reads(utf8, pieces, [], fields, limits, capacity, made);
      if Readable(utf8, body, limits, capacity, d) {
        var other :| Reads(utf8, pieces, [], other, limits, capacity, d);
        OneReading(utf8, pieces, [], fields, other, limits, capacity, made, d);
      }
      assert Readable(utf8, body, limits, capacity, made);
    }
  }

  // ----- the encoder writes pieces -----------------------------------------

  /** One piece a field: its encoded name, an equals sign, its encoded value. */
  function Written(fields: seq<Field>): seq<bytes> {
    if fields == [] then []
    else [Encode(fields[0].name) + ['=' as int] + Encode(fields[0].value)] + Written(fields[1..])
  }

  lemma {:induction false} BodyWritten(fields: seq<Field>)
    ensures FormBody(fields) == Join(Written(fields)) && |Written(fields)| == |fields|
  {
    if fields != [] {
      FormCons(fields);
      BodyWritten(fields[1..]);
      var first, rest := Written(fields)[0], Written(fields)[1..];
      assert rest == Written(fields[1..]);
      if |fields| == 1 {
        assert Written(fields) == [first] && first + [] == first;
      } else {
        Append(first, ['&' as int], Join(rest));
      }
    }
  }

  /** The body of a request: first the piece that names its event, if it has one, then one piece an entry, in order. */
  lemma RequestWritten(r: Request)
    requires forall i :: 0 <= i < |r.entries| ==> r.entries[i].value.Text?
    ensures FormBody(Fields(r))
         == Join(if r.event.Some? && r.event.value != [] then
                   [Encode(RESERVED) + ['=' as int] + Encode(r.event.value)] + Written(EntryFields(r.entries))
                 else Written(EntryFields(r.entries)))
  {
    BodyWritten(Fields(r));
    if HasEvent(r) {
      assert Fields(r)[1..] == EntryFields(r.entries);
    } else {
      assert Fields(r) == EntryFields(r.entries);
    }
  }

  // ----- the case of hexadecimal digits ------------------------------------

  predicate SameDigit(c: byte, d: byte) { exists n :: 0 <= n < 16 && Digit(c, n) && Digit(d, n) }

  /** A text with an escape somewhere in it. */
  function Escaped(x: bytes, h: byte, l: byte, y: bytes): bytes { x + [PERCENT, h, l] + y }

  lemma DigitsDecodeAlike(c: byte, d: byte)
    requires SameDigit(c, d)
    ensures HexValue(c) == HexValue(d) && 0 <= HexValue(c)
    ensures c != AMPERSAND && c != EQUALS && c != PERCENT && c != PLUS
  {
    var n :| 0 <= n < 16 && Digit(c, n) && Digit(d, n);
    HexValueMeans(c, n);
    HexValueMeans(d, n);
  }

  /** In front of the escape the next byte is decoded alike, and not from the escape. */
  lemma OneAlike(x: bytes, h: byte, l: byte, h': byte, l': byte, y: bytes)
    requires SameDigit(h, h') && SameDigit(l, l') && x != []
    ensures var one := DecodeOne(Escaped(x, h, l, y));
      one == DecodeOne(Escaped(x, h', l', y)) && (one.Some? ==> 1 <= one.value.1 <= |x|)
  {
    var s, s' := Escaped(x, h, l, y), Escaped(x, h', l', y);
    assert forall i :: 0 <= i < |x| ==> s[i] == x[i] && s'[i] == x[i];
    assert s[|x|] == PERCENT == s'[|x|] && HexValue(PERCENT) < 0;
  }

  lemma DropEscaped(x: bytes, h: byte, l: byte, y: bytes, k: nat)
    requires k <= |x|
    ensures Escaped(x, h, l, y)[k..] == Escaped(x[k..], h, l, y) && Escaped(x, h, l, y)[..k] == x[..k]
  {
  }

  lemma TakeEscaped(x: bytes, h: byte, l: byte, y: bytes, k: nat)
    requires |x| + 3 <= k <= |x| + 3 + |y|
    ensures Escaped(x, h, l, y)[..k] == Escaped(x, h, l, y[..k - |x| - 3])
    ensures Escaped(x, h, l, y)[k..] == y[k - |x| - 3..]
  {
  }

  lemma {:induction false} DecodesAlike(x: bytes, h: byte, l: byte, h': byte, l': byte, y: bytes)
    requires SameDigit(h, h') && SameDigit(l, l')
    ensures Decode(Escaped(x, h, l, y)) == Decode(Escaped(x, h', l', y))
    decreases |x|
  {
    if x == [] {
      DigitsDecodeAlike(h, h');
      DigitsDecodeAlike(l, l');
      DropEscaped(x, h, l, y, 0);
      assert Escaped(x, h, l, y)[3..] == y && Escaped(x, h', l', y)[3..] == y;
    } else {
      OneAlike(x, h, l, h', l', y);
      var one := DecodeOne(Escaped(x, h, l, y));
      if one.Some? {
        var k := one.value.1;
        DropEscaped(x, h, l, y, k);
        DropEscaped(x, h', l', y, k);
        DecodesAlike(x[k..], h, l, h', l', y);
      }
    }
  }

  /** Where the first separator is, the same in both, and on which side of the escape. */
  lemma FindsAlike(x: bytes, h: byte, l: byte, h': byte, l': byte, y: bytes, c: byte)
    requires SameDigit(h, h') && SameDigit(l, l') && (c == AMPERSAND || c == EQUALS)
    ensures var k := Find(Escaped(x, h, l, y), c);
      Find(Escaped(x, h', l', y), c) == k && (k < |x| || |x| + 3 <= k)
  {
    var s, s' := Escaped(x, h, l, y), Escaped(x, h', l', y);
    var k := Find(s, c);
    SameDigitBack(h, h');
    SameDigitBack(l, l');
    DigitsDecodeAlike(h, h');
    DigitsDecodeAlike(l, l');
    DigitsDecodeAlike(h', h);
    DigitsDecodeAlike(l', l);
    assert forall i :: 0 <= i < |s| && i != |x| + 1 && i != |x| + 2 ==> s[i] == s'[i];
    assert s[|x|] == PERCENT && s[|x| + 1] == h && s[|x| + 2] == l && s'[|x| + 1] == h' && s'[|x| + 2] == l';
    FindIs(s', c, k);
  }

  lemma SameDigitBack(c: byte, d: byte)
    requires SameDigit(c, d)
    ensures SameDigit(d, c)
  {
    var n :| 0 <= n < 16 && Digit(c, n) && Digit(d, n);
  }

  /** An equals sign before the escape: the names are the same, the values differ in the escape. */
  lemma ValuesAlike(x: bytes, h: byte, l: byte, h': byte, l': byte, y: bytes)
    requires SameDigit(h, h') && SameDigit(l, l')
    requires Find(Escaped(x, h, l, y), EQUALS) == Find(Escaped(x, h', l', y), EQUALS) < |x|
    ensures var s, s' := Escaped(x, h, l, y), Escaped(x, h', l', y);
      NamePart(s) == NamePart(s') && Decode(ValuePart(s)) == Decode(ValuePart(s'))
  {
    var k := Find(Escaped(x, h, l, y), EQUALS);
    DropEscaped(x, h, l, y, k);
    DropEscaped(x, h', l', y, k);
    DropEscaped(x, h, l, y, k + 1);
    DropEscaped(x, h', l', y, k + 1);
    DecodesAlike(x[k + 1..], h, l, h', l', y);
  }

  /** None before it: the names differ in the escape, the values are the same. */
  lemma NamesAlike(x: bytes, h: byte, l: byte, h': byte, l': byte, y: bytes)
    requires SameDigit(h, h') && SameDigit(l, l')
    requires |x| + 3 <= Find(Escaped(x, h, l, y), EQUALS) == Find(Escaped(x, h', l', y), EQUALS)
    ensures var s, s' := Escaped(x, h, l, y), Escaped(x, h', l', y);
      Decode(NamePart(s)) == Decode(NamePart(s')) && ValuePart(s) == ValuePart(s')
  {
    var s := Escaped(x, h, l, y);
    var k := Find(s, EQUALS);
    TakeEscaped(x, h, l, y, k);
    TakeEscaped(x, h', l', y, k);
    DecodesAlike(x, h, l, h', l', y[..k - |x| - 3]);
    if k < |s| {
      TakeEscaped(x, h, l, y, k + 1);
      TakeEscaped(x, h', l', y, k + 1);
    }
  }

  lemma PiecesFileAlike(utf8: bytes -> bool, x: bytes, h: byte, l: byte, h': byte, l': byte, y: bytes,
                        p: Progress, limits: Limits, capacity: nat)
    requires SameDigit(h, h') && SameDigit(l, l')
    ensures var s, s' := Escaped(x, h, l, y), Escaped(x, h', l', y);
      FileParts(utf8, NamePart(s), ValuePart(s), p, limits, capacity)
      == FileParts(utf8, NamePart(s'), ValuePart(s'), p, limits, capacity)
  {
    FindsAlike(x, h, l, h', l', y, EQUALS);
    if Find(Escaped(x, h, l, y), EQUALS) < |x| {
      ValuesAlike(x, h, l, h', l', y);
    } else {
      NamesAlike(x, h, l, h', l', y);
    }
  }

  /** The first piece is read alike and what follows it differs at most in the escape. */
  lemma StepAlike(utf8: bytes -> bool, x: bytes, h: byte, l: byte, h': byte, l': byte, y: bytes,
                  p: Progress, limits: Limits, capacity: nat)
    requires SameDigit(h, h') && SameDigit(l, l')
    ensures var s, s' := Escaped(x, h, l, y), Escaped(x, h', l', y); var k := Find(s, AMPERSAND);
      && FieldStep(utf8, s, p, limits, capacity) == FieldStep(utf8, s', p, limits, capacity)
      && Find(s', AMPERSAND) == k
      && (k < |x| ==> Tail(s) == Escaped(x[k + 1..], h, l, y) && Tail(s') == Escaped(x[k + 1..], h', l', y))
      && (|x| <= k ==> Tail(s) == Tail(s'))
  {
    var s, s' := Escaped(x, h, l, y), Escaped(x, h', l', y);
    FindsAlike(x, h, l, h', l', y, AMPERSAND);
    var k := Find(s, AMPERSAND);
    if k < |x| {
      DropEscaped(x, h, l, y, k);
      DropEscaped(x, h', l', y, k);
      DropEscaped(x, h, l, y, k + 1);
      DropEscaped(x, h', l', y, k + 1);
    } else {
      TakeEscaped(x, h, l, y, k);
      TakeEscaped(x, h', l', y, k);
      PiecesFileAlike(utf8, x, h, l, h', l', y[..k - |x| - 3], p, limits, capacity);
      if k < |s| {
        TakeEscaped(x, h, l, y, k + 1);
        TakeEscaped(x, h', l', y, k + 1);
      }
    }
  }

  lemma {:induction false} RestAlike(utf8: bytes -> bool, x: bytes, h: byte, l: byte, h': byte, l': byte, y: bytes,
                                     p: Progress, limits: Limits, capacity: nat)
    requires SameDigit(h, h') && SameDigit(l, l')
    ensures DecodeRest(utf8, Escaped(x, h, l, y), p, limits, capacity)
         == DecodeRest(utf8, Escaped(x, h', l', y), p, limits, capacity)
    decreases |x|
  {
    StepAlike(utf8, x, h, l, h', l', y, p, limits, capacity);
    var k, t := Find(Escaped(x, h, l, y), AMPERSAND), FieldStep(utf8, Escaped(x, h, l, y), p, limits, capacity);
    if k < |x| && t.Took? { RestAlike(utf8, x[k + 1..], h, l, h', l', y, t.progress, limits, capacity); }
  }

  /** Changing the case of the digits of an escape, anywhere in a body, changes nothing of what it decodes to. */
  lemma DigitCaseIgnored(utf8: bytes -> bool, x: bytes, h: byte, l: byte, h': byte, l': byte, y: bytes,
                         limits: Limits, capacity: nat, textCapacity: nat)
    requires SameDigit(h, h') && SameDigit(l, l')
    ensures DecodeForm(utf8, Escaped(x, h, l, y), limits, capacity, textCapacity)
         == DecodeForm(utf8, Escaped(x, h', l', y), limits, capacity, textCapacity)
  {
    RestAlike(utf8, x, h, l, h', l', y, Progress(0, [], None), limits, capacity);
  }

  /** The two names the codec knows. */
  lemma NamesAre()
    ensures |RESERVED| == |"_scxmleventname"| && forall i :: 0 <= i < |RESERVED| ==> RESERVED[i] == "_scxmleventname"[i] as int
    ensures |DEFAULT_EVENT| == |"HTTP.POST"| && forall i :: 0 <= i < |DEFAULT_EVENT| ==> DEFAULT_EVENT[i] == "HTTP.POST"[i] as int
  {
  }
}
