/**
 The decoder: component text goes into one buffer, entries are views into it.
 */
module FormReader {
  import opened Basics
  import opened FormText
  import opened FormCodec

  datatype Status = Ok | Bad | Limit

  /** A name and a value as ranges of the text buffer. */
  datatype View = View(nameAt: nat, nameSize: nat, valueAt: nat, valueSize: nat)

  ghost predicate Shows(text: bytes, v: View, f: Field, used: nat) {
    && v.nameAt + v.nameSize <= used && v.valueAt + v.valueSize <= used <= |text|
    && text[v.nameAt..v.nameAt + v.nameSize] == f.name && text[v.valueAt..v.valueAt + v.valueSize] == f.value
  }

  ghost predicate ShowsAll(text: bytes, views: seq<View>, fields: seq<Field>, used: nat) {
    |fields| <= |views| && forall k :: 0 <= k < |fields| ==> Shows(text, views[k], fields[k], used)
  }

  /** The event name, if one was given, as a range of the text buffer. */
  ghost predicate ShowsEvent(text: bytes, at: nat, size: nat, event: Option<bytes>, used: nat) {
    event.Some? ==> at + size <= used <= |text| && text[at..at + size] == event.value
  }

  /** Later text leaves earlier views alone. */
  lemma ShowsStill(text: bytes, text': bytes, views: seq<View>, fields: seq<Field>, used: nat, used': nat)
    requires ShowsAll(text, views, fields, used) && used <= used' <= |text'| && used <= |text| && text'[..used] == text[..used]
    ensures ShowsAll(text', views, fields, used')
  {
    forall k | 0 <= k < |fields| ensures Shows(text', views[k], fields[k], used') {
      var v := views[k];
      assert Shows(text, v, fields[k], used);
      RangeStill(text, text', used, v.nameAt, v.nameSize);
      RangeStill(text, text', used, v.valueAt, v.valueSize);
    }
  }

  lemma RangeStill(text: bytes, text': bytes, used: nat, at: nat, size: nat)
    requires used <= |text| && used <= |text'| && text'[..used] == text[..used] && at + size <= used
    ensures text'[at..at + size] == text[at..at + size]
  {
    assert text'[at..at + size] == text'[..used][at..at + size];
    assert text[at..at + size] == text[..used][at..at + size];
  }

  /** One decoded byte and how much source it takes. */
  method DecodeByte(source: bytes, index: nat) returns (one: Option<(byte, nat)>)
    requires index < |source|
    ensures one == DecodeOne(source[index..])
  {
    var v: int := source[index];
    if v == PLUS { return Some((SPACE, 1)); }
    if v != PERCENT {
      if v == 0 { return None; }
      return Some((v, 1));
    }
    if |source| - index < 3 { return None; }
    var high, low := HexValue(source[index + 1]), HexValue(source[index + 2]);
    if high < 0 || low < 0 { return None; }
    v := high * 16 + low;
    if v == 0 { return None; }
    return Some((v, 3));
  }

  lemma DecodeFirst(rest: bytes)
    requires rest != []
    ensures var one := DecodeOne(rest);
      if one.None? then Decode(rest).None?
      else one.value.1 <= |rest| && Decode(rest) == Prepend([one.value.0], Decode(rest[one.value.1..]))
  {
  }

  lemma DecodeStep(source: bytes, index: nat, done: bytes)
    requires index < |source| && Decode(source) == Prepend(done, Decode(source[index..]))
    ensures var one := DecodeOne(source[index..]);
      if one.None? then Decode(source).None?
      else index + one.value.1 <= |source|
           && Decode(source) == Prepend(done + [one.value.0], Decode(source[index + one.value.1..]))
  {
    var rest := source[index..];
    var one := DecodeOne(rest);
    DecodeFirst(rest);
    if one.Some? {
      assert rest[one.value.1..] == source[index + one.value.1..];
      PrependTwice(done, [one.value.0], Decode(source[index + one.value.1..]));
    }
  }

  /** Decodes `source` into the buffer at `at`; what precedes stays. */
  method DecodeComponent(utf8: bytes -> bool, source: bytes, text: array<byte>, at: nat) returns (size: Option<nat>)
    requires at + |source| <= text.Length
    modifies text
    ensures text[..at] == old(text[..at])
    ensures size.Some? <==> Component(utf8, source).Some?
    ensures size.Some? ==> size.value <= |source| && text[at..at + size.value] == Component(utf8, source).value
  {
    var index: nat, n: nat := 0, 0;
    assert source[0..] == source;
    PrependNothing(Decode(source));
    while index < |source|
      invariant n <= index <= |source|
      invariant text[..at] == old(text[..at])
      invariant Decode(source) == Prepend(text[at..at + n], Decode(source[index..]))
    {
      ghost var done := text[at..at + n];
      DecodeStep(source, index, done);
      var one := DecodeByte(source, index);
      if one.None? { return None; }
      text[at + n] := one.value.0;
      n, index := n + 1, index + one.value.1;
      assert text[at..at + n] == done + [one.value.0];
    }
    assert source[index..] == [];
    assert text[at..at + n] + [] == text[at..at + n];
    if !Valid(utf8, text[at..at + n]) { return None; }
    return Some(n);
  }

  lemma PrependNothing(r: Option<bytes>)
    ensures Prepend([], r) == r
  {
    if r.Some? { assert [] + r.value == r.value; }
  }

  /** The first `c` in `s[from..to]`, or `to`. */
  method Scan(s: bytes, from: nat, to: nat, c: byte) returns (k: nat)
    requires from <= to <= |s|
    ensures from <= k <= to && k - from == Find(s[from..to], c)
  {
    k := from;
    while k < to && s[k] != c
      invariant from <= k <= to && forall j :: from <= j < k ==> s[j] != c
    {
      k := k + 1;
    }
    FindIs(s[from..to], c, k - from);
  }

  /** The two sides of a field; without `=` the value is empty. */
  method SplitField(body: bytes, from: nat, to: nat) returns (name: bytes, value: bytes)
    requires from <= to <= |body|
    ensures var field := body[from..to]; name == NamePart(field) && value == ValuePart(field)
    ensures |name| + |value| <= to - from
  {
    var eq := Scan(body, from, to, EQUALS);
    ghost var field := body[from..to];
    name := body[from..eq];
    assert name == field[..eq - from];
    value := if eq < to then body[eq + 1..to] else [];
    if eq < to { assert value == field[eq - from + 1..]; }
  }

  /** A field's name and value, decoded one after the other. */
  ghost predicate Written(text: bytes, used: nat, sizes: (nat, nat), name: bytes, value: bytes) {
    && sizes.0 == |name| && sizes.1 == |value| && used + sizes.0 + sizes.1 <= |text|
    && text[used..used + sizes.0] == name && text[used + sizes.0..used + sizes.0 + sizes.1] == value
  }

  method ReadField(utf8: bytes -> bool, name: bytes, value: bytes, text: array<byte>, used: nat)
    returns (sizes: Option<(nat, nat)>)
    requires used + |name| + |value| <= text.Length
    modifies text
    ensures text[..used] == old(text[..used])
    ensures sizes.Some? <==> Component(utf8, name).Some? && Component(utf8, name).value != [] && Component(utf8, value).Some?
    ensures sizes.Some? ==> sizes.value.0 + sizes.value.1 <= |name| + |value|
    ensures sizes.Some? ==> Written(text[..], used, sizes.value, Component(utf8, name).value, Component(utf8, value).value)
  {
    var n := DecodeComponent(utf8, name, text, used);
    if n.None? || n.value == 0 { return None; }
    ghost var mid := text[..];
    var m := DecodeComponent(utf8, value, text, used + n.value);
    RangeStill(mid, text[..], used + n.value, used, n.value);
    RangeStill(mid, text[..], used + n.value, 0, used);
    if m.None? { return None; }
    return Some((n.value, m.value));
  }

  // ----- the whole body ----------------------------------------------------

  /** The decoder's local variables. */
  datatype Locals = Locals(total: nat, count: nat, used: nat, given: bool, eventAt: nat, eventSize: nat)

  /** They agree with what has been collected. */
  ghost predicate Reading(text: bytes, views: seq<View>, p: Progress, l: Locals) {
    && l.total == p.count && l.count == |p.entries| && l.given == p.event.Some? && l.used <= |text|
    && ShowsAll(text, views, p.entries, l.used) && ShowsEvent(text, l.eventAt, l.eventSize, p.event, l.used)
  }

  lemma ReadingStill(text: bytes, text': bytes, views: seq<View>, p: Progress, l: Locals, used: nat)
    requires Reading(text, views, p, l) && l.used <= used <= |text'| == |text| && text'[..l.used] == text[..l.used]
    ensures Reading(text', views, p, l.(used := used))
  {
    ShowsStill(text, text', views, p.entries, l.used, used);
    if p.event.Some? { RangeStill(text, text', l.used, l.eventAt, l.eventSize); }
  }

  /** Files the field just written at `l.used - n - m`. */
  method FileField(limits: Limits, views: array<View>, text: array<byte>, at: nat, n: nat, m: nat, l: Locals,
                   ghost p: Progress, ghost f: Field)
    returns (status: Status, l': Locals)
    requires Reading(text[..], views[..], p, l) && l.used == at + n + m && Written(text[..], at, (n, m), f.name, f.value)
    modifies views
    ensures var t := Take(p, f, limits, views.Length);
      && (status.Bad? <==> t == Refused(BadRequest)) && (status.Limit? <==> t == Refused(LimitExceeded))
      && (status.Ok? ==> t.Took? && Reading(text[..], views[..], t.progress, l') && l'.used == l.used)
  {
    l' := l;
    if text[at..at + n] == RESERVED {
      if l.given || m == 0 { return Bad, l; }
      if m > limits.maxEvent { return Limit, l; }
      return Ok, l.(given := true, eventAt := at + n, eventSize := m);
    }
    if n > limits.maxName || m > limits.maxValue || l.count >= views.Length { return Limit, l; }
    views[l.count] := View(at, n, at + n, m);
    return Ok, l.(count := l.count + 1);
  }

  /** Counts, decodes and files one field. */
  method ReadParts(utf8: bytes -> bool, name: bytes, value: bytes, limits: Limits, views: array<View>, text: array<byte>,
                   l: Locals, ghost p: Progress)
    returns (status: Status, l': Locals)
    requires l.used + |name| + |value| <= text.Length && Reading(text[..], views[..], p, l)
    modifies views, text
    ensures var t := FileParts(utf8, name, value, p, limits, views.Length);
      && (status.Bad? <==> t == Refused(BadRequest)) && (status.Limit? <==> t == Refused(LimitExceeded))
      && (status.Ok? ==> t.Took? && Reading(text[..], views[..], t.progress, l') && l'.used <= l.used + |name| + |value|)
  {
    l' := l.(total := l.total + 1);
    if l'.total > limits.maxCount { return Limit, l; }
    ghost var was := text[..];
    var sizes := ReadField(utf8, name, value, text, l.used);
    if sizes.None? { return Bad, l; }
    var (n, m) := sizes.value;
    ghost var f := Field(Component(utf8, name).value, Component(utf8, value).value);
    ReadingStill(was, text[..], views[..], p, l, l.used + n + m);
    status, l' := FileField(limits, views, text, l.used, n, m, l'.(used := l.used + n + m), p.(count := p.count + 1), f);
  }

  lemma StepParts(utf8: bytes -> bool, body: bytes, cursor: nat, end: nat, p: Progress, limits: Limits, capacity: nat)
    requires cursor < |body| && cursor <= end <= |body| && end - cursor == Find(body[cursor..|body|], AMPERSAND)
    ensures body[cursor..|body|] == body[cursor..]
    ensures FieldStep(utf8, body[cursor..], p, limits, capacity)
         == if end == cursor then Refused(BadRequest)
            else FileParts(utf8, NamePart(body[cursor..end]), ValuePart(body[cursor..end]), p, limits, capacity)
  {
    var rest, field := body[cursor..], body[cursor..end];
    assert body[cursor..|body|] == rest;
    assert rest[..Find(rest, AMPERSAND)] == field;
    assert field == [] <==> end == cursor;
  }

  /** One turn of the decoder's loop. */
  method ReadOne(utf8: bytes -> bool, body: bytes, cursor: nat, limits: Limits, views: array<View>, text: array<byte>,
                 l: Locals, ghost p: Progress)
    returns (status: Status, end: nat, l': Locals)
    requires l.used <= cursor < |body| <= text.Length && Reading(text[..], views[..], p, l)
    modifies views, text
    ensures var t := FieldStep(utf8, body[cursor..], p, limits, views.Length);
      && end == cursor + Find(body[cursor..], AMPERSAND)
      && (status.Bad? <==> t == Refused(BadRequest)) && (status.Limit? <==> t == Refused(LimitExceeded))
      && (status.Ok? ==> t.Took? && Reading(text[..], views[..], t.progress, l') && l'.used <= end)
  {
    end := Scan(body, cursor, |body|, AMPERSAND);
    StepParts(utf8, body, cursor, end, p, limits, views.Length);
    if end == cursor { return Bad, end, l; }
    var name, value := SplitField(body, cursor, end);
    status, l' := ReadParts(utf8, name, value, limits, views, text, l, p);
  }

  /** Decodes a form body. The text of all names and values fits in the length of the body. */
  method DecodeFormInto(utf8: bytes -> bool, body: bytes, limits: Limits, views: array<View>, text: array<byte>)
    returns (status: Status, l: Locals)
    modifies views, text
    ensures var d := DecodeForm(utf8, body, limits, views.Length, text.Length);
      && (status.Bad? <==> d.BadRequest?) && (status.Limit? <==> d.LimitExceeded?)
      && (status.Ok? ==>
            && l.count == |d.entries| && l.used <= |body| && ShowsAll(text[..], views[..], d.entries, l.used)
            && (if l.given then ShowsEvent(text[..], l.eventAt, l.eventSize, Some(d.event), l.used)
                else d.event == DEFAULT_EVENT))
  {
    l := Locals(0, 0, 0, false, 0, 0);
    if |body| > limits.maxBody || |body| > text.Length { return Limit, l; }
    var cursor: nat := 0;
    ghost var p := Progress(0, [], None);
    assert body[0..] == body;
    while cursor < |body|
      invariant l.used <= cursor <= |body| && Reading(text[..], views[..], p, l)
      invariant DecodeForm(utf8, body, limits, views.Length, text.Length)
             == DecodeRest(utf8, body[cursor..], p, limits, views.Length)
    {
      ghost var rest := body[cursor..];
      var end;
      status, end, l := ReadOne(utf8, body, cursor, limits, views, text, l, p);
      if !status.Ok? { return; }
      p := FieldStep(utf8, rest, p, limits, views.Length).progress;
      if end + 1 == |body| { return Bad, l; }
      assert Tail(rest) == if end < |body| then body[end + 1..] else body[end..];
      cursor := if end < |body| then end + 1 else end;
    }
    status := Ok;
  }
}
