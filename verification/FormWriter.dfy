/**
 The two-pass encoder: measure every field, then write the body in place.
 */
module FormWriter {
  import opened Basics
  import opened FormText
  import opened FormCodec

  datatype Status = Accepted | ErrorExecution | Full

  /** Measures one component; fails for text that is too long, invalid or of unrepresentable size. */
  method MeasureComponent(utf8: bytes -> bool, data: bytes, limit: nat) returns (size: Option<nat>)
    ensures size == if |data| <= limit && Valid(utf8, data) && EncodedSize(data) <= SIZE_MAX then Some(EncodedSize(data)) else None
  {
    if |data| > limit || !Valid(utf8, data) { return None; }
    var required: nat := 0;
    for index := 0 to |data|
      invariant required == EncodedSize(data[..index]) <= SIZE_MAX
    {
      EncodeSnoc(data, index);
      EncodedPrefix(data, index + 1);
      var width := Width(data[index]);
      if required > SIZE_MAX - width { return None; }
      required := required + width;
    }
    assert data[..|data|] == data;
    return Some(required);
  }

  /** Adds one field to the running total. */
  method AddFieldSize(utf8: bytes -> bool, total: nat, prior: bool, f: Field, nameLimit: nat, valueLimit: nat)
    returns (sum: Option<nat>)
    requires total <= SIZE_MAX
    ensures var n := total + (if prior then 1 else 0) + FieldSize(f);
      sum == if f.name != [] && |f.name| <= nameLimit && |f.value| <= valueLimit
                && Valid(utf8, f.name) && Valid(utf8, f.value) && n <= SIZE_MAX
             then Some(n) else None
  {
    var required := total;
    if f.name == [] { return None; }
    var name := MeasureComponent(utf8, f.name, nameLimit);
    if name.None? { return None; }
    var value := MeasureComponent(utf8, f.value, valueLimit);
    if value.None? { return None; }
    if prior {
      if required > SIZE_MAX - 1 { return None; }
      required := required + 1;
    }
    if required > SIZE_MAX - name.value { return None; }
    required := required + name.value;
    if required > SIZE_MAX - 1 { return None; }
    required := required + 1;
    if required > SIZE_MAX - value.value { return None; }
    return Some(required + value.value);
  }

  /** From `at` on the buffer is as it was. */
  ghost predicate Beyond(body: array<byte>, at: nat, was: bytes)
    reads body
  {
    |was| == body.Length && forall k :: at <= k < body.Length ==> body[k] == was[k]
  }

  method WriteByte(body: array<byte>, at: nat, v: byte) returns (next: nat)
    requires at < body.Length
    modifies body
    ensures next == at + 1 && body[..next] == old(body[..at]) + [v] && Beyond(body, next, old(body[..]))
  {
    body[at] := v;
    next := at + 1;
  }

  method WriteEncoded(body: array<byte>, at: nat, v: byte) returns (next: nat)
    requires at + Width(v) <= body.Length
    modifies body
    ensures next == at + Width(v) && body[..next] == old(body[..at]) + EncodeByte(v) && Beyond(body, next, old(body[..]))
  {
    if Unreserved(v) {
      next := WriteByte(body, at, v);
    } else if v == SPACE {
      next := WriteByte(body, at, PLUS);
    } else {
      body[at] := PERCENT;
      body[at + 1] := HexDigit(v / 16);
      body[at + 2] := HexDigit(v % 16);
      next := at + 3;
    }
  }

  /** Writes one component at `at`; nothing else in the buffer changes. */
  method WriteComponent(body: array<byte>, at: nat, data: bytes) returns (next: nat)
    requires at + EncodedSize(data) <= body.Length
    modifies body
    ensures next == at + EncodedSize(data)
    ensures body[..next] == old(body[..at]) + Encode(data)
    ensures Beyond(body, next, old(body[..]))
  {
    next := at;
    ghost var before := body[..at];
    for index := 0 to |data|
      invariant next == at + EncodedSize(data[..index]) <= body.Length
      invariant body[..next] == before + Encode(data[..index])
      invariant Beyond(body, next, old(body[..]))
    {
      EncodeSnoc(data, index);
      EncodedPrefix(data, index + 1);
      next := WriteEncoded(body, next, data[index]);
      Regroup(before, Encode(data[..index]), EncodeByte(data[index]), []);
    }
    assert data[..|data|] == data;
  }

  method WriteField(body: array<byte>, at: nat, prior: bool, f: Field) returns (next: nat)
    requires at + (if prior then 1 else 0) + FieldSize(f) <= body.Length
    modifies body
    ensures next == at + (if prior then 1 else 0) + FieldSize(f)
    ensures body[..next] == old(body[..at]) + Separator(prior) + FieldText(f)
    ensures Beyond(body, next, old(body[..]))
  {
    next := at;
    if prior { next := WriteByte(body, next, AMPERSAND); }
    ghost var before := body[..next];
    assert before == old(body[..at]) + Separator(prior);
    next := WriteComponent(body, next, f.name);
    next := WriteByte(body, next, EQUALS);
    next := WriteComponent(body, next, f.value);
    Regroup(before, Encode(f.name), [EQUALS], Encode(f.value));
  }

  /** Writes the fields from `at` on, each after the ones before it. */
  method WriteFields(body: array<byte>, fields: seq<Field>) returns (next: nat)
    requires FormSize(fields) <= body.Length
    modifies body
    ensures next == FormSize(fields) && body[..next] == FormBody(fields) && Beyond(body, next, old(body[..]))
  {
    next := 0;
    for i := 0 to |fields|
      invariant next == FormSize(fields[..i]) <= FormSize(fields) && body[..next] == FormBody(fields[..i])
      invariant Beyond(body, next, old(body[..]))
    {
      FormSnoc(fields, i);
      FormPrefix(fields, i + 1);
      next := WriteField(body, next, i != 0, fields[i]);
    }
    assert fields[..|fields|] == fields;
  }

  // ----- measuring a request -----------------------------------------------

  function Prefix(r: Request, i: nat): Request
    requires i <= |r.entries|
  {
    r.(entries := r.entries[..i])
  }

  predicate Good(utf8: bytes -> bool, fields: seq<Field>, limits: Limits) {
    OneEvent(fields) && (forall j :: 0 <= j < |fields| ==> FieldOk(utf8, fields[j], limits)) && FormSize(fields) <= SIZE_MAX
  }

  /** The first `i` entries are acceptable. */
  predicate PrefixOk(utf8: bytes -> bool, r: Request, i: nat, limits: Limits) {
    && i <= |r.entries| && r.event != Some([])
    && (forall j :: 0 <= j < i ==> r.entries[j].value.Text?)
    && Good(utf8, Fields(Prefix(r, i)), limits)
  }

  predicate Seen(fields: seq<Field>) { exists j :: 0 <= j < |fields| && fields[j].name == RESERVED }

  lemma PrefixFields(r: Request, i: nat)
    requires i < |r.entries| && forall j :: 0 <= j <= i ==> r.entries[j].value.Text?
    ensures Fields(Prefix(r, i + 1)) == Fields(Prefix(r, i)) + [Field(r.entries[i].name, r.entries[i].value.text)]
  {
    assert EntryFields(r.entries[..i + 1]) == EntryFields(r.entries[..i]) + [Field(r.entries[i].name, r.entries[i].value.text)];
  }

  /** The checks made for field `f` after `fields`. */
  predicate Fitting(utf8: bytes -> bool, fields: seq<Field>, f: Field, limits: Limits) {
    && FieldOk(utf8, f, limits) && !(f.name == RESERVED && Seen(fields))
    && FormSize(fields) + (if fields != [] then 1 else 0) + FieldSize(f) <= SIZE_MAX
  }

  lemma SizeMore(fields: seq<Field>, f: Field)
    ensures FormSize(fields + [f]) == FormSize(fields) + (if fields != [] then 1 else 0) + FieldSize(f)
  {
    var more := fields + [f];
    FormSnoc(more, |fields|);
    assert more[..|fields|] == fields && more[..|more|] == more;
  }

  lemma GoodMore(utf8: bytes -> bool, fields: seq<Field>, f: Field, limits: Limits)
    requires Good(utf8, fields, limits)
    ensures Good(utf8, fields + [f], limits) <==> Fitting(utf8, fields, f, limits)
  {
    var more := fields + [f];
    SizeMore(fields, f);
    OneMore(fields, f);
    assert more[|fields|] == f;
  }

  /** One entry more, in terms of the checks made for it. */
  lemma PrefixStep(utf8: bytes -> bool, r: Request, i: nat, limits: Limits)
    requires PrefixOk(utf8, r, i, limits) && i < |r.entries|
    ensures PrefixOk(utf8, r, i + 1, limits) <==>
      r.entries[i].value.Text?
      && Fitting(utf8, Fields(Prefix(r, i)), Field(r.entries[i].name, r.entries[i].value.text), limits)
  {
    if r.entries[i].value.Text? {
      PrefixFields(r, i);
      GoodMore(utf8, Fields(Prefix(r, i)), Field(r.entries[i].name, r.entries[i].value.text), limits);
    }
  }

  lemma OneMore(fields: seq<Field>, f: Field)
    requires OneEvent(fields)
    ensures OneEvent(fields + [f]) <==> !(f.name == RESERVED && Seen(fields))
  {
    var more := fields + [f];
    if f.name == RESERVED && Seen(fields) {
      var j :| 0 <= j < |fields| && fields[j].name == RESERVED;
      assert more[j].name == RESERVED && more[|fields|].name == RESERVED;
    }
  }

  lemma {:induction false} PrefixDown(utf8: bytes -> bool, r: Request, i: nat, n: nat, limits: Limits)
    requires i <= n && PrefixOk(utf8, r, n, limits)
    ensures PrefixOk(utf8, r, i, limits)
  {
    if i < n {
      var k := n - 1;
      PrefixFields(r, k);
      var fields, more := Fields(Prefix(r, k)), Fields(Prefix(r, n));
      assert more[..|fields|] == fields;
      FormPrefix(more, |fields|);
      assert forall j :: 0 <= j < |fields| ==> fields[j] == more[j];
      PrefixDown(utf8, r, i, k, limits);
    }
  }

  /** The whole request is acceptable if and only if all its entries are and the count fits. */
  lemma WholePrefix(utf8: bytes -> bool, r: Request, limits: Limits)
    ensures Encodable(utf8, r, limits) <==>
      PrefixOk(utf8, r, |r.entries|, limits) && 0 < |r.entries| + (if HasEvent(r) then 1 else 0) <= limits.maxCount
  {
    assert Prefix(r, |r.entries|) == r;
  }

  lemma NotPrefix(utf8: bytes -> bool, r: Request, i: nat, limits: Limits)
    requires i <= |r.entries| && !PrefixOk(utf8, r, i, limits)
    ensures !Encodable(utf8, r, limits)
  {
    WholePrefix(utf8, r, limits);
    if PrefixOk(utf8, r, |r.entries|, limits) { PrefixDown(utf8, r, i, |r.entries|, limits); }
  }

  /** Before any entry: the event name field alone, or nothing. */
  lemma NoEntries(utf8: bytes -> bool, r: Request, limits: Limits)
    requires r.event != Some([])
    ensures var fields := Fields(Prefix(r, 0));
      if HasEvent(r) then
        var f := Field(RESERVED, r.event.value);
        && fields == [f] && FormSize(fields) == FieldSize(f) && Seen(fields)
        && (PrefixOk(utf8, r, 0, limits) <==> FieldOk(utf8, f, limits) && FieldSize(f) <= SIZE_MAX)
      else fields == [] && PrefixOk(utf8, r, 0, limits)
  {
    var fields := Fields(Prefix(r, 0));
    if HasEvent(r) {
      assert fields == [Field(RESERVED, r.event.value)];
      FormSnoc(fields, 0);
      assert fields[..1] == fields && fields[..0] == [];
      assert fields[0].name == RESERVED;
    }
  }

  lemma SeenMore(fields: seq<Field>, f: Field)
    ensures Seen(fields + [f]) <==> Seen(fields) || f.name == RESERVED
  {
    var more := fields + [f];
    assert more[|fields|] == f;
    if Seen(fields) {
      var j :| 0 <= j < |fields| && fields[j].name == RESERVED;
      assert more[j].name == RESERVED;
    }
  }

  method MeasureEntry(utf8: bytes -> bool, total: nat, prior: bool, reserved: bool, e: Entry, limits: Limits)
    returns (sum: Option<nat>)
    requires total <= SIZE_MAX
    ensures sum.Some? <==>
      && e.value.Text?
      && var f := Field(e.name, e.value.text);
         && FieldOk(utf8, f, limits) && !(f.name == RESERVED && reserved)
         && total + (if prior then 1 else 0) + FieldSize(f) <= SIZE_MAX
    ensures sum.Some? ==> sum.value == total + (if prior then 1 else 0) + FieldSize(Field(e.name, e.value.text))
  {
    var isReserved := e.name == RESERVED;
    if (isReserved && reserved) || e.value.NoText? || !Valid(utf8, e.value.text) || (isReserved && e.value.text == []) {
      return None;
    }
    sum := AddFieldSize(utf8, total, prior, Field(e.name, e.value.text),
                        if isReserved then |RESERVED| else limits.maxName,
                        if isReserved then limits.maxEvent else limits.maxValue);
  }

  /** The running totals of the first pass after `i` entries. */
  predicate Tallied(utf8: bytes -> bool, r: Request, i: nat, limits: Limits, required: nat, count: nat, reserved: bool) {
    && PrefixOk(utf8, r, i, limits)
    && var fields := Fields(Prefix(r, i));
       required == FormSize(fields) <= SIZE_MAX && count == |fields| && reserved == Seen(fields)
  }

  lemma TallyStep(utf8: bytes -> bool, r: Request, i: nat, limits: Limits, required: nat, count: nat, reserved: bool)
    requires i < |r.entries| && Tallied(utf8, r, i, limits, required, count, reserved)
    requires r.entries[i].value.Text?
    ensures var f := Field(r.entries[i].name, r.entries[i].value.text);
      var sum := required + (if count != 0 then 1 else 0) + FieldSize(f);
      if FieldOk(utf8, f, limits) && !(f.name == RESERVED && reserved) && sum <= SIZE_MAX
      then Tallied(utf8, r, i + 1, limits, sum, count + 1, reserved || f.name == RESERVED)
      else !Encodable(utf8, r, limits)
  {
    PrefixStep(utf8, r, i, limits);
    NextPrefix(r, i);
    if !PrefixOk(utf8, r, i + 1, limits) { NotPrefix(utf8, r, i + 1, limits); }
  }

  method MeasureEvent(utf8: bytes -> bool, r: Request, limits: Limits) returns (total: Option<nat>)
    ensures total.None? ==> !Encodable(utf8, r, limits)
    ensures total.Some? ==> Tallied(utf8, r, 0, limits, total.value, if HasEvent(r) then 1 else 0, HasEvent(r))
    ensures total.Some? && HasEvent(r) ==> 1 <= limits.maxCount
  {
    WholePrefix(utf8, r, limits);
    if r.event == Some([]) { return None; }
    NoEntries(utf8, r, limits);
    if !HasEvent(r) { return Some(0); }
    if limits.maxCount == 0 { return None; }
    total := AddFieldSize(utf8, 0, false, Field(RESERVED, r.event.value), |RESERVED|, limits.maxEvent);
    if total.None? { NotPrefix(utf8, r, 0, limits); }
  }

  /** The first pass: the exact size of the body, or nothing for a request that has none. */
  method Measure(utf8: bytes -> bool, r: Request, limits: Limits) returns (total: Option<nat>)
    ensures total == if Encodable(utf8, r, limits) then Some(FormSize(Fields(r))) else None
  {
    WholePrefix(utf8, r, limits);
    total := MeasureEvent(utf8, r, limits);
    if total.None? { return; }
    var required: nat, count: nat, reserved := total.value, if HasEvent(r) then 1 else 0, HasEvent(r);
    if |r.entries| > limits.maxCount - count { return None; }
    for i := 0 to |r.entries|
      invariant Tallied(utf8, r, i, limits, required, count, reserved)
      invariant count == i + if HasEvent(r) then 1 else 0
    {
      var sum := MeasureEntry(utf8, required, count != 0, reserved, r.entries[i], limits);
      if r.entries[i].value.Text? { TallyStep(utf8, r, i, limits, required, count, reserved); }
      if sum.None? { return None; }
      required, count, reserved := sum.value, count + 1, reserved || r.entries[i].name == RESERVED;
    }
    assert Prefix(r, |r.entries|) == r;
    if count == 0 { return None; }
    return Some(required);
  }

  /** What one more entry does to the size, the count and the event name. */
  lemma NextPrefix(r: Request, i: nat)
    requires i < |r.entries| && forall j :: 0 <= j <= i ==> r.entries[j].value.Text?
    ensures var fields := Fields(Prefix(r, i)); var more := Fields(Prefix(r, i + 1));
      var f := Field(r.entries[i].name, r.entries[i].value.text);
      && |more| == |fields| + 1 && (Seen(more) <==> Seen(fields) || f.name == RESERVED)
      && FormSize(more) == FormSize(fields) + (if fields != [] then 1 else 0) + FieldSize(f)
  {
    PrefixFields(r, i);
    SeenMore(Fields(Prefix(r, i)), Field(r.entries[i].name, r.entries[i].value.text));
    SizeMore(Fields(Prefix(r, i)), Field(r.entries[i].name, r.entries[i].value.text));
  }

  /** Measures, checks the limits, and only then writes exactly the measured bytes. */
  method EncodeRequest(utf8: bytes -> bool, r: Request, limits: Limits, body: array<byte>)
    returns (status: Status, required: nat)
    modifies body
    ensures status.ErrorExecution? <==> !(Encodable(utf8, r, limits) && FormSize(Fields(r)) <= limits.maxBody)
    ensures status.Full? ==> body.Length < required
    ensures required == if Encodable(utf8, r, limits) then FormSize(Fields(r)) else 0
    ensures status.Accepted? ==> required <= body.Length && body[..required] == FormBody(Fields(r))
    ensures status.Accepted? ==> Beyond(body, required, old(body[..]))
    ensures !status.Accepted? ==> body[..] == old(body[..])
  {
    var total := Measure(utf8, r, limits);
    if total.None? { return ErrorExecution, 0; }
    required := total.value;
    if required > limits.maxBody { return ErrorExecution, required; }
    if required > body.Length { return Full, required; }
    var next := WriteFields(body, Fields(r));
    status := Accepted;
  }
}
