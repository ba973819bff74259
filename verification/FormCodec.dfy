/**
 Encoding a send request as a form body and decoding a form body into an event.
 `utf8` stands for the library's validity test on non-empty text.
 */
module FormCodec {
  import opened Basics
  import opened FormText

  /** "_scxmleventname" */
  const RESERVED: bytes :=
    [0x5F, 0x73, 0x63, 0x78, 0x6D, 0x6C, 0x65, 0x76, 0x65, 0x6E, 0x74, 0x6E, 0x61, 0x6D, 0x65]
  /** "HTTP.POST" */
  const DEFAULT_EVENT: bytes := [0x48, 0x54, 0x54, 0x50, 0x2E, 0x50, 0x4F, 0x53, 0x54]

  datatype Limits = Limits(maxEvent: nat, maxCount: nat, maxName: nat, maxValue: nat, maxBody: nat)

  /** A rendered scalar, or a value that has no scalar text. */
  datatype Scalar = Text(text: bytes) | NoText

  datatype Entry = Entry(name: bytes, value: Scalar)

  /** A request without content: an event name, if any, and named entries, if any. */
  datatype Request = Request(event: Option<bytes>, entries: seq<Entry>)

  predicate Valid(utf8: bytes -> bool, s: bytes) { s == [] || (0 !in s && utf8(s)) }

  // ----- which requests are accepted ---------------------------------------

  predicate HasEvent(r: Request) { r.event.Some? && r.event.value != [] }

  /** The fields of the body, in order: the event name first. */
  function EntryFields(entries: seq<Entry>): seq<Field>
    requires forall i :: 0 <= i < |entries| ==> entries[i].value.Text?
  {
    seq(|entries|, i requires 0 <= i < |entries| => Field(entries[i].name, entries[i].value.text))
  }

  function Fields(r: Request): seq<Field>
    requires forall i :: 0 <= i < |r.entries| ==> r.entries[i].value.Text?
  {
    (if HasEvent(r) then [Field(RESERVED, r.event.value)] else []) + EntryFields(r.entries)
  }

  predicate FieldOk(utf8: bytes -> bool, f: Field, limits: Limits) {
    && f.name != [] && Valid(utf8, f.name) && Valid(utf8, f.value)
    && (if f.name == RESERVED then f.value != [] && |f.value| <= limits.maxEvent
        else |f.name| <= limits.maxName && |f.value| <= limits.maxValue)
  }

  /** At most one field carries the event name. */
  predicate OneEvent(fields: seq<Field>) {
    forall i, j :: 0 <= i < j < |fields| && fields[i].name == RESERVED ==> fields[j].name != RESERVED
  }

  predicate FieldsOk(utf8: bytes -> bool, fields: seq<Field>, limits: Limits) {
    && OneEvent(fields) && |fields| <= limits.maxCount
    && forall i :: 0 <= i < |fields| ==> FieldOk(utf8, fields[i], limits)
  }

  /** Requests that have a form body of representable size. */
  predicate Encodable(utf8: bytes -> bool, r: Request, limits: Limits) {
    && r.event != Some([])
    && (forall i :: 0 <= i < |r.entries| ==> r.entries[i].value.Text?)
    && Fields(r) != [] && FieldsOk(utf8, Fields(r), limits) && FormSize(Fields(r)) <= SIZE_MAX
  }

  // ----- decoding ----------------------------------------------------------

  datatype Decoded = Form(event: bytes, entries: seq<Field>) | BadRequest | LimitExceeded

  /** What has been collected so far. */
  datatype Progress = Progress(count: nat, entries: seq<Field>, event: Option<bytes>)

  datatype Taken = Took(progress: Progress) | Refused(error: Decoded)

  function Component(utf8: bytes -> bool, s: bytes): (r: Option<bytes>)
    ensures r.Some? ==> |r.value| <= |s|
  {
    var d := Decode(s);
    if d.Some? && Valid(utf8, d.value) then d else None
  }

  /** Files a decoded field as the event name or as an entry. */
  function Take(p: Progress, f: Field, limits: Limits, capacity: nat): Taken {
    if f.name == RESERVED then
      if p.event.Some? || f.value == [] then Refused(BadRequest)
      else if |f.value| > limits.maxEvent then Refused(LimitExceeded)
      else Took(p.(event := Some(f.value)))
    else if |f.name| > limits.maxName || |f.value| > limits.maxValue || |p.entries| >= capacity then Refused(LimitExceeded)
    else Took(p.(entries := p.entries + [f]))
  }

  function ValuePart(field: bytes): bytes {
    var eq := Find(field, EQUALS);
    if eq < |field| then field[eq + 1..] else []
  }

  /** A field split at its `=`. */
  function FileParts(utf8: bytes -> bool, nameText: bytes, valueText: bytes, p: Progress, limits: Limits, capacity: nat): Taken {
    if p.count + 1 > limits.maxCount then Refused(LimitExceeded)
    else
      var name := Component(utf8, nameText);
      var value := Component(utf8, valueText);
      if name.None? || name.value == [] || value.None? then Refused(BadRequest)
      else Take(p.(count := p.count + 1), Field(name.value, value.value), limits, capacity)
  }

  function NamePart(field: bytes): bytes { field[..Find(field, EQUALS)] }

  /** The first field of a non-empty rest. */
  function FieldStep(utf8: bytes -> bool, s: bytes, p: Progress, limits: Limits, capacity: nat): Taken
    requires s != []
  {
    var field := s[..Find(s, AMPERSAND)];
    if field == [] then Refused(BadRequest) else FileParts(utf8, NamePart(field), ValuePart(field), p, limits, capacity)
  }

  /** What follows the first field and its separator. */
  function Tail(s: bytes): (t: bytes)
    ensures s != [] ==> |t| < |s|
  {
    var end := Find(s, AMPERSAND);
    if end < |s| then s[end + 1..] else []
  }

  function DecodeRest(utf8: bytes -> bool, s: bytes, p: Progress, limits: Limits, capacity: nat): Decoded
    decreases |s|
  {
    if s == [] then Form(if p.event.Some? then p.event.value else DEFAULT_EVENT, p.entries)
    else
      var t := FieldStep(utf8, s, p, limits, capacity);
      if t.Refused? then t.error
      else if Find(s, AMPERSAND) + 1 == |s| then BadRequest
      else DecodeRest(utf8, Tail(s), t.progress, limits, capacity)
  }

  function DecodeForm(utf8: bytes -> bool, body: bytes, limits: Limits, capacity: nat, textCapacity: nat): Decoded {
    if |body| > limits.maxBody || |body| > textCapacity then LimitExceeded
    else DecodeRest(utf8, body, Progress(0, [], None), limits, capacity)
  }

  // ----- round trip --------------------------------------------------------

  /** The event a receiver should see: the event name field, else the default. */
  function EventOf(fields: seq<Field>): bytes {
    if fields == [] then DEFAULT_EVENT
    else if fields[0].name == RESERVED then fields[0].value
    else EventOf(fields[1..])
  }

  /** The other fields, in order. */
  function Others(fields: seq<Field>): seq<Field> {
    if fields == [] then []
    else (if fields[0].name == RESERVED then [] else [fields[0]]) + Others(fields[1..])
  }

  lemma FieldSplits(f: Field, rest: bytes)
    requires rest == [] || rest[0] == AMPERSAND
    ensures var s := FieldText(f) + rest;
      Find(s, AMPERSAND) == |FieldText(f)| && s[..|FieldText(f)|] == FieldText(f) && s[|FieldText(f)|..] == rest
  {
    var t := FieldText(f);
    EncodedClean(f.name, AMPERSAND);
    EncodedClean(f.value, AMPERSAND);
    assert AMPERSAND !in t;
    FindIs(t + rest, AMPERSAND, |t|);
  }

  lemma FieldParts(f: Field)
    ensures NamePart(FieldText(f)) == Encode(f.name) && ValuePart(FieldText(f)) == Encode(f.value)
  {
    EncodedClean(f.name, EQUALS);
    FindIs(FieldText(f), EQUALS, |Encode(f.name)|);
  }

  lemma FieldDecodes(utf8: bytes -> bool, f: Field, limits: Limits)
    requires FieldOk(utf8, f, limits)
    ensures var t := FieldText(f);
      && Component(utf8, NamePart(t)) == Some(f.name)
      && Component(utf8, ValuePart(t)) == Some(f.value)
  {
    FieldParts(f);
    ComponentRoundTrip(f.name);
    ComponentRoundTrip(f.value);
  }

  /** The decoder's account of `fields` after what it already has. */
  function Expected(p: Progress, fields: seq<Field>): Decoded {
    Form(if p.event.Some? then p.event.value else EventOf(fields), p.entries + Others(fields))
  }

  lemma FirstStep(utf8: bytes -> bool, s: bytes, text: bytes, f: Field, p: Progress, limits: Limits, capacity: nat)
    requires 0 < |text| <= |s| && Find(s, AMPERSAND) == |text| && s[..|text|] == text && p.count < limits.maxCount
    requires Component(utf8, NamePart(text)) == Some(f.name) && f.name != [] && Component(utf8, ValuePart(text)) == Some(f.value)
    ensures FieldStep(utf8, s, p, limits, capacity) == Take(p.(count := p.count + 1), f, limits, capacity)
  {
  }

  /** The first field of a written rest, and what follows it. */
  lemma FirstField(utf8: bytes -> bool, f: Field, rest: bytes, p: Progress, limits: Limits, capacity: nat)
    requires FieldOk(utf8, f, limits) && p.count < limits.maxCount
    requires rest == [] || (rest[0] == AMPERSAND && 1 < |rest|)
    ensures var s := FieldText(f) + rest;
      && s != [] && Find(s, AMPERSAND) + 1 != |s| && Tail(s) == (if rest == [] then [] else rest[1..])
      && FieldStep(utf8, s, p, limits, capacity) == Take(p.(count := p.count + 1), f, limits, capacity)
  {
    var text := FieldText(f);
    var s := text + rest;
    assert |s| == |text| + |rest| && 0 < |text|;
    FieldSplits(f, rest);
    FieldDecodes(utf8, f, limits);
    FirstStep(utf8, s, text, f, p, limits, capacity);
    if rest != [] { assert s[|text| + 1..] == rest[1..]; }
  }

  /** One field off the front. */
  lemma FieldOff(utf8: bytes -> bool, f: Field, rest: bytes, p: Progress, limits: Limits, capacity: nat)
    requires FieldOk(utf8, f, limits) && p.count < limits.maxCount
    requires rest == [] || (rest[0] == AMPERSAND && 1 < |rest|)
    requires Take(p.(count := p.count + 1), f, limits, capacity).Took?
    ensures DecodeRest(utf8, FieldText(f) + rest, p, limits, capacity)
         == DecodeRest(utf8, if rest == [] then [] else rest[1..],
                       Take(p.(count := p.count + 1), f, limits, capacity).progress, limits, capacity)
  {
    FirstField(utf8, f, rest, p, limits, capacity);
  }

  lemma RestOf(fields: seq<Field>)
    requires fields != []
    ensures var rest := Rest(fields);
      && (rest == [] || (rest[0] == AMPERSAND && 1 < |rest|))
      && FormBody(fields[1..]) == if rest == [] then [] else rest[1..]
  {
    if 1 < |fields| {
      FormCons(fields[1..]);
    } else {
      assert fields[1..] == [];
    }
  }

  lemma ExpectedStep(p: Progress, fields: seq<Field>, limits: Limits, capacity: nat)
    requires fields != [] && Take(p.(count := p.count + 1), fields[0], limits, capacity).Took?
    ensures Expected(Take(p.(count := p.count + 1), fields[0], limits, capacity).progress, fields[1..]) == Expected(p, fields)
  {
    var f := fields[0];
    if f.name == RESERVED {
      assert [] + Others(fields[1..]) == Others(fields[1..]);
    } else {
      assert p.entries + [f] + Others(fields[1..]) == p.entries + ([f] + Others(fields[1..]));
    }
  }

  /** Fields the decoder will take after what it already has. */
  ghost predicate Acceptable(utf8: bytes -> bool, fields: seq<Field>, p: Progress, limits: Limits, capacity: nat) {
    && (forall i :: 0 <= i < |fields| ==> FieldOk(utf8, fields[i], limits))
    && OneEvent(fields) && p.count + |fields| <= limits.maxCount
    && (p.event.Some? ==> forall i :: 0 <= i < |fields| ==> fields[i].name != RESERVED)
    && |p.entries| + |Others(fields)| <= capacity
  }

  lemma AcceptableStep(utf8: bytes -> bool, fields: seq<Field>, p: Progress, limits: Limits, capacity: nat)
    requires Acceptable(utf8, fields, p, limits, capacity) && fields != []
    ensures var t := Take(p.(count := p.count + 1), fields[0], limits, capacity);
      FieldOk(utf8, fields[0], limits) && t.Took? && Acceptable(utf8, fields[1..], t.progress, limits, capacity)
  {
    assert FieldOk(utf8, fields[0], limits);
  }

  lemma {:induction false} DecodeFields(utf8: bytes -> bool, fields: seq<Field>, p: Progress, limits: Limits, capacity: nat)
    requires Acceptable(utf8, fields, p, limits, capacity)
    ensures DecodeRest(utf8, FormBody(fields), p, limits, capacity) == Expected(p, fields)
    decreases |fields|
  {
    if fields == [] {
      assert p.entries + [] == p.entries;
    } else {
      AcceptableStep(utf8, fields, p, limits, capacity);
      FormCons(fields);
      RestOf(fields);
      FieldOff(utf8, fields[0], Rest(fields), p, limits, capacity);
      ExpectedStep(p, fields, limits, capacity);
      DecodeFields(utf8, fields[1..], Take(p.(count := p.count + 1), fields[0], limits, capacity).progress, limits, capacity);
    }
  }

  /** Whatever request the encoder accepts, the decoder under the same limits returns its event
      (or the default) and its other entries in order. */
  lemma RoundTrip(utf8: bytes -> bool, r: Request, limits: Limits, capacity: nat, textCapacity: nat)
    requires Encodable(utf8, r, limits) && FormSize(Fields(r)) <= limits.maxBody
    requires |Others(Fields(r))| <= capacity && FormSize(Fields(r)) <= textCapacity
    ensures DecodeForm(utf8, FormBody(Fields(r)), limits, capacity, textCapacity)
         == Form(EventOf(Fields(r)), Others(Fields(r)))
  {
    var fields := Fields(r);
    FormBodySize(fields);
    DecodeFields(utf8, fields, Progress(0, [], None), limits, capacity);
    assert [] + Others(fields) == Others(fields);
  }

  /** In the request's own terms. */
  lemma {:induction false} OthersAre(fields: seq<Field>)
    requires forall i :: 0 <= i < |fields| ==> fields[i].name != RESERVED
    ensures Others(fields) == fields && EventOf(fields) == DEFAULT_EVENT
  {
    if fields != [] { OthersAre(fields[1..]); }
  }

  /** A request whose entries do not use the reserved name comes back exactly. */
  lemma PlainRoundTrip(utf8: bytes -> bool, r: Request, limits: Limits, textCapacity: nat)
    requires Encodable(utf8, r, limits) && FormSize(Fields(r)) <= limits.maxBody && FormSize(Fields(r)) <= textCapacity
    requires forall i :: 0 <= i < |r.entries| ==> r.entries[i].name != RESERVED
    ensures DecodeForm(utf8, FormBody(Fields(r)), limits, |r.entries|, textCapacity)
         == Form(if HasEvent(r) then r.event.value else DEFAULT_EVENT, EntryFields(r.entries))
  {
    var plain := EntryFields(r.entries);
    OthersAre(plain);
    if HasEvent(r) {
      assert Fields(r)[1..] == plain;
      assert [] + Others(plain) == plain;
    } else {
      assert Fields(r) == plain;
    }
    RoundTrip(utf8, r, limits, |r.entries|, textCapacity);
  }

  // ----- what decoding guarantees of any body ------------------------------

  function TextSize(fields: seq<Field>): nat {
    if fields == [] then 0
    else TextSize(fields[..|fields| - 1]) + |fields[|fields| - 1].name| + |fields[|fields| - 1].value|
  }

  predicate EntriesOk(utf8: bytes -> bool, fields: seq<Field>, limits: Limits) {
    forall i :: 0 <= i < |fields| ==> fields[i].name != RESERVED && FieldOk(utf8, fields[i], limits)
  }

  /** An event name the encoder would accept. */
  predicate EventOk(utf8: bytes -> bool, event: bytes, limits: Limits) { FieldOk(utf8, Field(RESERVED, event), limits) }

  /** What has been collected is what the encoder would accept. */
  predicate ProgressOk(utf8: bytes -> bool, p: Progress, limits: Limits, capacity: nat) {
    && EntriesOk(utf8, p.entries, limits) && |p.entries| <= capacity
    && (p.event.Some? ==> EventOk(utf8, p.event.value, limits))
    && |p.entries| + (if p.event.Some? then 1 else 0) == p.count <= limits.maxCount
  }

  lemma StepOk(utf8: bytes -> bool, s: bytes, p: Progress, limits: Limits, capacity: nat)
    requires s != [] && ProgressOk(utf8, p, limits, capacity) && FieldStep(utf8, s, p, limits, capacity).Took?
    ensures var q := FieldStep(utf8, s, p, limits, capacity).progress;
      ProgressOk(utf8, q, limits, capacity) && TextSize(q.entries) <= TextSize(p.entries) + Find(s, AMPERSAND)
  {
    var q := FieldStep(utf8, s, p, limits, capacity).progress;
    if q.event == p.event { assert q.entries[..|q.entries| - 1] == p.entries; }
  }

  /** Every accepted body yields fields the encoder would accept, whose text is no longer than the body. */
  lemma {:induction false} DecodedOk(utf8: bytes -> bool, s: bytes, p: Progress, limits: Limits, capacity: nat)
    requires ProgressOk(utf8, p, limits, capacity)
    ensures var d := DecodeRest(utf8, s, p, limits, capacity);
      d.Form? ==>
        && EntriesOk(utf8, d.entries, limits) && |d.entries| <= capacity && |d.entries| <= limits.maxCount
        && (d.event == DEFAULT_EVENT || (EventOk(utf8, d.event, limits) && |d.entries| < limits.maxCount))
        && TextSize(d.entries) <= TextSize(p.entries) + |s|
    decreases |s|
  {
    if s != [] {
      var t := FieldStep(utf8, s, p, limits, capacity);
      if t.Took? {
        StepOk(utf8, s, p, limits, capacity);
        DecodedOk(utf8, Tail(s), t.progress, limits, capacity);
      }
    }
  }

  /** The fields that say what a decoded form says; the default event needs none. */
  function Canonical(d: Decoded): seq<Field>
    requires d.Form?
  {
    (if d.event == DEFAULT_EVENT then [] else [Field(RESERVED, d.event)]) + d.entries
  }

  lemma CanonicalReads(d: Decoded)
    requires d.Form? && forall i :: 0 <= i < |d.entries| ==> d.entries[i].name != RESERVED
    ensures EventOf(Canonical(d)) == d.event && Others(Canonical(d)) == d.entries && OneEvent(Canonical(d))
  {
    OthersAre(d.entries);
    if d.event == DEFAULT_EVENT {
      assert Canonical(d) == d.entries;
    } else {
      assert Canonical(d)[1..] == d.entries && [] + d.entries == d.entries;
    }
  }

  /** Re-encoding what any accepted body said, event and entries, and decoding again gives the same. */
  lemma NormalForm(utf8: bytes -> bool, body: bytes, limits: Limits, capacity: nat, textCapacity: nat)
    requires DecodeForm(utf8, body, limits, capacity, textCapacity).Form?
    requires var fields := Canonical(DecodeForm(utf8, body, limits, capacity, textCapacity));
      FormSize(fields) <= limits.maxBody && FormSize(fields) <= textCapacity
    ensures var d := DecodeForm(utf8, body, limits, capacity, textCapacity);
      DecodeForm(utf8, FormBody(Canonical(d)), limits, capacity, textCapacity) == d
  {
    var none := Progress(0, [], None);
    DecodedOk(utf8, body, none, limits, capacity);
    var d := DecodeForm(utf8, body, limits, capacity, textCapacity);
    var fields := Canonical(d);
    CanonicalReads(d);
    FormBodySize(fields);
    DecodeFields(utf8, fields, none, limits, capacity);
    assert [] + d.entries == d.entries;
  }
}
