/**
 Which provider effects a transition asks for, and with which bindings it ends, read off
 the tree and the evaluator alone: no history, no journal, no adapter. Runs of the
 structural interpreter ask for exactly these.
 */
module CcxmlEffects {
  import opened CcxmlTree
  import opened CcxmlMachine
  import opened CcxmlLedger
  import opened CcxmlSession
  import opened CcxmlTransaction

  // ----- one leaf ----------------------------------------------------------

  /** An adapter that accepts a request, with a way to commit and a way to discard it. */
  predicate Takes(w: World, log: seq<Entry>, q: Request) {
    w.prepare(log, q).Accepted? && w.prepare(log, q).hasCommit && w.prepare(log, q).hasDiscard
  }

  /** What a request that is not taken reports. */
  function Objection(w: World, log: seq<Entry>, q: Request): Status {
    if w.prepare(log, q).Refused? then AdapterError else InvalidContract
  }

  /** A plain action asks for one effect, with its text and no identifier, and keeps its ticket; it fails
      exactly when the text cannot be built or the adapter does not take the request. */
  lemma PlainLeaf(w: World, op: string, r: Run)
    ensures var res, text := ExecLeaf(w, Unbounded, Plain(op), r), w.build(op, r.scope);
      if text.Fault? then res.Failed? && res.error == text.error && res.run.log == r.log + DiscardAll(r.journal)
      else
        var q := Provide(op, text.value, 0, Nowhere);
        var t := Ticket(|r.log|, q);
        && (res.Normal? <==> Takes(w, r.log, q)) && (res.Normal? || res.Failed?)
        && (res.Normal? ==> res.run == r.(log := r.log + [Prepared(t)], journal := r.journal + [t]))
        && (res.Failed? ==> res.error == Objection(w, r.log, q))
  {
  }

  /** The effect a generating action asks for, and the write of its identifier. */
  datatype Pair = Pair(effect: Ticket, write: Ticket)

  function PairOf(w: World, op: string, location: string, source: IdSource, text: string, r: Run): Pair {
    var token := if source.Provider? then 0 else r.token;
    var q := Provide(op, text, token, Into(location));
    var reply := w.prepare(r.log, q);
    var id := if source.SessionToken? then SendId(token)
              else Named(if reply.Accepted? then reply.generated else "");
    Pair(Ticket(|r.log|, q), Ticket(|r.log| + 1, Write(location, id)))
  }

  /** A provider's identifier is usable if it is some text without NUL. */
  predicate Usable(text: string) { 0 < |text| && forall i :: 0 <= i < |text| ==> text[i] != '\0' }

  /** Everything a generating action needs is granted: an unused token or a usable identifier, and both requests. */
  predicate Granted(w: World, source: IdSource, p: Pair, r: Run) {
    && (source.SessionToken? ==> r.token != 0)
    && Takes(w, r.log, p.effect.request)
    && (source.Provider? ==> Usable(w.prepare(r.log, p.effect.request).generated))
    && Takes(w, r.log + [Prepared(p.effect)], p.write.request)
  }

  /** A generating action asks for its effect and then for the write of the effect's identifier, and keeps
      both with the write in front; only an effect under the session's own identifier uses up a token. It
      fails exactly when the text cannot be built or something it needs is not granted. */
  lemma GeneratingLeaf(w: World, op: string, location: string, source: IdSource, r: Run)
    ensures var res, text := ExecLeaf(w, Unbounded, Generating(op, location, source), r), w.build(op, r.scope);
      if text.Fault? then res.Failed? && res.error == text.error && res.run.log == r.log + DiscardAll(r.journal)
      else
        var p := PairOf(w, op, location, source, text.value, r);
        && (res.Normal? <==> Granted(w, source, p, r)) && (res.Normal? || res.Failed?)
        && (res.Normal? ==>
              res.run == r.(log := r.log + [Prepared(p.effect), Prepared(p.write)],
                            journal := r.journal + [p.write, p.effect],
                            token := if source.SessionToken? then Later(r.token, 1) else r.token))
        && (res.Failed? ==> res.error == Complaint(w, source, p, r))
  {
    var text := w.build(op, r.scope);
    if text.Value? {
      var p := PairOf(w, op, location, source, text.value, r);
      assert r.log + [Prepared(p.effect)] + [Prepared(p.write)] == r.log + [Prepared(p.effect), Prepared(p.write)];
      var j := r.journal + [p.effect] + [p.write];
      assert j[..|j| - 2] == r.journal;
      assert SwapLast(j) == r.journal + [p.write, p.effect];
    }
  }

  /** The first thing not granted decides what is reported. */
  function Complaint(w: World, source: IdSource, p: Pair, r: Run): Status {
    if source.SessionToken? && r.token == 0 then LimitExceeded
    else if !Takes(w, r.log, p.effect.request) then Objection(w, r.log, p.effect.request)
    else if source.Provider? && !Usable(w.prepare(r.log, p.effect.request).generated) then InvalidContract
    else Objection(w, r.log + [Prepared(p.effect)], p.write.request)
  }

  /** The send counter after `n` more tokens; once past the last 64-bit number it is 0 for good. */
  function Later(token: nat, n: nat): nat {
    if token == 0 || 0xFFFF_FFFF_FFFF_FFFF < token + n then 0 else token + n
  }

  // ----- the leaves control meets ------------------------------------------

  /** An action other than exit, and the bindings visible when control meets it. */
  datatype Visit = Visit(action: LeafAction, scope: Scope)

  /** Control goes on, leaves the transition by an exit, or stops on what the evaluator reported. */
  datatype Way = On | Out | Stopped(error: Error)

  datatype Walk = Walk(met: seq<Visit>, scope: Scope, way: Way)
  {
    function Since(before: seq<Visit>): Walk { this.(met := before + met) }
  }

  /** The children of an if that run: those after the first marker whose condition holds, if any. */
  function Branch(w: World, cond: string, kids: Nodes, scope: Scope): (body: Answer<Nodes>)
    ensures body.Value? ==> SizeAll(body.value) <= SizeAll(kids)
    decreases SizeAll(kids), 1
  {
    match w.cond(cond, scope)
    case Fault(e) => Fault(e)
    case Value(holds) => if holds then Value(kids) else Otherwise(w, kids, scope)
  }

  function Otherwise(w: World, kids: Nodes, scope: Scope): (body: Answer<Nodes>)
    ensures body.Value? ==> SizeAll(body.value) <= SizeAll(kids)
    decreases SizeAll(kids), 0
  {
    if kids.Nil? || kids.head.Else? then Value(if kids.Nil? then Nil else kids.tail)
    else if kids.head.ElseIf? then Branch(w, kids.head.cond, kids.tail, scope)
    else Otherwise(w, kids.tail, scope)
  }

  function WalkNode(w: World, most: nat, n: Node, scope: Scope): Walk
    decreases Size(n), 0, 0
  {
    match n
    case Leaf(a, _) => if a.Exit? then Walk([], scope, Out) else Walk([Visit(a, scope)], scope, On)
    case If(c, _, kids) =>
      (match Branch(w, c, kids, scope)
       case Fault(e) => Walk([], scope, Stopped(e))
       case Value(body) => WalkAll(w, most, body, scope))
    case Foreach(l, _, kids) =>
      var elements := w.open(l, scope);
      if elements.Fault? then Walk([], scope, Stopped(elements.error))
      else if most < |elements.value| then Walk([], scope, Stopped(LimitExceeded))
      else if w.init(l).Fault? then Walk([], scope, Stopped(w.init(l).error))
      else WalkLoop(w, most, l, elements.value, 0, kids, scope)
    case _ => Walk([], scope, On)
  }

  function WalkAll(w: World, most: nat, kids: Nodes, scope: Scope): Walk
    decreases SizeAll(kids), 0, 1
  {
    if kids.Nil? || kids.head.Marker() then Walk([], scope, On)
    else
      var k := WalkNode(w, most, kids.head, scope);
      if k.way.On? then WalkAll(w, most, kids.tail, k.scope).Since(k.met) else k
  }

  /** The turns of a loop from element `i` on. */
  function WalkLoop(w: World, most: nat, loop: string, elements: seq<int>, i: nat, kids: Nodes, scope: Scope): Walk
    requires i <= |elements|
    decreases SizeAll(kids), 1, |elements| - i
  {
    if i == |elements| then Walk([], scope, On)
    else
      var (bound, answer) := w.bind(loop, elements, i, scope);
      if answer.Fault? then Walk([], bound, Stopped(answer.error))
      else
        var k := WalkAll(w, most, kids, bound);
        if k.way.On? then WalkLoop(w, most, loop, elements, i + 1, kids, k.scope).Since(k.met) else k
  }

  // ----- what they ask for -------------------------------------------------

  predicate Draws(v: Visit) { v.action.Generating? && v.action.source.SessionToken? }

  /** How many of the visits take a token from the session. */
  function Drawn(met: seq<Visit>): nat {
    if met == [] then 0 else (if Draws(met[0]) then 1 else 0) + Drawn(met[1..])
  }

  /** The effect one visit asks for: none if its text cannot be built or it finds no token left. */
  function Ask(w: World, token: nat, v: Visit): seq<Request> {
    match v.action
    case Exit => []
    case Plain(op) =>
      var text := w.build(op, v.scope);
      if text.Fault? then [] else [Provide(op, text.value, 0, Nowhere)]
    case Generating(op, location, source) =>
      var text := w.build(op, v.scope);
      if text.Fault? || (source.SessionToken? && token == 0) then []
      else [Provide(op, text.value, if source.SessionToken? then token else 0, Into(location))]
  }

  /** The effects the visits ask for, in order, up to the first that can ask for none. */
  function Asks(w: World, token: nat, met: seq<Visit>): seq<Request>
    decreases |met|
  {
    if met == [] || Ask(w, token, met[0]) == [] then []
    else Ask(w, token, met[0]) + Asks(w, if Draws(met[0]) then Later(token, 1) else token, met[1..])
  }

  /** The effects among the tickets a stretch of history accepts, or commits. */
  function EffectsIn(entries: seq<Entry>, committed: bool): seq<Request> {
    if entries == [] then []
    else EffectsIn(entries[..|entries| - 1], committed) + EffectOf(entries[|entries| - 1], committed)
  }

  function EffectOf(e: Entry, committed: bool): seq<Request> {
    if (if committed then e.Committed? else e.Prepared?) && e.ticket.request.Provide? then [e.ticket.request] else []
  }

  // ----- runs and walks agree ----------------------------------------------

  /** Since history `from` the run asked for the effects `asks`: all if it did not fail, a first part if it did. */
  ghost predicate Shows(from: seq<Entry>, res: Result, asks: seq<Request>) {
    && from <= res.run.log
    && var shown := EffectsIn(res.run.log[|from|..], false); if res.Failed? then shown <= asks else shown == asks
  }

  /** From `r` the run asked for what the walk meets and ended as the walk does. */
  ghost predicate Follows(w: World, r: Run, res: Result, k: Walk) {
    && Shows(r.log, res, Asks(w, r.token, k.met))
    && (!res.Failed? ==>
          && |Asks(w, r.token, k.met)| == |k.met|
          && res.run.token == Later(r.token, Drawn(k.met)) && res.run.scope == k.scope
          && (if res.Exited? then k.way.Out? else k.way.On?))
  }

  /** Send counters are 64-bit numbers. */
  predicate Counts(r: Run) { r.token <= TOKEN_MAX }

  lemma EffectsSnoc(entries: seq<Entry>, e: Entry, committed: bool)
    ensures EffectsIn(entries + [e], committed) == EffectsIn(entries, committed) + EffectOf(e, committed)
  {
    assert (entries + [e])[..|entries|] == entries;
  }

  lemma {:induction false} EffectsConcat(a: seq<Entry>, b: seq<Entry>, committed: bool)
    ensures EffectsIn(a + b, committed) == EffectsIn(a, committed) + EffectsIn(b, committed)
  {
    if b == [] {
      assert a + b == a;
    } else {
      var n := |b| - 1;
      EffectsConcat(a, b[..n], committed);
      assert (a + b)[..|a + b| - 1] == a + b[..n];
    }
  }

  lemma {:induction false} DiscardsShowNone(journal: seq<Ticket>, committed: bool)
    ensures EffectsIn(DiscardAll(journal), committed) == []
  {
    if journal != [] {
      var n := |journal| - 1;
      DiscardsShowNone(journal[..n], committed);
      EffectsConcat([Discarded(journal[n])], DiscardAll(journal[..n]), committed);
    }
  }

  lemma {:induction false} DrawnConcat(a: seq<Visit>, b: seq<Visit>)
    ensures Drawn(a + b) == Drawn(a) + Drawn(b)
  {
    if a == [] {
      assert a + b == b;
    } else {
      assert (a + b)[1..] == a[1..] + b;
      DrawnConcat(a[1..], b);
    }
  }

  lemma OneAskAtMost(w: World, token: nat, v: Visit)
    ensures |Ask(w, token, v)| <= 1 && (Ask(w, token, v) != [] && Draws(v) ==> token != 0)
  {
  }

  lemma {:induction false} AsksPrefix(w: World, token: nat, a: seq<Visit>, b: seq<Visit>)
    ensures Asks(w, token, a) <= Asks(w, token, a + b)
    decreases |a|
  {
    if a != [] {
      assert (a + b)[0] == a[0] && (a + b)[1..] == a[1..] + b;
      AsksPrefix(w, if Draws(a[0]) then Later(token, 1) else token, a[1..], b);
    }
  }

  lemma {:induction false} AsksAtMost(w: World, token: nat, met: seq<Visit>)
    ensures |Asks(w, token, met)| <= |met|
    decreases |met|
  {
    if met != [] {
      OneAskAtMost(w, token, met[0]);
      AsksAtMost(w, if Draws(met[0]) then Later(token, 1) else token, met[1..]);
    }
  }

  lemma AsksStep(w: World, token: nat, v: Visit, rest: seq<Visit>, next: nat)
    requires next == if Draws(v) then Later(token, 1) else token
    ensures Asks(w, token, [v] + rest)
         == if Ask(w, token, v) == [] then [] else Ask(w, token, v) + Asks(w, next, rest)
  {
    assert ([v] + rest)[1..] == rest;
  }

  lemma {:induction false} AsksConcat(w: World, token: nat, a: seq<Visit>, b: seq<Visit>)
    requires token <= TOKEN_MAX && |Asks(w, token, a)| == |a|
    ensures Asks(w, token, a + b) == Asks(w, token, a) + Asks(w, Later(token, Drawn(a)), b)
    decreases |a|
  {
    if a == [] {
      assert a + b == b && Later(token, 0) == token;
    } else {
      var v, rest := a[0], a[1..];
      var next := if Draws(v) then Later(token, 1) else token;
      assert a == [v] + rest && a + b == [v] + (rest + b);
      AsksStep(w, token, v, rest, next);
      AsksStep(w, token, v, rest + b, next);
      var x, first := Ask(w, token, v), Asks(w, next, rest);
      assert |first| == |rest| && Asks(w, token, a) == x + first && x != [] by {
        OneAskAtMost(w, token, v);
        AsksAtMost(w, next, rest);
      }
      var second := Asks(w, Later(next, Drawn(rest)), b);
      assert Asks(w, next, rest + b) == first + second by { AsksConcat(w, next, rest, b); }
      assert Later(token, Drawn(a)) == Later(next, Drawn(rest)) by {
        LaterAdds(token, if Draws(v) then 1 else 0, Drawn(rest));
      }
      Regroup(x, first, second);
    }
  }

  lemma Regroup(x: seq<Request>, y: seq<Request>, z: seq<Request>)
    ensures x + (y + z) == (x + y) + z
  {
  }

  lemma LaterAdds(token: nat, m: nat, n: nat)
    requires token <= TOKEN_MAX
    ensures Later(Later(token, m), n) == Later(token, m + n) && Later(token, 0) == token
  {
  }

  /** A failure adds nothing but what stood beside the gathered tickets. */
  lemma FailShows(from: seq<Entry>, r: Run, before: seq<Entry>, extra: seq<Entry>, e: Error, asks: seq<Request>)
    requires r.log == from + before && EffectsIn(before + extra, false) <= asks
    ensures Shows(from, Fail(r.(log := r.log + extra), e), asks)
  {
    var mid, end := before + extra, DiscardAll(r.journal);
    EffectsConcat(mid, end, false);
    DiscardsShowNone(r.journal, false);
    assert EffectsIn(mid + end, false) == EffectsIn(mid, false);
    Suffix(from, before, extra, end);
  }

  lemma Suffix(from: seq<Entry>, before: seq<Entry>, extra: seq<Entry>, end: seq<Entry>)
    ensures var log := from + before + extra + end; from <= log && log[|from|..] == before + extra + end
  {
  }

  /** A failure where nothing has been asked for. */
  lemma QuietHere(w: World, r: Run, e: Error, k: Walk)
    ensures Follows(w, r, Fail(r, e), k)
  {
    assert r.log + [] == r.log;
    FailShows(r.log, r, [], [], e, Asks(w, r.token, k.met));
  }

  /** Two stretches of history show what each shows. */
  lemma ShowsBoth(from: seq<Entry>, first: Result, a: seq<Request>, res: Result, b: seq<Request>)
    requires first.Normal? && Shows(from, first, a) && Shows(first.run.log, res, b)
    ensures Shows(from, res, a + b)
  {
    var log, middle := res.run.log, first.run.log;
    assert log[|from|..] == middle[|from|..] + log[|middle|..];
    EffectsConcat(middle[|from|..], log[|middle|..], false);
  }

  /** A run that goes on after `first` and follows `k2` there follows both. */
  lemma Onward(w: World, r: Run, first: Result, k1: Walk, res: Result, k2: Walk)
    requires Counts(r) && first.Normal? && Follows(w, r, first, k1) && Follows(w, first.run, res, k2)
    ensures Follows(w, r, res, k2.Since(k1.met)) && Counts(first.run)
  {
    ShowsBoth(r.log, first, Asks(w, r.token, k1.met), res, Asks(w, first.run.token, k2.met));
    AsksConcat(w, r.token, k1.met, k2.met);
    DrawnConcat(k1.met, k2.met);
    LaterAdds(r.token, Drawn(k1.met), Drawn(k2.met));
  }

  /** What only a first part was asked of may go on. */
  lemma Further(w: World, r: Run, first: Result, k1: Walk, k2: Walk)
    requires first.Failed? && Follows(w, r, first, k1)
    ensures Follows(w, r, first, k2.Since(k1.met))
  {
    AsksPrefix(w, r.token, k1.met, k2.met);
  }

  // ----- every tree follows its walk ---------------------------------------

  lemma OneAsk(w: World, token: nat, v: Visit)
    ensures Asks(w, token, [v]) == Ask(w, token, v) && Drawn([v]) == if Draws(v) then 1 else 0
  {
    assert [v][1..] == [];
    OneAskAtMost(w, token, v);
  }

  /** Asking for one request after `before`, in vain. */
  lemma RefusalShows(w: World, from: seq<Entry>, r: Run, before: seq<Entry>, q: Request, asks: seq<Request>)
    requires r.log == from + before && Retain(w, Unbounded, r, q).Failed?
    requires EffectsIn(before, false) + (if q.Provide? then [q] else []) <= asks
    ensures Shows(from, Retain(w, Unbounded, r, q), asks)
  {
    var t := Ticket(|r.log|, q);
    var accepted := before + [Prepared(t)];
    match w.prepare(r.log, q)
    case Refused =>
      EffectsSnoc(before, Declined(q), false);
      FailShows(from, r, before, [Declined(q)], AdapterError, asks);
    case Accepted(_, hasDiscard, _) =>
      if !hasDiscard {
        EffectsSnoc(before, Broken(t), false);
        FailShows(from, r, before, [Broken(t)], InvalidContract, asks);
      } else {
        EffectsSnoc(before, Prepared(t), false);
        EffectsSnoc(accepted, Discarded(t), false);
        assert accepted + [Discarded(t)] == before + [Prepared(t), Discarded(t)];
        FailShows(from, r, before, [Prepared(t), Discarded(t)], InvalidContract, asks);
      }
  }

  /** Asking for one request after `before`. */
  lemma RetainShows(w: World, from: seq<Entry>, r: Run, before: seq<Entry>, q: Request, asks: seq<Request>)
    requires r.log == from + before
    requires EffectsIn(before, false) + (if q.Provide? then [q] else []) <= asks
    ensures var res, after := Retain(w, Unbounded, r, q), before + [Prepared(Ticket(|r.log|, q))];
      && (res.Failed? ==> Shows(from, res, asks))
      && (res.Normal? ==> res.run.log == from + after
                          && EffectsIn(after, false) == EffectsIn(before, false) + if q.Provide? then [q] else [])
  {
    EffectsSnoc(before, Prepared(Ticket(|r.log|, q)), false);
    if Retain(w, Unbounded, r, q).Failed? { RefusalShows(w, from, r, before, q, asks); }
  }

  /** One effect and nothing else. */
  lemma EffectShows(w: World, r: Run, q: Request)
    requires q.Provide?
    ensures Shows(r.log, Retain(w, Unbounded, r, q), [q])
  {
    assert r.log == r.log + [] && [] + [q] == [q];
    RetainShows(w, r.log, r, [], q, [q]);
    var res, t := Retain(w, Unbounded, r, q), Ticket(|r.log|, q);
    if res.Normal? { assert res.run.log[|r.log|..] == [] + [Prepared(t)]; }
  }

  lemma PlainFollows(w: World, op: string, r: Run)
    requires Counts(r)
    ensures Follows(w, r, ExecLeaf(w, Unbounded, Plain(op), r), Walk([Visit(Plain(op), r.scope)], r.scope, On))
  {
    var v, text := Visit(Plain(op), r.scope), w.build(op, r.scope);
    OneAsk(w, r.token, v);
    if text.Fault? {
      QuietHere(w, r, text.error, Walk([v], r.scope, On));
    } else {
      EffectShows(w, r, Provide(op, text.value, 0, Nowhere));
    }
  }

  lemma PairShows(w: World, r: Run, op: string, text: string, token: nat, location: string)
    ensures Shows(r.log, ExecPair(w, Unbounded, r, op, text, token, location), [Provide(op, text, token, Into(location))])
  {
    var q := Provide(op, text, token, Into(location));
    assert r.log == r.log + [];
    RetainShows(w, r.log, r, [], q, [q]);
    var first := Retain(w, Unbounded, r, q);
    if first.Normal? {
      WriteShows(w, r, q, first.run);
    }
  }

  /** After the effect: its identifier is unusable, or its write is asked for too. */
  lemma WriteShows(w: World, r: Run, q: Request, r1: Run)
    requires q.Provide? && q.place.Into? && Retain(w, Unbounded, r, q) == Normal(r1)
    ensures Shows(r.log, ExecPair(w, Unbounded, r, q.op, q.text, q.token, q.place.location), [q])
  {
    var before := [Prepared(Ticket(|r.log|, q))];
    var generated := w.prepare(r.log, q).generated;
    EffectsSnoc([], before[0], false);
    assert r1.log == r.log + before && [] + before == before;
    if q.token == 0 && !ValidText(generated) {
      assert before + [] == before && r1.log + [] == r1.log;
      FailShows(r.log, r1, before, [], InvalidContract, [q]);
    } else {
      var q2 := Write(q.place.location, if q.token == 0 then Named(generated) else SendId(q.token));
      RetainShows(w, r.log, r1, before, q2, [q]);
      var second := Retain(w, Unbounded, r1, q2);
      if second.Normal? {
        assert second.run.log[|r.log|..] == before + [Prepared(Ticket(|r1.log|, q2))];
      }
    }
  }

  lemma PairKeepsRest(w: World, r: Run, op: string, text: string, token: nat, location: string)
    ensures var res := ExecPair(w, Unbounded, r, op, text, token, location);
      !res.Exited? && (res.Normal? ==> res.run.token == r.token && res.run.scope == r.scope)
  {
  }

  lemma GeneratingFollows(w: World, op: string, location: string, source: IdSource, r: Run)
    requires Counts(r)
    ensures var a := Generating(op, location, source);
      Follows(w, r, ExecLeaf(w, Unbounded, a, r), Walk([Visit(a, r.scope)], r.scope, On))
  {
    var v, text := Visit(Generating(op, location, source), r.scope), w.build(op, r.scope);
    var k := Walk([v], r.scope, On);
    OneAsk(w, r.token, v);
    if text.Fault? {
      QuietHere(w, r, text.error, k);
    } else if source.SessionToken? && r.token == 0 {
      QuietHere(w, r, LimitExceeded, k);
    } else {
      var token := if source.Provider? then 0 else r.token;
      var r1 := if source.Provider? then r else r.(token := NextToken(r.token));
      PairShows(w, r1, op, text.value, token, location);
      PairKeepsRest(w, r1, op, text.value, token, location);
    }
  }

  lemma LeafFollows(w: World, most: nat, n: Node, r: Run)
    requires n.Leaf? && Counts(r)
    ensures Follows(w, r, ExecLeaf(w, Unbounded, n.action, r), WalkNode(w, most, n, r.scope))
  {
    match n.action
    case Exit => assert r.log[|r.log|..] == [];
    case Plain(op) => PlainFollows(w, op, r);
    case Generating(op, location, source) => GeneratingFollows(w, op, location, source, r);
  }

  lemma Stays(w: World, r: Run, r1: Run)
    requires r.log <= r1.log && EffectsIn(r1.log[|r.log|..], false) == [] && r1.scope == r.scope && r1.token == r.token
    requires Counts(r)
    ensures Follows(w, r, Normal(r1), Walk([], r.scope, On))
  {
  }

  /** Copying scopes asks for nothing. */
  lemma BeginStays(w: World, r: Run)
    requires Counts(r)
    ensures Follows(w, r, Normal(BeginBlock(w, r).1), Walk([], r.scope, On))
  {
    var first := Copied(w.copies(r.log));
    var r1 := BeginBlock(w, r).1;
    EffectsSnoc([], first, false);
    assert [] + [first] == [first] && (r.log + [first])[|r.log|..] == [first];
    if !r.staged && w.copies(r.log) {
      var second := Copied(w.copies(r.log + [first]));
      EffectsSnoc([first], second, false);
      assert r1.log[|r.log|..] == [first] + [second];
    }
    Stays(w, r, r1);
  }

  /** A failure after scopes were copied. */
  lemma FailsQuietly(w: World, r: Run, r1: Run, e: Error, k: Walk)
    requires Counts(r) && Follows(w, r, Normal(r1), Walk([], r.scope, On))
    ensures Follows(w, r, Fail(r1, e), k)
  {
    var extra := r1.log[|r.log|..];
    assert r1.log == r.log + extra && r1.log + [] == r1.log && extra + [] == extra;
    FailShows(r.log, r1, extra, [], e, Asks(w, r.token, k.met));
  }

  lemma {:induction false} NodeFollows(w: World, most: nat, n: Node, r: Run)
    requires Counts(r)
    ensures Follows(w, r, ExecNode(w, most, n, r), WalkNode(w, most, n, r.scope))
    decreases Size(n), 0, 1
  {
    assert r.log[|r.log|..] == [];
    match n
    case Leaf(_, _) => LeafFollows(w, most, n, r);
    case If(c, _, kids) =>
      var body := Branch(w, c, kids, r.scope);
      BranchRuns(w, most, c, kids, r);
      if body.Value? { AllFollows(w, most, body.value, r); } else { QuietHere(w, r, body.error, WalkNode(w, most, n, r.scope)); }
    case Foreach(l, _, kids) => LoopBegins(w, most, n, r);
    case _ =>
  }

  /** The interpreter runs the branch that is taken. */
  lemma {:induction false} BranchRuns(w: World, most: nat, cond: string, kids: Nodes, r: Run)
    ensures var body := Branch(w, cond, kids, r.scope);
      ExecIf(w, most, cond, kids, r)
      == if body.Fault? then Fail(r, body.error) else ExecRun(w, most, body.value, r)
    decreases SizeAll(kids), 1
  {
    OtherwiseRuns(w, most, kids, r);
  }

  lemma {:induction false} OtherwiseRuns(w: World, most: nat, kids: Nodes, r: Run)
    ensures var body := Otherwise(w, kids, r.scope);
      ExecElse(w, most, kids, r)
      == if body.Fault? then Fail(r, body.error) else ExecRun(w, most, body.value, r)
    decreases SizeAll(kids), 0
  {
    match kids
    case Nil =>
    case Cons(ElseIf(c, _), tail) => BranchRuns(w, most, c, tail, r);
    case Cons(Else, tail) =>
    case Cons(_, tail) => OtherwiseRuns(w, most, tail, r);
  }

  lemma {:induction false} LoopBegins(w: World, most: nat, n: Node, r: Run)
    requires n.Foreach? && Counts(r)
    ensures Follows(w, r, ExecNode(w, most, n, r), WalkNode(w, most, n, r.scope))
    decreases Size(n), 0, 0
  {
    var (begun, r1) := BeginBlock(w, r);
    var k := WalkNode(w, most, n, r.scope);
    BeginStays(w, r);
    if begun {
      LoopOpens(w, most, n, r, r1);
    } else {
      FailsQuietly(w, r, r1, InvalidContract, k);
    }
  }

  lemma {:induction false} LoopOpens(w: World, most: nat, n: Node, r: Run, r1: Run)
    requires n.Foreach? && Counts(r) && BeginBlock(w, r) == (true, r1)
    requires Follows(w, r, Normal(r1), Walk([], r.scope, On))
    ensures Follows(w, r, ExecNode(w, most, n, r), WalkNode(w, most, n, r.scope))
    decreases SizeAll(n.kids), 2
  {
    var k := WalkNode(w, most, n, r.scope);
    var elements, init := w.open(n.loop, r.scope), w.init(n.loop);
    if elements.Fault? {
      FailsQuietly(w, r, r1, elements.error, k);
    } else if most < |elements.value| {
      FailsQuietly(w, r, r1, LimitExceeded, k);
    } else if init.Fault? {
      FailsQuietly(w, r, r1, init.error, k);
    } else {
      var res := Iterations(w, most, n.loop, elements.value, 0, n.kids, r1);
      TurnsFollow(w, most, n.loop, elements.value, 0, n.kids, r1);
      Onward(w, r, Normal(r1), Walk([], r.scope, On), res, k);
      assert [] + k.met == k.met;
    }
  }

  lemma {:induction false} AllFollows(w: World, most: nat, kids: Nodes, r: Run)
    requires Counts(r)
    ensures Follows(w, r, ExecRun(w, most, kids, r), WalkAll(w, most, kids, r.scope))
    decreases SizeAll(kids), 0, 2
  {
    assert r.log[|r.log|..] == [];
    if kids.Cons? && !kids.head.Marker() {
      NodeFollows(w, most, kids.head, r);
      var first, k := ExecNode(w, most, kids.head, r), WalkNode(w, most, kids.head, r.scope);
      if first.Normal? {
        TurnFollows(w, r, first, k);
        AllFollows(w, most, kids.tail, first.run);
        Onward(w, r, first, k, ExecRun(w, most, kids, r), WalkAll(w, most, kids.tail, k.scope));
      } else if first.Failed? && k.way.On? {
        Further(w, r, first, k, WalkAll(w, most, kids.tail, k.scope));
      }
    }
  }

  lemma {:induction false} TurnsFollow(
    w: World, most: nat, loop: string, elements: seq<int>, i: nat, kids: Nodes, r: Run)
    requires i <= |elements| && Counts(r)
    ensures Follows(w, r, Iterations(w, most, loop, elements, i, kids, r),
                    WalkLoop(w, most, loop, elements, i, kids, r.scope))
    decreases SizeAll(kids), 1, |elements| - i
  {
    assert r.log[|r.log|..] == [];
    if i < |elements| {
      var (bound, answer) := w.bind(loop, elements, i, r.scope);
      var r1 := r.(scope := bound);
      if answer.Fault? {
        QuietHere(w, r1, answer.error, WalkLoop(w, most, loop, elements, i, kids, r.scope));
      } else {
        AllFollows(w, most, kids, r1);
        var first, k := ExecRun(w, most, kids, r1), WalkAll(w, most, kids, bound);
        var rest := WalkLoop(w, most, loop, elements, i + 1, kids, k.scope);
        if first.Normal? {
          TurnFollows(w, r1, first, k);
          TurnsFollow(w, most, loop, elements, i + 1, kids, first.run);
          Onward(w, r1, first, k, Iterations(w, most, loop, elements, i, kids, r), rest);
        } else if first.Failed? && k.way.On? {
          Further(w, r1, first, k, rest);
        }
      }
    }
  }

  lemma TurnFollows(w: World, r: Run, first: Result, k: Walk)
    requires Counts(r) && first.Normal? && Follows(w, r, first, k)
    ensures Counts(first.run)
  {
  }

  // ----- what a dispatch performs ------------------------------------------

  /** The effects among the tickets of a journal. */
  function Carried(journal: seq<Ticket>): seq<Request> {
    if journal == [] then []
    else Carried(journal[..|journal| - 1])
         + if journal[|journal| - 1].request.Provide? then [journal[|journal| - 1].request] else []
  }

  lemma CarriedSnoc(journal: seq<Ticket>, t: Ticket)
    ensures Carried(journal + [t]) == Carried(journal) + if t.request.Provide? then [t.request] else []
  {
    assert (journal + [t])[..|journal|] == journal;
  }

  /** Moving a write in front of an effect leaves the effects as they are. */
  lemma {:induction false} CarriedReplay(entries: seq<Entry>)
    ensures Carried(Replay(entries)) == EffectsIn(entries, false)
  {
    if entries != [] {
      var n := |entries| - 1;
      var j, e := Replay(entries[..n]), entries[n];
      CarriedReplay(entries[..n]);
      if e.Prepared? {
        CarriedSnoc(j, e.ticket);
        if e.ticket.request.Write? && j != [] {
          var front, last := j[..|j| - 1], j[|j| - 1];
          CarriedSnoc(front, e.ticket);
          CarriedSnoc(front + [e.ticket], last);
          CarriedSnoc(front, last);
          assert j == front + [last] && front + [e.ticket, last] == front + [e.ticket] + [last];
        }
      }
    }
  }

  lemma {:induction false} CommitsShow(journal: seq<Ticket>)
    ensures EffectsIn(CommitAll(journal), true) == Carried(journal) && EffectsIn(CommitAll(journal), false) == []
  {
    if journal != [] {
      var n := |journal| - 1;
      CommitsShow(journal[..n]);
      EffectsSnoc(CommitAll(journal[..n]), Committed(journal[n]), true);
      EffectsSnoc(CommitAll(journal[..n]), Committed(journal[n]), false);
    }
  }

  lemma {:induction false} NoneCommitted(entries: seq<Entry>)
    requires forall i :: 0 <= i < |entries| ==> !entries[i].Committed?
    ensures EffectsIn(entries, true) == []
  {
    if entries != [] { NoneCommitted(entries[..|entries| - 1]); }
  }

  /** What follows a gathering is its end: commits show its effects again, discards show none. */
  lemma EndShows(from: seq<Entry>, mid: seq<Entry>, tail: seq<Entry>)
    requires Gathers(from, mid)
    requires var journal := Replay(mid[|from|..]); tail == CommitAll(journal) || tail == DiscardAll(journal)
    ensures var since := (mid + tail)[|from|..]; var effects := EffectsIn(mid[|from|..], false);
      && EffectsIn(since, false) == effects
      && (tail == CommitAll(Replay(mid[|from|..])) ==> EffectsIn(since, true) == effects)
      && (tail == DiscardAll(Replay(mid[|from|..])) ==> EffectsIn(since, true) == [])
  {
    var head := mid[|from|..];
    assert (mid + tail)[|from|..] == head + tail;
    forall i | 0 <= i < |head| ensures !head[i].Committed? { assert head[i] == mid[|from| + i]; }
    NoneCommitted(head);
    CarriedReplay(head);
    CommitsShow(Replay(head));
    DiscardsShowNone(Replay(head), false);
    DiscardsShowNone(Replay(head), true);
    EffectsConcat(head, tail, false);
    EffectsConcat(head, tail, true);
  }

  /** What a dispatch has to show for a walk of its transition. One that answers OK asked for exactly what the
      walk meets, drew its tokens and left as it does. If it is kept, these effects, in this order, are what it
      commits, and the bindings the walk ends with are committed. Any other dispatch asked at most for a first
      part of them, commits nothing and leaves the committed bindings alone. */
  ghost predicate Performs(w: World, k: Walk, s: Store, s': Store, status: Status, exit: bool, kept: bool) {
    s.log <= s'.log
    && var since, asks := s'.log[|s.log|..], Asks(w, s.token, k.met);
       && EffectsIn(since, false) <= asks
       && (status.Ok? ==>
             && EffectsIn(since, false) == asks && |asks| == |k.met|
             && s'.token == Later(s.token, Drawn(k.met)) && (if exit then k.way.Out? else k.way.On?))
       && (if status.Ok? && kept then EffectsIn(since, true) == asks && s'.committed == k.scope
           else EffectsIn(since, true) == [] && s'.committed == s.committed)
  }

  lemma DispatchPerforms(w: World, most: nat, kids: Nodes, s: Store, verdict: Verdict)
    requires Sound(s)
    ensures var (s', status, exit) := DispatchTree(w, most, kids, s, verdict);
            Performs(w, WalkAll(w, most, kids, s.committed), s, s', status, exit, verdict.Keep?)
  {
    var res, k := ExecRun(w, most, kids, Begun(s)), WalkAll(w, most, kids, s.committed);
    AllFollows(w, most, kids, Begun(s));
    assert s.log[|s.log|..] == [];
    RunStages(w, most, kids, Begun(s));
    RunKeeps(w, most, kids, s.log, Begun(s));
    if res.Failed? {
      FailurePerforms(w, k, s, res);
    } else {
      FinishPerforms(w, k, s, res, verdict);
    }
  }

  lemma FailurePerforms(w: World, k: Walk, s: Store, res: Result)
    requires res.Failed? && Follows(w, Begun(s), res, k) && Extends(s.log, res.run.log)
    ensures Performs(w, k, s, Store(s.committed, res.run.log, res.run.token), res.error, false, false)
    ensures Performs(w, k, s, Store(s.committed, res.run.log, res.run.token), res.error, false, true)
  {
    var since := res.run.log[|s.log|..];
    forall i | 0 <= i < |since| ensures !since[i].Committed? { assert since[i] == res.run.log[|s.log| + i]; }
    NoneCommitted(since);
  }

  lemma FinishPerforms(w: World, k: Walk, s: Store, res: Result, verdict: Verdict)
    requires !res.Failed? && Follows(w, Begun(s), res, k) && Gathered(s.log, res.run) && Stages(Begun(s), res)
    ensures var (s', status) := SettleTree(res.run, s.committed, verdict);
            Performs(w, k, s, s', status, res.Exited?, verdict.Keep?)
  {
    var r := res.run;
    var (s', status) := SettleTree(r, s.committed, verdict);
    assert r.log + [] == r.log && CommitAll([]) == [] && DiscardAll([]) == [];
    EndShows(s.log, r.log, CommitAll(r.journal));
    EndShows(s.log, r.log, DiscardAll(r.journal));
    assert s'.log == r.log + if status.Ok? && verdict.Keep? then CommitAll(r.journal) else DiscardAll(r.journal);
  }
}
