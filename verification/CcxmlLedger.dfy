/**
 Bookkeeping of tickets over a transition: every accepted ticket is either retained
 or already discarded, identifier writes sit next to their effects, and session
 tokens are never handed out twice.
 */
module CcxmlLedger {
  import opened CcxmlTree
  import opened CcxmlMachine

  // ----- what a history says about tickets ---------------------------------

  datatype Move = HandedOut | Settled | Lost

  /** Whether an entry hands out or settles ticket `t`, or hands it out without a way to settle it. */
  predicate Moves(e: Entry, t: Ticket, how: Move) {
    match how
    case HandedOut => e == Prepared(t)
    case Settled => e == Committed(t) || e == Discarded(t)
    case Lost => e == Broken(t)
  }

  /** How often a history does so. */
  function Times(log: seq<Entry>, t: Ticket, how: Move): nat {
    if log == [] then 0
    else Times(log[..|log| - 1], t, how) + if Moves(log[|log| - 1], t, how) then 1 else 0
  }

  /** How often a journal holds ticket `t`. */
  function Held(journal: seq<Ticket>, t: Ticket): nat {
    if journal == [] then 0
    else Held(journal[..|journal| - 1], t) + if journal[|journal| - 1] == t then 1 else 0
  }

  lemma TimesAppend(a: seq<Entry>, e: Entry, t: Ticket, how: Move)
    ensures Times(a + [e], t, how) == Times(a, t, how) + if Moves(e, t, how) then 1 else 0
  {
    assert (a + [e])[..|a|] == a;
  }

  lemma HeldAppend(j: seq<Ticket>, x: Ticket, t: Ticket)
    ensures Held(j + [x], t) == Held(j, t) + if x == t then 1 else 0
  {
    assert (j + [x])[..|j|] == j;
  }

  lemma {:induction false} TimesConcat(a: seq<Entry>, b: seq<Entry>, t: Ticket, how: Move)
    ensures Times(a + b, t, how) == Times(a, t, how) + Times(b, t, how)
  {
    if b == [] {
      assert a + b == a;
    } else {
      var n := |b| - 1;
      TimesConcat(a, b[..n], t, how);
      assert (a + b)[..|a + b| - 1] == a + b[..n];
    }
  }

  /** Discarding a journal settles each ticket as often as the journal holds it, last ticket first. */
  lemma {:induction false} DiscardAllSettles(journal: seq<Ticket>, t: Ticket)
    ensures Times(DiscardAll(journal), t, HandedOut) == 0
    ensures Times(DiscardAll(journal), t, Settled) == Held(journal, t)
  {
    if journal != [] {
      var n := |journal| - 1;
      var e := Discarded(journal[n]);
      DiscardAllSettles(journal[..n], t);
      TimesConcat([e], DiscardAll(journal[..n]), t, HandedOut);
      TimesConcat([e], DiscardAll(journal[..n]), t, Settled);
      TimesAppend([], e, t, HandedOut);
      TimesAppend([], e, t, Settled);
      assert [] + [e] == [e];
    }
  }

  lemma {:induction false} DiscardAllAt(journal: seq<Ticket>, i: nat)
    requires i < |journal|
    ensures |DiscardAll(journal)| == |journal|
    ensures DiscardAll(journal)[i] == Discarded(journal[|journal| - 1 - i])
  {
    if |journal| > 1 { DiscardAllAt(journal[..|journal| - 1], if i == 0 then 0 else i - 1); }
  }

  // ----- the invariant -----------------------------------------------------

  /** A ticket carries the position at which it was handed out, so no ticket is handed out twice. */
  ghost predicate Stamped(log: seq<Entry>) {
    forall i :: 0 <= i < |log| && (log[i].Prepared? || log[i].Broken?) ==> log[i].ticket.id == i
  }

  /** Every ticket handed out is in the journal or settled, as often as it was handed out. */
  ghost predicate Balanced(log: seq<Entry>, journal: seq<Ticket>) {
    forall t :: Times(log, t, HandedOut) == Times(log, t, Settled) + Held(journal, t)
  }

  /** The identifier an accepted effect is known by. */
  function IdOf(w: World, log: seq<Entry>, q: Request): Id
    requires q.Provide? && w.prepare(log, q).Accepted?
  {
    if q.token != 0 then SendId(q.token) else Named(w.prepare(log, q).generated)
  }

  /** `b` writes, where effect `a` asked for it, the identifier of `a`: its send token, or the text the
      provider generated when it accepted `a`. */
  predicate Names(w: World, log: seq<Entry>, b: Ticket, a: Ticket) {
    && b.request.Write? && a.request.Provide? && a.id < b.id && a.id < |log|
    && a.request.place == Into(b.request.location)
    && w.prepare(log[..a.id], a.request).Accepted?
    && b.request.value == IdOf(w, log[..a.id], a.request)
  }

  /** Each identifier write sits immediately before the effect it names, and each effect whose
      identifier is to be written has that write immediately before it. */
  ghost predicate Paired(w: World, log: seq<Entry>, journal: seq<Ticket>) {
    forall i :: 0 <= i < |journal| ==> PairedAt(w, log, journal, i)
  }

  predicate PairedAt(w: World, log: seq<Entry>, journal: seq<Ticket>, i: nat)
    requires i < |journal|
  {
    && (journal[i].request.Write? ==> i + 1 < |journal| && Names(w, log, journal[i], journal[i + 1]))
    && (journal[i].request.Provide? && journal[i].request.place.Into? ==>
          0 < i && Names(w, log, journal[i - 1], journal[i]))
  }

  /** Later history does not change what was generated. */
  lemma PairedLater(w: World, log: seq<Entry>, log': seq<Entry>, journal: seq<Ticket>)
    requires Paired(w, log, journal) && log <= log'
    ensures Paired(w, log', journal)
  {
    forall i | 0 <= i < |journal| ensures PairedAt(w, log', journal, i) {
      assert PairedAt(w, log, journal, i);
      if i + 1 < |journal| { SameStart(log, log', journal[i + 1].id); }
      SameStart(log, log', journal[i].id);
    }
  }

  lemma SameStart(log: seq<Entry>, log': seq<Entry>, n: nat)
    requires log <= log'
    ensures n < |log| ==> log'[..n] == log[..n]
  {
  }

  function TokenOf(e: Entry): nat {
    match e
    case Prepared(Ticket(_, Provide(_, _, t, _))) => t
    case Broken(Ticket(_, Provide(_, _, t, _))) => t
    case Declined(Provide(_, _, t, _)) => t
    case _ => 0
  }

  /** Every token seen so far is behind the session's counter. */
  ghost predicate Spent(log: seq<Entry>, token: nat) {
    && token <= TOKEN_MAX
    && (forall i :: 0 <= i < |log| ==> token == 0 || TokenOf(log[i]) < token)
    && (forall i, j :: 0 <= i < j < |log| && TokenOf(log[j]) != 0 ==> TokenOf(log[i]) < TokenOf(log[j]))
  }

  ghost predicate Core(r: Run) {
    Stamped(r.log) && Balanced(r.log, r.journal) && Spent(r.log, r.token)
  }

  // ----- what a history says about the journal ------------------------------

  /** `b` continues history `a` without committing anything. */
  ghost predicate Extends(a: seq<Entry>, b: seq<Entry>) {
    a <= b && forall i :: |a| <= i < |b| ==> !b[i].Committed?
  }

  /** `b` continues history `a` with scope copies and accepted tickets alone. */
  ghost predicate Gathers(a: seq<Entry>, b: seq<Entry>) {
    a <= b && forall i :: |a| <= i < |b| ==> b[i].Copied? || b[i].Prepared?
  }

  /** The journal a stretch of history leaves behind: accepted tickets in their order, save that an
      identifier write steps in front of the ticket accepted just before it. */
  function Replay(entries: seq<Entry>): seq<Ticket> {
    if entries == [] then []
    else
      var j, e := Replay(entries[..|entries| - 1]), entries[|entries| - 1];
      if !e.Prepared? then j
      else if e.ticket.request.Write? && j != [] then j[..|j| - 1] + [e.ticket, j[|j| - 1]]
      else j + [e.ticket]
  }

  lemma ReplayAppend(from: seq<Entry>, log: seq<Entry>, e: Entry)
    requires from <= log
    ensures (log + [e])[|from|..] == log[|from|..] + [e]
    ensures Replay((log + [e])[|from|..])
         == var j := Replay(log[|from|..]);
            if !e.Prepared? then j
            else if e.ticket.request.Write? && j != [] then j[..|j| - 1] + [e.ticket, j[|j| - 1]]
            else j + [e.ticket]
  {
    assert (log[|from|..] + [e])[..|log| - |from|] == log[|from|..];
  }

  /** What a failing request may leave after history `log`: nothing, a refusal, a ticket nothing can
      settle, or a ticket handed back at once. */
  ghost predicate Aside(log: seq<Entry>, tail: seq<Entry>) {
    || tail == []
    || (|tail| == 1 && (tail[0].Declined? || tail[0].Broken?))
    || exists q :: tail == [Prepared(Ticket(|log|, q)), Discarded(Ticket(|log|, q))]
  }

  /** After `from` the history gathers tickets, ends that with at most one failing request, and then
      discards everything it had gathered, last ticket first, and nothing else. */
  ghost predicate Undone(from: seq<Entry>, log: seq<Entry>) {
    exists mid, tail :: Gathers(from, mid) && Aside(mid, tail)
                        && log == mid + tail + DiscardAll(Replay(mid[|from|..]))
  }

  lemma DiscardTwo(a: Ticket, b: Ticket)
    ensures DiscardAll([a]) == [Discarded(a)]
    ensures DiscardAll([a, b]) == [Discarded(b), Discarded(a)]
  {
    DiscardAllAt([a], 0);
    DiscardAllAt([a, b], 0);
    DiscardAllAt([a, b], 1);
  }

  /** What two effects accepted one after the other leave behind. */
  lemma TwoGathered(from: seq<Entry>, a: Ticket, b: Ticket)
    requires a.request.Provide? && b.request.Provide?
    ensures Replay(from[|from|..]) == []
    ensures Replay((from + [Prepared(a)])[|from|..]) == [a]
    ensures Replay((from + [Prepared(a)] + [Prepared(b)])[|from|..]) == [a, b]
  {
    assert from[|from|..] == [];
    ReplayAppend(from, from, Prepared(a));
    ReplayAppend(from, from + [Prepared(a)], Prepared(b));
  }

  /** What was gathered before a history of two effects and two discards was undone. */
  lemma GatheredWithin(from: seq<Entry>, mid: seq<Entry>, log: seq<Entry>)
    requires Gathers(from, mid) && mid <= log && |log| == |from| + 4 && log[|from| + 2].Discarded?
    ensures mid == from || mid == from + [log[|from|]] || mid == from + [log[|from|]] + [log[|from| + 1]]
  {
    assert forall i :: 0 <= i < |mid| ==> mid[i] == log[i];
    assert mid == log[..|mid|] && from == log[..|from|];
  }

  /** Two accepted effects are undone by discarding the second and then the first, in no other order. */
  lemma LastToFirst(from: seq<Entry>, a: Ticket, b: Ticket, x: Ticket, y: Ticket)
    requires a.request.Provide? && b.request.Provide?
    ensures Undone(from, from + [Prepared(a), Prepared(b), Discarded(x), Discarded(y)]) <==> x == b && y == a
  {
    var log := from + [Prepared(a), Prepared(b), Discarded(x), Discarded(y)];
    TwoGathered(from, a, b);
    DiscardTwo(a, b);
    var two := from + [Prepared(a)] + [Prepared(b)];
    assert Gathers(from, two) && Aside(two, []);
    assert from + [Prepared(a), Prepared(b), Discarded(b), Discarded(a)] == two + [] + DiscardAll(Replay(two[|from|..]));
    if Undone(from, log) { TwoUndone(from, a, b, x, y, log); }
  }

  lemma TwoUndone(from: seq<Entry>, a: Ticket, b: Ticket, x: Ticket, y: Ticket, log: seq<Entry>)
    requires a.request.Provide? && b.request.Provide? && Undone(from, log)
    requires log == from + [Prepared(a), Prepared(b), Discarded(x), Discarded(y)]
    ensures x == b && y == a
  {
    TwoGathered(from, a, b);
    DiscardTwo(a, b);
    var n := |from|;
    assert log[n] == Prepared(a) && log[n + 1] == Prepared(b) && log[n + 2] == Discarded(x) && log[n + 3] == Discarded(y);
    var mid, tail :| Gathers(from, mid) && Aside(mid, tail) && log == mid + tail + DiscardAll(Replay(mid[n..]));
    GatheredWithin(from, mid, log);
    OneOfThree(n, mid, tail, DiscardAll(Replay(mid[n..])), log, a, b);
  }

  /** Only the second effect can have been handed back at once, and then its discard comes first. */
  lemma OneOfThree(n: nat, mid: seq<Entry>, tail: seq<Entry>, d: seq<Entry>, log: seq<Entry>, a: Ticket, b: Ticket)
    requires Aside(mid, tail) && log == mid + tail + d && |log| == n + 4 && log[n + 1] == Prepared(b)
    requires || (|mid| == n && d == []) || (|mid| == n + 1 && d == [Discarded(a)])
             || (|mid| == n + 2 && d == [Discarded(b), Discarded(a)])
    ensures log[n + 2] == Discarded(b) && log[n + 3] == Discarded(a)
  {
    if |mid| == n + 1 { assert tail[0] == log[n + 1] && tail[1] == log[n + 2]; }
  }

  /** Since `from` the run has gathered its journal and nothing else. */
  ghost predicate Gathered(from: seq<Entry>, r: Run) {
    Gathers(from, r.log) && r.journal == Replay(r.log[|from|..])
  }

  /** The books of a run whose history began as `from`. */
  ghost predicate Books(w: World, from: seq<Entry>, r: Run) {
    Core(r) && Paired(w, r.log, r.journal) && Gathered(from, r)
  }

  /** A run that goes on or finishes keeps its books; a failed one holds nothing and is undone. */
  ghost predicate Kept(w: World, from: seq<Entry>, res: Result) {
    if res.Failed? then
      Core(res.run) && res.run.journal == [] && Extends(from, res.run.log) && Undone(from, res.run.log)
    else Books(w, from, res.run)
  }

  // ----- every action keeps it ---------------------------------------------

  /** A failure closes the books of the core. */
  lemma FailCore(r: Run, e: Error)
    requires Core(r)
    ensures Core(Fail(r, e).run)
  {
    var d := DiscardAll(r.journal);
    var res := Fail(r, e).run;
    forall t ensures Times(res.log, t, HandedOut) == Times(res.log, t, Settled) + Held(res.journal, t) {
      DiscardAllSettles(r.journal, t);
      TimesConcat(r.log, d, t, HandedOut);
      TimesConcat(r.log, d, t, Settled);
    }
    AllDiscards(r.log, r.journal);
  }

  lemma NothingCommitted(from: seq<Entry>, mid: seq<Entry>, tail: seq<Entry>, journal: seq<Ticket>)
    requires Gathers(from, mid) && Aside(mid, tail)
    ensures Extends(from, mid + tail + DiscardAll(journal))
  {
    AllDiscards(mid + tail, journal);
    forall i | |from| <= i < |mid + tail| ensures !(mid + tail)[i].Committed? {
      if i < |mid| { assert (mid + tail)[i] == mid[i]; } else { assert (mid + tail)[i] == tail[i - |mid|]; }
    }
  }

  /** A run fails after `tail`, which holds none of its tickets. */
  lemma FailAsideKeeps(w: World, from: seq<Entry>, r: Run, tail: seq<Entry>, e: Error)
    requires Gathered(from, r) && Aside(r.log, tail) && Core(r.(log := r.log + tail))
    ensures Kept(w, from, Fail(r.(log := r.log + tail), e))
  {
    FailCore(r.(log := r.log + tail), e);
    NothingCommitted(from, r.log, tail, r.journal);
  }

  lemma FailKeeps(w: World, from: seq<Entry>, r: Run, e: Error)
    requires Core(r) && Gathered(from, r)
    ensures Kept(w, from, Fail(r, e))
  {
    assert r.log + [] == r.log;
    FailAsideKeeps(w, from, r, [], e);
  }

  /** The tail a failure writes holds nothing but discards. */
  lemma AllDiscards(log: seq<Entry>, journal: seq<Ticket>)
    ensures |DiscardAll(journal)| == |journal|
    ensures forall i :: |log| <= i < |log + DiscardAll(journal)| ==> (log + DiscardAll(journal))[i].Discarded?
  {
    if journal != [] { DiscardAllAt(journal, 0); }
    forall i | |log| <= i < |log| + |journal| ensures (log + DiscardAll(journal))[i].Discarded? {
      DiscardAllAt(journal, i - |log|);
    }
  }

  /** A token that may be used now: newer than every one seen, older than the counter. */
  ghost predicate Behind(r: Run, token: nat) {
    token != 0 ==>
      (r.token == 0 || token < r.token) && forall i :: 0 <= i < |r.log| ==> TokenOf(r.log[i]) < token
  }

  /** One more history entry that moves no ticket. */
  lemma NoteKeeps(r: Run, e: Entry)
    requires Core(r) && !e.Prepared? && !e.Committed? && !e.Discarded? && Behind(r, TokenOf(e))
    requires e.Broken? ==> e.ticket.id == |r.log|
    ensures Core(r.(log := r.log + [e]))
  {
    forall t ensures Times(r.log + [e], t, HandedOut) == Times(r.log + [e], t, Settled) + Held(r.journal, t) {
      TimesAppend(r.log, e, t, HandedOut);
      TimesAppend(r.log, e, t, Settled);
    }
  }

  function RequestToken(q: Request): nat { if q.Provide? then q.token else 0 }

  lemma RetainKeeps(w: World, capacity: Capacity, from: seq<Entry>, r: Run, q: Request)
    requires Core(r) && Gathered(from, r) && Behind(r, RequestToken(q))
    ensures var res := Retain(w, capacity, r, q);
            && Core(res.run) && (res.Failed? ==> Kept(w, from, res))
            && (res.Normal? ==> res.run.log == r.log + [Prepared(Ticket(|r.log|, q))] && res.run.token == r.token)
            && (res.Normal? ==> Gathers(from, res.run.log))
  {
    var t := Ticket(|r.log|, q);
    match w.prepare(r.log, q)
    case Refused =>
      NoteKeeps(r, Declined(q));
      FailAsideKeeps(w, from, r, [Declined(q)], AdapterError);
    case Accepted(hasCommit, hasDiscard, _) =>
      if !hasDiscard {
        NoteKeeps(r, Broken(t));
        FailAsideKeeps(w, from, r, [Broken(t)], InvalidContract);
      } else if !hasCommit || capacity.Full(|r.journal|) {
        RefusedTicketKeeps(r, t);
        FailAsideKeeps(w, from, r, [Prepared(t), Discarded(t)], if !hasCommit then InvalidContract else LimitExceeded);
      } else {
        AcceptedTicketKeeps(r, t);
      }
  }

  lemma AcceptedTicketKeeps(r: Run, t: Ticket)
    requires Core(r) && t.id == |r.log| && Behind(r, RequestToken(t.request))
    ensures Core(r.(log := r.log + [Prepared(t)], journal := r.journal + [t]))
  {
    AcceptedBalance(r.log, r.journal, t);
    SpentAppend(r, Prepared(t));
  }

  lemma AcceptedBalance(log: seq<Entry>, journal: seq<Ticket>, t: Ticket)
    requires Balanced(log, journal)
    ensures Balanced(log + [Prepared(t)], journal + [t])
  {
    var log' := log + [Prepared(t)];
    forall x ensures Times(log', x, HandedOut) == Times(log', x, Settled) + Held(journal + [t], x) {
      TimesAppend(log, Prepared(t), x, HandedOut);
      TimesAppend(log, Prepared(t), x, Settled);
      HeldAppend(journal, t, x);
    }
  }

  lemma SpentAppend(r: Run, e: Entry)
    requires Spent(r.log, r.token) && Behind(r, TokenOf(e))
    ensures Spent(r.log + [e], r.token)
  {
  }

  lemma RefusedTicketKeeps(r: Run, t: Ticket)
    requires Core(r) && t.id == |r.log| && Behind(r, RequestToken(t.request))
    ensures Core(r.(log := r.log + [Prepared(t), Discarded(t)]))
  {
    var one := r.log + [Prepared(t)];
    assert r.log + [Prepared(t), Discarded(t)] == one + [Discarded(t)];
    AcceptedTicketKeeps(r, t);
    DiscardLast(one, r.journal, t);
    SpentAppend(r.(log := one), Discarded(t));
  }

  lemma DiscardLast(log: seq<Entry>, journal: seq<Ticket>, t: Ticket)
    requires Balanced(log, journal + [t])
    ensures Balanced(log + [Discarded(t)], journal)
  {
    var log' := log + [Discarded(t)];
    forall x ensures Times(log', x, HandedOut) == Times(log', x, Settled) + Held(journal, x) {
      TimesAppend(log, Discarded(t), x, HandedOut);
      TimesAppend(log, Discarded(t), x, Settled);
      HeldAppend(journal, t, x);
    }
  }

  lemma SwapHolds(j: seq<Ticket>, a: Ticket, b: Ticket)
    ensures SwapLast(j + [a] + [b]) == j + [b] + [a]
    ensures forall t :: Held(j + [b] + [a], t) == Held(j + [a] + [b], t)
  {
    forall t ensures Held(j + [b] + [a], t) == Held(j + [a] + [b], t) {
      HeldAppend(j, a, t);
      HeldAppend(j, b, t);
      HeldAppend(j + [a], b, t);
      HeldAppend(j + [b], a, t);
    }
  }

  lemma SwapPairs(w: World, log: seq<Entry>, j: seq<Ticket>, a: Ticket, b: Ticket)
    requires Paired(w, log, j) && Names(w, log, b, a)
    ensures Paired(w, log, j + [b] + [a])
  {
    var s := j + [b] + [a];
    forall i | 0 <= i < |s| ensures PairedAt(w, log, s, i) {
      if i < |j| {
        assert PairedAt(w, log, j, i);
        assert s[i] == j[i] && (i + 1 < |j| ==> s[i + 1] == j[i + 1]) && (0 < i ==> s[i - 1] == j[i - 1]);
      } else {
        assert s[|j|] == b && s[|j| + 1] == a;
      }
    }
  }

  /** An effect without an identifier joins the journal. */
  lemma PlainPairs(w: World, log: seq<Entry>, j: seq<Ticket>, a: Ticket)
    requires Paired(w, log, j) && a.request.Provide? && a.request.place.Nowhere?
    ensures Paired(w, log, j + [a])
  {
    var s := j + [a];
    forall i | 0 <= i < |s| ensures PairedAt(w, log, s, i) {
      if i < |j| { assert PairedAt(w, log, j, i); }
    }
  }

  /** The write retained after its effect names it. */
  lemma WriteNames(w: World, log: seq<Entry>, log': seq<Entry>, q: Request, q2: Request)
    requires q.Provide? && q.place.Into? && log < log' && w.prepare(log, q).Accepted?
    requires q2 == Write(q.place.location, IdOf(w, log, q))
    ensures Names(w, log', Ticket(|log| + 1, q2), Ticket(|log|, q))
  {
    assert log'[..|log|] == log;
  }

  lemma PairKeeps(w: World, capacity: Capacity, from: seq<Entry>, r: Run, op: string, text: string, token: nat, location: string)
    requires Books(w, from, r) && Behind(r, token)
    ensures Kept(w, from, ExecPair(w, capacity, r, op, text, token, location))
  {
    var q := Provide(op, text, token, Into(location));
    RetainKeeps(w, capacity, from, r, q);
    var first := Retain(w, capacity, r, q);
    if first.Normal? {
      var r1 := first.run;
      ReplayAppend(from, r.log, Prepared(Ticket(|r.log|, q)));
      var generated := w.prepare(r.log, q).generated;
      if token == 0 && !ValidText(generated) {
        FailKeeps(w, from, r1, InvalidContract);
      } else {
        WriteKeeps(w, capacity, from, r, r1, q, Write(location, if token == 0 then Named(generated) else SendId(token)));
      }
    }
  }

  /** The second half of a pair: the write is retained and moved in front of its effect. */
  lemma WriteKeeps(w: World, capacity: Capacity, from: seq<Entry>, r: Run, r1: Run, q: Request, q2: Request)
    requires Books(w, from, r) && Core(r1) && Gathered(from, r1)
    requires q.Provide? && q.place.Into? && w.prepare(r.log, q).Accepted?
    requires r1.log == r.log + [Prepared(Ticket(|r.log|, q))] && r1.journal == r.journal + [Ticket(|r.log|, q)]
    requires q2 == Write(q.place.location, IdOf(w, r.log, q))
    ensures var res := Retain(w, capacity, r1, q2);
      if res.Normal? then Kept(w, from, Normal(res.run.(journal := SwapLast(res.run.journal)))) else Kept(w, from, res)
  {
    RetainKeeps(w, capacity, from, r1, q2);
    var res := Retain(w, capacity, r1, q2);
    if res.Normal? {
      var a, b := Ticket(|r.log|, q), Ticket(|r1.log|, q2);
      WriteNames(w, r.log, res.run.log, q, q2);
      WriteJoins(w, from, r, res.run, a, b);
    }
  }

  lemma WriteJoins(w: World, from: seq<Entry>, r: Run, r2: Run, a: Ticket, b: Ticket)
    requires Books(w, from, r) && Core(r2) && Gathers(from, r2.log) && a.request.Provide? && b.request.Write?
    requires r2.log == r.log + [Prepared(a)] + [Prepared(b)] && r2.journal == r.journal + [a] + [b]
    requires Names(w, r2.log, b, a)
    ensures Books(w, from, r2.(journal := SwapLast(r2.journal)))
  {
    SwapHolds(r.journal, a, b);
    PairedLater(w, r.log, r2.log, r.journal);
    SwapPairs(w, r2.log, r.journal, a, b);
    SwapReplays(from, r, a, b);
  }

  lemma SwapReplays(from: seq<Entry>, r: Run, a: Ticket, b: Ticket)
    requires Gathered(from, r) && a.request.Provide? && b.request.Write?
    ensures Replay((r.log + [Prepared(a)] + [Prepared(b)])[|from|..]) == r.journal + [b] + [a]
  {
    ReplayAppend(from, r.log, Prepared(a));
    ReplayAppend(from, r.log + [Prepared(a)], Prepared(b));
    assert (r.journal + [a])[..|r.journal|] == r.journal;
  }

  lemma PlainKeeps(w: World, capacity: Capacity, from: seq<Entry>, r: Run, op: string, text: string)
    requires Books(w, from, r)
    ensures Kept(w, from, Retain(w, capacity, r, Provide(op, text, 0, Nowhere)))
  {
    var q := Provide(op, text, 0, Nowhere);
    RetainKeeps(w, capacity, from, r, q);
    var res := Retain(w, capacity, r, q);
    if res.Normal? {
      PairedLater(w, r.log, res.run.log, r.journal);
      PlainPairs(w, res.run.log, r.journal, Ticket(|r.log|, q));
      ReplayAppend(from, r.log, Prepared(Ticket(|r.log|, q)));
    }
  }

  lemma LeafKeeps(w: World, capacity: Capacity, a: LeafAction, from: seq<Entry>, r: Run)
    requires Books(w, from, r)
    ensures Kept(w, from, ExecLeaf(w, capacity, a, r))
  {
    match a
    case Exit =>
    case Plain(op) =>
      var answer := w.build(op, r.scope);
      if answer.Fault? {
        FailKeeps(w, from, r, answer.error);
      } else {
        PlainKeeps(w, capacity, from, r, op, answer.value);
      }
    case Generating(op, location, source) =>
      var answer := w.build(op, r.scope);
      if answer.Fault? {
        FailKeeps(w, from, r, answer.error);
      } else if source.Provider? {
        PairKeeps(w, capacity, from, r, op, answer.value, 0, location);
      } else if r.token == 0 {
        FailKeeps(w, from, r, LimitExceeded);
      } else {
        PairKeeps(w, capacity, from, r.(token := NextToken(r.token)), op, answer.value, r.token, location);
      }
  }

  // ----- every tree keeps it -----------------------------------------------

  lemma CopyGathers(from: seq<Entry>, r: Run, ok: bool)
    requires Gathered(from, r)
    ensures Gathered(from, r.(log := r.log + [Copied(ok)]))
  {
    ReplayAppend(from, r.log, Copied(ok));
  }

  lemma CopyKeeps(w: World, from: seq<Entry>, r: Run, ok: bool)
    requires Books(w, from, r)
    ensures Books(w, from, r.(log := r.log + [Copied(ok)]))
  {
    NoteKeeps(r, Copied(ok));
    PairedLater(w, r.log, r.log + [Copied(ok)], r.journal);
    CopyGathers(from, r, ok);
  }

  lemma BeginKeeps(w: World, from: seq<Entry>, r: Run)
    requires Books(w, from, r)
    ensures Books(w, from, BeginBlock(w, r).1)
  {
    CopyKeeps(w, from, r, w.copies(r.log));
    var r1 := r.(staged := true, log := r.log + [Copied(w.copies(r.log))]);
    CopyKeeps(w, from, r1, w.copies(r1.log));
  }

  lemma {:induction false} NodeKeeps(w: World, most: nat, n: Node, from: seq<Entry>, r: Run)
    requires Books(w, from, r)
    ensures Kept(w, from, ExecNode(w, most, n, r))
    decreases n, 0
  {
    match n
    case Leaf(a, _) => LeafKeeps(w, Unbounded, a, from, r);
    case If(c, _, kids) => IfKeeps(w, most, c, kids, from, r);
    case Foreach(l, _, kids) => ForeachKeeps(w, most, l, kids, from, r);
    case _ =>
  }

  lemma {:induction false} RunKeeps(w: World, most: nat, kids: Nodes, from: seq<Entry>, r: Run)
    requires Books(w, from, r)
    ensures Kept(w, from, ExecRun(w, most, kids, r))
    decreases kids, 0
  {
    if kids.Cons? && !kids.head.Marker() {
      NodeKeeps(w, most, kids.head, from, r);
      var res := ExecNode(w, most, kids.head, r);
      if res.Normal? { RunKeeps(w, most, kids.tail, from, res.run); }
    }
  }

  lemma {:induction false} IfKeeps(w: World, most: nat, cond: string, kids: Nodes, from: seq<Entry>, r: Run)
    requires Books(w, from, r)
    ensures Kept(w, from, ExecIf(w, most, cond, kids, r))
    decreases kids, 2
  {
    var answer := w.cond(cond, r.scope);
    if answer.Fault? { FailKeeps(w, from, r, answer.error); }
    RunKeeps(w, most, kids, from, r);
    ElseKeeps(w, most, kids, from, r);
  }

  lemma {:induction false} ElseKeeps(w: World, most: nat, kids: Nodes, from: seq<Entry>, r: Run)
    requires Books(w, from, r)
    ensures Kept(w, from, ExecElse(w, most, kids, r))
    decreases kids, 1
  {
    match kids
    case Nil =>
    case Cons(ElseIf(c, _), tail) => IfKeeps(w, most, c, tail, from, r);
    case Cons(Else, tail) => RunKeeps(w, most, tail, from, r);
    case Cons(_, tail) => ElseKeeps(w, most, tail, from, r);
  }

  lemma {:induction false} ForeachKeeps(w: World, most: nat, loop: string, kids: Nodes, from: seq<Entry>, r: Run)
    requires Books(w, from, r)
    ensures Kept(w, from, ExecForeach(w, most, loop, kids, r))
    decreases kids, 2
  {
    BeginKeeps(w, from, r);
    var (begun, r1) := BeginBlock(w, r);
    FailKeeps(w, from, r1, InvalidContract);
    FailKeeps(w, from, r1, LimitExceeded);
    var answer := w.open(loop, r1.scope);
    if answer.Fault? {
      FailKeeps(w, from, r1, answer.error);
    } else {
      var init := w.init(loop);
      if init.Fault? { FailKeeps(w, from, r1, init.error); }
      LoopKeeps(w, most, loop, answer.value, 0, kids, from, r1);
    }
  }

  lemma {:induction false} LoopKeeps(
    w: World, most: nat, loop: string, elements: seq<int>, i: nat, kids: Nodes, from: seq<Entry>, r: Run)
    requires i <= |elements| && Books(w, from, r)
    ensures Kept(w, from, Iterations(w, most, loop, elements, i, kids, r))
    decreases kids, 1, |elements| - i
  {
    if i < |elements| {
      var (scope, bound) := w.bind(loop, elements, i, r.scope);
      var r1 := r.(scope := scope);
      if bound.Fault? {
        FailKeeps(w, from, r1, bound.error);
      } else {
        RunKeeps(w, most, kids, from, r1);
        var res := ExecRun(w, most, kids, r1);
        if res.Normal? { LoopKeeps(w, most, loop, elements, i + 1, kids, from, res.run); }
      }
    }
  }
}
