/**
 What holds over any sequence of dispatches: every accepted ticket is settled exactly
 once, commits happen all together or not at all, bindings change only with them.
 */
module CcxmlTransaction {
  import opened CcxmlTree
  import opened CcxmlMachine
  import opened CcxmlLedger
  import opened CcxmlSimulation
  import opened CcxmlSession

  /** Between dispatches no ticket is open. */
  ghost predicate Sound(s: Store) {
    Stamped(s.log) && Balanced(s.log, []) && Spent(s.log, s.token)
  }

  lemma {:induction false} CommitAllSettles(journal: seq<Ticket>, t: Ticket)
    ensures Times(CommitAll(journal), t, HandedOut) == 0
    ensures Times(CommitAll(journal), t, Move.Settled) == Held(journal, t)
  {
    if journal != [] {
      var n := |journal| - 1;
      CommitAllSettles(journal[..n], t);
      TimesAppend(CommitAll(journal[..n]), Committed(journal[n]), t, HandedOut);
      TimesAppend(CommitAll(journal[..n]), Committed(journal[n]), t, Move.Settled);
    }
  }

  lemma {:induction false} CommitAllAt(journal: seq<Ticket>, i: nat)
    requires i < |journal|
    ensures |CommitAll(journal)| == |journal| && CommitAll(journal)[i] == Committed(journal[i])
  {
    var n := |journal| - 1;
    if n > 0 { CommitAllAt(journal[..n], if i < n then i else 0); }
  }

  /** Settling a whole journal, one way or the other, closes the books. */
  lemma SettleBalances(r: Run, tail: seq<Entry>)
    requires Core(r)
    requires tail == CommitAll(r.journal) || tail == DiscardAll(r.journal)
    ensures Sound(Store(map[], r.log + tail, r.token))
  {
    ClosesBooks(r.log, r.journal, tail);
    TailSettles(r.journal, tail);
    QuietTail(r.log, tail, r.token);
  }

  lemma ClosesBooks(log: seq<Entry>, journal: seq<Ticket>, tail: seq<Entry>)
    requires Balanced(log, journal)
    requires tail == CommitAll(journal) || tail == DiscardAll(journal)
    ensures Balanced(log + tail, [])
  {
    forall t ensures Times(log + tail, t, HandedOut) == Times(log + tail, t, Move.Settled) + Held([], t) {
      TimesConcat(log, tail, t, HandedOut);
      TimesConcat(log, tail, t, Move.Settled);
      CommitAllSettles(journal, t);
      DiscardAllSettles(journal, t);
    }
  }

  lemma QuietTail(log: seq<Entry>, tail: seq<Entry>, token: nat)
    requires Stamped(log) && Spent(log, token)
    requires forall i :: 0 <= i < |tail| ==> tail[i].Committed? || tail[i].Discarded?
    ensures Stamped(log + tail) && Spent(log + tail, token)
  {
    forall i | |log| <= i < |log + tail| ensures !(log + tail)[i].Prepared? && TokenOf((log + tail)[i]) == 0 {
      assert (log + tail)[i] == tail[i - |log|];
    }
  }

  lemma TailSettles(journal: seq<Ticket>, tail: seq<Entry>)
    requires tail == CommitAll(journal) || tail == DiscardAll(journal)
    ensures |tail| == |journal|
    ensures forall i :: 0 <= i < |tail| ==> tail[i].Committed? || tail[i].Discarded?
  {
    if journal != [] { CommitAllAt(journal, 0); DiscardAllAt(journal, 0); }
    forall i | 0 <= i < |tail| ensures tail[i].Committed? || tail[i].Discarded? {
      CommitAllAt(journal, i);
      DiscardAllAt(journal, i);
    }
  }

  lemma DispatchSound(w: World, most: nat, kids: Nodes, s: Store, verdict: Verdict)
    requires Sound(s)
    ensures Sound(DispatchTree(w, most, kids, s, verdict).0)
  {
    var r0 := Run(s.committed, false, s.log, [], s.token);
    RunKeeps(w, most, kids, s.log, r0);
    var r := ExecRun(w, most, kids, r0).run;
    SettleBalances(r, CommitAll(r.journal));
    SettleBalances(r, DiscardAll(r.journal));
  }

  /** The run a dispatch starts. */
  function Begun(s: Store): Run { Run(s.committed, false, s.log, [], s.token) }

  /** A transition that ran to its end gathered, after the history `from`, exactly the tickets of its
      journal, in that order; each identifier write stands just before the effect it names and each
      effect that has one just after it. */
  ghost predicate Gathering(w: World, from: seq<Entry>, mid: seq<Entry>, journal: seq<Ticket>) {
    Gathers(from, mid) && journal == Replay(mid[|from|..]) && Balanced(mid, journal) && Paired(w, mid, journal)
  }

  /** The history gathered the journal and then ends with `tail`. */
  ghost predicate Settles(w: World, from: seq<Entry>, journal: seq<Ticket>, log: seq<Entry>, tail: seq<Entry>) {
    exists mid :: Gathering(w, from, mid, journal) && log == mid + tail
  }

  /** All or nothing. A dispatch that is kept ends its history with the commits of its whole journal, in
      order, and makes the bindings visible at the end of its rows the committed ones. One that ran to its
      end and is not kept ends it with the discards of its whole journal, last ticket first; it answers OK
      unless the statechart refused to stage what there was to settle. One that failed on the way ends it
      with the discards, last first, of what it had gathered until then, after at most one failing request,
      and answers the failure. Neither of these commits anything or changes a committed binding. */
  lemma AllOrNothing(w: World, most: nat, kids: Nodes, s: Store, verdict: Verdict)
    requires Sound(s)
    ensures var (s', status, exit) := DispatchTree(w, most, kids, s, verdict);
            var res := ExecRun(w, most, kids, Begun(s));
            var journal := res.run.journal;
            && (!res.Failed? && verdict.Keep? ==>
                  && Settles(w, s.log, journal, s'.log, CommitAll(journal))
                  && status.Ok? && s'.committed == res.run.scope)
            && (!res.Failed? && !verdict.Keep? ==> Settles(w, s.log, journal, s'.log, DiscardAll(journal)))
            && (!res.Failed? && !verdict.Keep? ==>
                  status == if verdict.Refused? && (journal != [] || res.run.staged) then LimitExceeded else Ok)
            && (res.Failed? ==> Undone(s.log, s'.log) && status == res.error && !exit)
            && (res.Failed? || !verdict.Keep? ==> s'.committed == s.committed && Extends(s.log, s'.log))
            && (!res.Failed? ==> (exit <==> res.Exited?)) && s'.token == res.run.token
  {
    assert s.log[|s.log|..] == [];
    RunKeeps(w, most, kids, s.log, Begun(s));
    RunStages(w, most, kids, Begun(s));
    var res := ExecRun(w, most, kids, Begun(s));
    var r := res.run;
    assert CommitAll([]) == [] && DiscardAll([]) == [] && r.log + [] == r.log;
    if !res.Failed? {
      assert Gathering(w, s.log, r.log, r.journal);
      assert Aside(r.log, []);
      NothingCommitted(s.log, r.log, [], r.journal);
      assert Settles(w, s.log, r.journal, r.log + CommitAll(r.journal), CommitAll(r.journal));
      assert Settles(w, s.log, r.journal, r.log + DiscardAll(r.journal), DiscardAll(r.journal));
    }
  }

  /** A session's life: one dispatch after another, each meeting its own event and data model. */
  datatype Job = Job(w: World, kids: Nodes, verdict: Verdict)

  function Life(most: nat, jobs: seq<Job>, s: Store): Store {
    if jobs == [] then s
    else Life(most, jobs[1..], DispatchTree(jobs[0].w, most, jobs[0].kids, s, jobs[0].verdict).0)
  }

  lemma {:induction false} LifeSound(most: nat, jobs: seq<Job>, s: Store)
    requires Sound(s)
    ensures Sound(Life(most, jobs, s))
  {
    if jobs != [] {
      DispatchSound(jobs[0].w, most, jobs[0].kids, s, jobs[0].verdict);
      LifeSound(most, jobs[1..], DispatchTree(jobs[0].w, most, jobs[0].kids, s, jobs[0].verdict).0);
    }
  }

  lemma {:induction false} HandedOutOnce(log: seq<Entry>, t: Ticket)
    requires Stamped(log)
    ensures Times(log, t, HandedOut) + Times(log, t, Lost) <= 1
    ensures Times(log, t, HandedOut) + Times(log, t, Lost) == 1 ==> t.id < |log|
  {
    if log != [] { HandedOutOnce(log[..|log| - 1], t); }
  }

  /** Over any life of a session no adapter's ticket is handed out twice. One that can be settled is settled
      exactly once, one that came without a discard operation never, and none is settled that was not handed
      out; send tokens are strictly increasing. */
  lemma EveryTicketSettledOnce(most: nat, jobs: seq<Job>, committed: Scope, t: Ticket)
    ensures var log := Life(most, jobs, Store(committed, [], 1)).log;
            && Times(log, t, HandedOut) + Times(log, t, Lost) <= 1
            && Times(log, t, Move.Settled) == Times(log, t, HandedOut)
            && forall i, j :: 0 <= i < j < |log| && TokenOf(log[j]) != 0 ==> TokenOf(log[i]) < TokenOf(log[j])
  {
    LifeSound(most, jobs, Store(committed, [], 1));
    HandedOutOnce(Life(most, jobs, Store(committed, [], 1)).log, t);
  }

  // ----- no failure comes from the control rows ----------------------------

  /** An outside that never refuses anything. */
  ghost predicate Obliging(w: World, most: nat) {
    && (forall c, s :: w.cond(c, s).Value?) && (forall o, s :: w.build(o, s).Value?)
    && (forall l, s :: w.open(l, s).Value? && |w.open(l, s).value| <= most)
    && (forall l :: w.init(l).Value?) && (forall l, es, i, s :: w.bind(l, es, i, s).1.Value?)
    && (forall log :: w.copies(log))
    && (forall log, q :: w.prepare(log, q).Accepted? && w.prepare(log, q).hasCommit
                         && w.prepare(log, q).hasDiscard && ValidText(w.prepare(log, q).generated))
  }

  ghost predicate OnlyTokens(res: Result) { res.Failed? ==> res.error == LimitExceeded && res.run.token == 0 }

  lemma {:induction false} ObligingNode(w: World, most: nat, n: Node, r: Run)
    requires Obliging(w, most)
    ensures OnlyTokens(ExecNode(w, most, n, r))
    decreases n, 0
  {
    match n
    case Leaf(a, _) => ObligingLeaf(w, most, a, r);
    case If(_, _, kids) => ObligingRun(w, most, kids, r); ObligingElse(w, most, kids, r);
    case Foreach(l, _, kids) =>
      var r1 := BeginBlock(w, r).1;
      ObligingLoop(w, most, l, w.open(l, r1.scope).value, 0, kids, r1);
    case _ =>
  }

  lemma ObligingLeaf(w: World, most: nat, a: LeafAction, r: Run)
    requires Obliging(w, most)
    ensures OnlyTokens(ExecLeaf(w, Unbounded, a, r))
  {
  }

  lemma {:induction false} ObligingRun(w: World, most: nat, kids: Nodes, r: Run)
    requires Obliging(w, most)
    ensures OnlyTokens(ExecRun(w, most, kids, r))
    decreases kids, 0
  {
    if kids.Cons? && !kids.head.Marker() {
      ObligingNode(w, most, kids.head, r);
      var res := ExecNode(w, most, kids.head, r);
      if res.Normal? { ObligingRun(w, most, kids.tail, res.run); }
    }
  }

  lemma {:induction false} ObligingElse(w: World, most: nat, kids: Nodes, r: Run)
    requires Obliging(w, most)
    ensures OnlyTokens(ExecElse(w, most, kids, r))
    decreases kids, 1
  {
    if kids.Cons? {
      ObligingElse(w, most, kids.tail, r);
      ObligingRun(w, most, kids.tail, r);
    }
  }

  lemma {:induction false} ObligingLoop(
    w: World, most: nat, l: string, elements: seq<int>, i: nat, kids: Nodes, r: Run)
    requires Obliging(w, most) && i <= |elements|
    ensures OnlyTokens(Iterations(w, most, l, elements, i, kids, r))
    decreases kids, 1, |elements| - i
  {
    if i < |elements| {
      var r1 := r.(scope := w.bind(l, elements, i, r.scope).0);
      ObligingRun(w, most, kids, r1);
      var res := ExecRun(w, most, kids, r1);
      if res.Normal? { ObligingLoop(w, most, l, elements, i + 1, kids, res.run); }
    }
  }

  /** With an obliging outside a compiled transition finishes, or stops on an exhausted send counter. */
  lemma ObligingFinishes(c: Config, kids: Nodes, m: Machine) returns (m': Machine, k: nat)
    requires Compiled(c, kids) && Starting(c, m) && Obliging(c.w, c.mostIterations)
    ensures m' == Iterate(c, m, k)
    ensures m'.halt.Finished? || (m'.halt == Faulted(LimitExceeded) && m'.token == 0)
  {
    m', k := CompiledRunsLikeTree(c, kids, m);
    ObligingRun(c.w, c.mostIterations, kids, m.Progress());
  }
}
