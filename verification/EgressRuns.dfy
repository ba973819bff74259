/**
 What holds after every run of the egress protocol.
 */
module EgressRuns {
  import opened EgressModel
  import opened EgressInvariant
  import opened EgressSteps
  import opened EgressOrder

  /** A started processor with `n` free rows and `n` cancel tickets. */
  function Started(n: nat): Sys {
    Sys(true, seq(n, _ => Row(Free, 0, 0, "", 0, 0, 0, 0, false, 0, false, false)), seq(n, _ => Slot(0, 0, false, 0)),
        map[], {}, 0, 0, 0, 0, 0, 0, 0, 0, 0, 0, 0, 0, Idle, map[], {}, {}, {}, {}, multiset{})
  }

  datatype Trace = Nil | Then(before: Trace, step: Step)

  /** Every step of the run was enabled when it was taken. */
  predicate Runs(from: Sys, t: Trace)
    decreases t, 0
  {
    t.Then? ==> Runs(from, t.before) && Enabled(After(from, t.before), t.step)
  }

  function After(from: Sys, t: Trace): Sys
    requires Runs(from, t)
    decreases t, 1
  {
    match t
    case Nil => from
    case Then(before, step) => Apply(After(from, before), step)
  }

  lemma StartedInv(n: nat)
    ensures Inv(Started(n)) && Ordered(Started(n))
  {
    var s := Started(n);
    CountZero(s.rows, Waiting);
    CountZero(s.rows, Flying);
    CountZero(s.rows, Sending);
  }

  lemma {:induction false} RunKeeps(from: Sys, t: Trace)
    requires Inv(from) && Ordered(from) && Runs(from, t)
    ensures Inv(After(from, t)) && Ordered(After(from, t))
  {
    if t.Then? {
      RunKeeps(from, t.before);
      StepInv(After(from, t.before), t.step);
      StepOrdered(After(from, t.before), t.step);
    }
  }

  /** States some run of a started processor leads to. */
  ghost predicate Reached(s: Sys) { exists n, t :: Runs(Started(n), t) && After(Started(n), t) == s }

  lemma ReachedNext(s: Sys, step: Step)
    requires Reached(s) && Enabled(s, step)
    ensures Reached(Apply(s, step))
  {
    var n, t :| Runs(Started(n), t) && After(Started(n), t) == s;
    assert Runs(Started(n), Then(t, step));
  }

  lemma Reachable(s: Sys)
    requires Reached(s)
    ensures Inv(s) && Ordered(s)
  {
    var n, t :| Runs(Started(n), t) && After(Started(n), t) == s;
    StartedInv(n);
    RunKeeps(Started(n), t);
  }

  // ----- ordering ----------------------------------------------------------

  predicate FlyingFor(r: Row, b: Ref) { r.InFlight() && r.binding == b }

  /** One request at a time, in commit order, each accepted at most once. */
  lemma CommitOrder(s: Sys, b: Ref)
    requires Reached(s) && Unwrapped(s, b)
    ensures
      && (forall i, j :: 0 <= i < |s.rows| && 0 <= j < |s.rows| && FlyingFor(s.rows[i], b) && FlyingFor(s.rows[j], b) ==>
            i == j)
      && Increasing(s.bindings[b].sent)
      && (forall i :: 0 <= i < |s.rows| && s.rows[i].phase.Ready? && s.rows[i].binding == b ==>
                        Below(s.bindings[b].sent, s.rows[i].order))
  {
    Reachable(s);
    forall i, j | 0 <= i < |s.rows| && 0 <= j < |s.rows| && FlyingFor(s.rows[i], b) && FlyingFor(s.rows[j], b)
      ensures i == j
    {
      assert Apart(s, i, j) && Apart(s, j, i);
    }
    assert Numbered(s.bindings[b]);
    forall i | 0 <= i < |s.rows| && s.rows[i].phase.Ready? && s.rows[i].binding == b
      ensures Below(s.bindings[b].sent, s.rows[i].order)
    {
      assert Placed(s, i);
    }
  }

  // ----- lifetimes ---------------------------------------------------------

  predicate Live(s: Sys, b: Ref) { b in s.bindings && !s.bindings[b].state.Quiescent? }

  /** Whatever still refers to a binding refers to one that is neither quiescent nor freed. */
  lemma NothingDangles(s: Sys)
    requires Reached(s)
    ensures
      && (forall i :: 0 <= i < |s.rows| && !s.rows[i].phase.Free? ==> Live(s, s.rows[i].binding))
      && (forall b :: b in s.handlers ==> Live(s, b))
      && (forall i :: i in s.preparing ==> i < |s.rows| && s.preparing[i] == s.rows[i].binding && Live(s, s.preparing[i]))
  {
    Reachable(s);
    forall i | 0 <= i < |s.rows| && !s.rows[i].phase.Free? ensures Live(s, s.rows[i].binding) { AtRow(s, i); }
    forall b | b in s.handlers ensures Live(s, b) { assert BindingOk(s, b); }
    forall i | i in s.preparing
      ensures i < |s.rows| && s.preparing[i] == s.rows[i].binding && Live(s, s.preparing[i])
    {
      AtRow(s, i);
    }
  }

  /** Destroy finds no row and no handler of the binding; stopping finds no live row at all. */
  lemma DestroyIsLast(s: Sys, b: Ref)
    requires Reached(s)
    ensures
      && (Enabled(s, DoDestroy(b)) ==>
            b !in s.handlers && forall i :: 0 <= i < |s.rows| && s.rows[i].binding == b ==> s.rows[i].phase.Free?)
      && (!s.running ==> forall i :: 0 <= i < |s.rows| ==> s.rows[i].phase.Free?)
  {
    NothingDangles(s);
    Reachable(s);
  }

  /** Session threads can always take the step they owe: none finds its row or binding gone. */
  lemma OwedBySession(s: Sys, i: nat, now: nat)
    requires Reached(s)
    ensures
      && (i in s.preparing ==> Enabled(s, DoAbort(i)) && Enabled(s, DoFinish(i)))
      && (i in s.ticketed ==> Enabled(s, DoDiscard(i)) && Enabled(s, DoCommit(i, now)))
  {
    Reachable(s);
    if i < |s.rows| { AtRow(s, i); }
  }

  /** So can the holder of a cancel ticket. */
  lemma OwedByCanceller(s: Sys, k: nat)
    requires Reached(s) && k in s.cancels
    ensures Enabled(s, DoCancelCommit(k)) && Enabled(s, DoCancelDiscard(k))
  {
    Reachable(s);
  }

  /** So can the client's callbacks and the ingress handlers. */
  lemma OwedByCallback(s: Sys, i: nat, outcome: Outcome, b: Ref)
    requires Reached(s)
    ensures
      && (i in s.outstanding ==> Enabled(s, DoCallback(i, outcome)))
      && (i in s.finishing ==> Enabled(s, DoCompleteEnd(i)))
      && (b in s.handlers ==> Enabled(s, DoLeave(b)))
  {
    Reachable(s);
  }

  // ----- accounting --------------------------------------------------------

  /** Counters equal what they count, accepted sends are conserved, and faults are explained. */
  lemma Accounting(s: Sys)
    requires Reached(s)
    ensures
      && s.queued == Count(s.rows, Waiting) && s.inFlight == Count(s.rows, Flying)
      && (forall b :: b in s.bindings ==> s.bindings[b].outbound == Count(s.rows, OwnedBy(b))
                                          && s.bindings[b].callbacks == s.handlers[b])
      && s.accepted == s.completed + s.failed + s.cancelled + s.dropped + |s.ticketed| + Count(s.rows, Sending)
      && s.faults <= s.early + s.absent + s.odd + s.polls <= s.faults + 1
      && (s.worker.Idle? ==> s.faults == s.early + s.absent + s.odd + s.polls)
  {
    Reachable(s);
    forall b | b in s.bindings
      ensures s.bindings[b].outbound == Count(s.rows, OwnedBy(b)) && s.bindings[b].callbacks == s.handlers[b]
    {
      assert BindingOk(s, b);
    }
  }

  /** The saturating decrements never meet a zero. */
  lemma NoSaturation(s: Sys, i: nat)
    requires Reached(s) && i < |s.rows|
    ensures
      && (s.rows[i].phase.Reserved? || s.rows[i].phase.Ready? ==> 0 < s.queued)
      && (s.rows[i].phase.Submitting? || s.rows[i].phase.Submitted? ==> 0 < s.inFlight)
      && (!s.rows[i].phase.Free? ==> s.rows[i].binding in s.bindings && 0 < s.bindings[s.rows[i].binding].outbound)
  {
    Reachable(s);
    AtRow(s, i);
  }
}
