/**
 When a cancelled send can still be handed to the client.
 */
module EgressHandover {
  import opened EgressModel
  import opened EgressInvariant
  import opened EgressWork
  import opened EgressSteps
  import opened EgressLife
  import opened EgressOrder
  import opened EgressRuns
  import opened EgressCancel
  import opened EgressDrain
  import opened EgressResubmit

  /** The worker is asking the client to take incarnation `inc` of row `i`. */
  predicate Asking(s: Sys, i: nat, inc: nat) { i < |s.rows| && s.worker == AtSubmit(i, false) && s.rows[i].inc == inc }

  ghost predicate CanBeHanded(s: Sys, i: nat, inc: nat) { exists t :: Runs(s, t) && Asking(After(s, t), i, inc) }

  // ----- when it cannot ----------------------------------------------------

  lemma {:induction false} CloseRowsOutstanding(s: Sys, b: Ref, i: nat)
    requires i <= |s.rows|
    ensures CloseRows(s, b, i).outstanding == s.outstanding
    decreases |s.rows| - i
  {
    if i < |s.rows| { CloseRowsOutstanding(if s.rows[i].binding == b then StopRow(s, i) else s, b, i + 1); }
  }

  lemma SendOutstanding(s: Sys, step: Step)
    requires Enabled(s, step)
    requires step.DoReserve? || step.DoAbort? || step.DoFinish? || step.DoCommit? || step.DoDiscard?
    ensures Apply(s, step).outstanding == s.outstanding
  {
  }

  lemma TicketOutstanding(s: Sys, step: Step)
    requires Enabled(s, step) && (step.DoPrepareCancel? || step.DoCancelCommit? || step.DoCancelDiscard?)
    ensures Apply(s, step).outstanding == s.outstanding
  {
  }

  lemma WorkerOutstanding(s: Sys, step: Step)
    requires Enabled(s, step) && ByWorker(step)
    ensures s.outstanding - (if step.DoCallback? then {step.i} else {}) <= Apply(s, step).outstanding
  {
  }

  lemma OutstandingStep(s: Sys, step: Step, i: nat)
    requires Enabled(s, step) && i in s.outstanding
    ensures i in Apply(s, step).outstanding || (step.DoCallback? && step.i == i)
  {
    if step.DoPrepareCancel? || step.DoCancelCommit? || step.DoCancelDiscard? {
      TicketOutstanding(s, step);
    } else if BySession(step) {
      SendOutstanding(s, step);
    } else if ByWorker(step) {
      WorkerOutstanding(s, step);
    } else if step.DoClose? && s.bindings[step.b].Open() {
      CloseRowsOutstanding(SetClosing(s, step.b), step.b, 0);
    }
  }

  /** Incarnation `inc` is over, finishing, with the client, or waiting for a closed binding. */
  predicate Beyond(s: Sys, i: nat, inc: nat) {
    i < |s.rows| && inc <= s.rows[i].inc
    && (s.rows[i].inc == inc ==>
          || s.rows[i].phase.Free? || s.rows[i].phase.Completing? || i in s.outstanding
          || (s.rows[i].phase.Ready? && ClosingRef(s, s.rows[i].binding)))
  }

  lemma BeyondStep(s: Sys, step: Step, i: nat, inc: nat)
    requires Inv(s) && Enabled(s, step) && Beyond(s, i, inc)
    ensures Beyond(Apply(s, step), i, inc)
  {
    StepEvolves(s, step);
    AtRow(s, i);
    assert Evolves(s, step, i, Apply(s, step).rows[i]);
    if i in s.outstanding {
      OutstandingStep(s, step, i);
    } else if s.rows[i].phase.Ready? && ClosingRef(s, s.rows[i].binding) {
      ClosingStays(s, step, s.rows[i].binding);
    }
  }

  lemma {:induction false} BeyondRun(s: Sys, t: Trace, i: nat, inc: nat)
    requires Inv(s) && Ordered(s) && Runs(s, t) && Beyond(s, i, inc)
    ensures Beyond(After(s, t), i, inc) && !Asking(After(s, t), i, inc)
  {
    if t.Then? {
      BeyondRun(s, t.before, i, inc);
      RunKeeps(s, t.before);
      BeyondStep(After(s, t.before), t.step, i, inc);
    }
    RunKeeps(s, t);
    AtRow(After(s, t), i);
  }

  // ----- when it can -------------------------------------------------------

  function Away(s: Sys): nat { if s.worker.Idle? then 0 else 1 }

  function Measure(s: Sys): nat { 2 * Load(s.rows, Everyone) + Away(s) }

  /** Row `i` waits for an active binding. */
  predicate Waits(s: Sys, i: nat) {
    && i < |s.rows| && s.rows[i].phase.Ready?
    && s.rows[i].binding in s.bindings && s.bindings[s.rows[i].binding].state.Active?
  }

  /** A step that leaves row `i` and the bindings alone and brings the others closer to done. */
  ghost predicate Closer(s: Sys, s': Sys, i: nat) {
    && |s'.rows| == |s.rows| && i < |s.rows| && s'.rows[i] == s.rows[i] && SameLife(s, s') && Measure(s') < Measure(s)
  }

  lemma RowCloser(s: Sys, s': Sys, i: nat, j: nat)
    requires i < |s.rows| && j < |s.rows| == |s'.rows| && s'.rows == s.rows[j := s'.rows[j]] && s'.rows[i] == s.rows[i]
    requires SameLife(s, s')
    requires 2 * Weight(s'.rows[j], Everyone) + Away(s') < 2 * Weight(s.rows[j], Everyone) + Away(s)
    ensures Closer(s, s', i)
  {
    LoadUpdate(s.rows, j, s'.rows[j], Everyone);
  }

  /** The worker's pending call returns. */
  lemma WorkerReturns(s: Sys, i: nat) returns (step: Step)
    requires Inv(s) && Waits(s, i) && !s.worker.Idle? && s.worker != AtSubmit(i, false)
    ensures Enabled(s, step) && Closer(s, Apply(s, step), i)
  {
    var j := s.worker.row;
    AtRow(s, j);
    if s.worker.AtSubmit? {
      step := DoSubmitReturn(j, if s.worker.accepted then SubmitOk else SubmitError, 0);
    } else {
      step := DoCancelReturn(j, s.worker.request, CancelOk);
    }
    WorkerLife(s, step);
    RowCloser(s, Apply(s, step), i, j);
  }

  lemma ClientFinishes(s: Sys, i: nat, j: nat) returns (step: Step)
    requires Inv(s) && Waits(s, i) && s.worker.Idle? && j < |s.rows|
    requires s.rows[j].phase.Submitted? || s.rows[j].phase.Completing?
    ensures Enabled(s, step) && Closer(s, Apply(s, step), i)
  {
    AtRow(s, j);
    step := if s.rows[j].phase.Submitted? then DoCallback(j, Completed) else DoCompleteEnd(j);
    WorkerLife(s, step);
    RowCloser(s, Apply(s, step), i, j);
  }

  // ----- something can be selected -----------------------------------------

  function Latest(rows: seq<Row>): (now: nat)
    ensures forall i :: 0 <= i < |rows| ==> rows[i].due <= now
  {
    if rows == [] then 0
    else
      var rest := Latest(rows[..|rows| - 1]);
      if rest < rows[|rows| - 1].due then rows[|rows| - 1].due else rest
  }

  predicate ReadyFor(r: Row, b: Ref) { r.phase.Ready? && r.binding == b }

  /** The waiting row of a binding with the least number among the first `n`. */
  lemma {:induction false} LeastOrder(s: Sys, b: Ref, n: nat, i: nat) returns (j: nat)
    requires i < n <= |s.rows| && ReadyFor(s.rows[i], b)
    ensures j < n && ReadyFor(s.rows[j], b)
    ensures forall m :: 0 <= m < n && ReadyFor(s.rows[m], b) ==> s.rows[j].order <= s.rows[m].order
    decreases n
  {
    var last := n - 1;
    if i < last {
      j := LeastOrder(s, b, last, i);
      if ReadyFor(s.rows[last], b) && s.rows[last].order < s.rows[j].order { j := last; }
    } else {
      j := last;
      if m :| 0 <= m < last && ReadyFor(s.rows[m], b) {
        j := LeastOrder(s, b, last, m);
        if s.rows[last].order < s.rows[j].order { j := last; }
      }
    }
  }

  /** Better to submit: earlier due, or the same and first. */
  predicate Sooner(s: Sys, i: nat, j: nat)
    requires i < |s.rows| && j < |s.rows|
  {
    s.rows[i].due < s.rows[j].due || (s.rows[i].due == s.rows[j].due && i <= j)
  }

  lemma {:induction false} Soonest(s: Sys, now: nat, n: nat, i: nat) returns (j: nat)
    requires i < n <= |s.rows| && Eligible(s, i, now)
    ensures j < n && Eligible(s, j, now) && forall m :: 0 <= m < n && Eligible(s, m, now) ==> Sooner(s, j, m)
    decreases n
  {
    var last := n - 1;
    if m :| 0 <= m < last && Eligible(s, m, now) {
      j := Soonest(s, now, last, m);
      if Eligible(s, last, now) && s.rows[last].due < s.rows[j].due { j := last; }
    } else {
      j := last;
    }
  }

  /** With nothing in flight and row `i` waiting for an active binding, the worker has a row to submit. */
  lemma SomethingToSubmit(s: Sys, i: nat) returns (j: nat, now: nat)
    requires Inv(s) && Waits(s, i) && s.worker.Idle?
    requires forall m :: 0 <= m < |s.rows| ==> !s.rows[m].phase.Submitted? && !s.rows[m].phase.Completing?
    ensures Enabled(s, DoSubmitBegin(j, now))
  {
    now := Latest(s.rows);
    var first := LeastOrder(s, s.rows[i].binding, |s.rows|, i);
    forall m | 0 <= m < |s.rows| ensures !s.rows[m].InFlight() { assert Fits(s.rows[m], DutyOf(s, m)); }
    assert !Blocked(s, first);
    j := Soonest(s, now, |s.rows|, first);
    assert Selected(s, j, now);
  }

  lemma SubmitCloser(s: Sys, i: nat, j: nat, now: nat)
    requires Inv(s) && Waits(s, i) && Enabled(s, DoSubmitBegin(j, now)) && j != i
    ensures Closer(s, SubmitBegin(s, j), i)
  {
    WorkerLife(s, DoSubmitBegin(j, now));
    RowCloser(s, SubmitBegin(s, j), i, j);
  }

  /** A step towards the client. */
  lemma TowardsClient(s: Sys, i: nat) returns (step: Step)
    requires Inv(s) && Waits(s, i)
    ensures Enabled(s, step)
    ensures Asking(Apply(s, step), i, s.rows[i].inc) || Closer(s, Apply(s, step), i)
  {
    AtRow(s, i);
    if !s.worker.Idle? {
      step := WorkerReturns(s, i);
    } else if j :| 0 <= j < |s.rows| && (s.rows[j].phase.Submitted? || s.rows[j].phase.Completing?) {
      step := ClientFinishes(s, i, j);
    } else {
      var j, now := SomethingToSubmit(s, i);
      step := DoSubmitBegin(j, now);
      if j != i { SubmitCloser(s, i, j, now); }
    }
  }

  /** Extends a run until the worker asks the client to take the row. */
  lemma HandOver(s0: Sys, t: Trace, i: nat) returns (t': Trace)
    requires Inv(s0) && Ordered(s0) && Runs(s0, t) && Waits(After(s0, t), i)
    ensures Runs(s0, t') && Asking(After(s0, t'), i, After(s0, t).rows[i].inc)
    decreases Measure(After(s0, t))
  {
    RunKeeps(s0, t);
    var s := After(s0, t);
    var step := TowardsClient(s, i);
    t' := Then(t, step);
    assert After(s0, t') == Apply(s, step);
    if !Asking(Apply(s, step), i, s.rows[i].inc) { t' := HandOver(s0, t', i); }
  }

  /** A waiting row of an open binding can be handed over. */
  lemma OpenCanBeHanded(s: Sys, i: nat)
    requires Reached(s) && i < |s.rows| && s.rows[i].phase.Ready? && IsOpen(s, s.rows[i].binding)
    ensures CanBeHanded(s, i, s.rows[i].inc)
  {
    Reachable(s);
    var t := Nil;
    var b := s.rows[i].binding;
    if s.bindings[b].state.Opening? {
      t := Then(Nil, DoActivate(b));
      assert Runs(s, Nil) && Enabled(s, DoActivate(b));
    }
    var t' := HandOver(s, t, i);
  }

  /** A cancelled send can still be handed to the client if and only if the client is being asked to take it,
      or it waits again, after having been refused, for a binding that is still open. */
  lemma HandedExactly(s: Sys, i: nat)
    requires Reached(s) && i < |s.rows| && s.rows[i].wanted
    ensures CanBeHanded(s, i, s.rows[i].inc) <==>
      s.worker == AtSubmit(i, false) || (FlaggedReady(s, i) && IsOpen(s, s.rows[i].binding))
  {
    Reachable(s);
    AtRow(s, i);
    var inc := s.rows[i].inc;
    if s.worker == AtSubmit(i, false) {
      assert Runs(s, Nil) && Asking(After(s, Nil), i, inc);
    } else if s.rows[i].phase.Ready? && IsOpen(s, s.rows[i].binding) {
      OpenCanBeHanded(s, i);
    } else {
      assert Beyond(s, i, inc);
      forall t | Runs(s, t) ensures !Asking(After(s, t), i, inc) { BeyondRun(s, t, i, inc); }
    }
  }

  /** At the moment its cancel is committed, a committed send can still be handed to the client if and only
      if the client is being asked to take it just then. */
  lemma CancelledCanBeHanded(u: Sys, k: nat, i: nat)
    requires Reached(u) && k in u.cancels && Names(u, k, i) && !u.rows[i].phase.Reserved?
    ensures CanBeHanded(CancelCommit(u, k), i, u.rows[i].inc) <==> u.worker == AtSubmit(i, false)
  {
    Reachable(u);
    ReachedNext(u, DoCancelCommit(k));
    var c := CancelCommit(u, k);
    Reachable(c);
    CancelCommitRows(u, k);
    AtRow(u, i);
    AtRow(c, i);
    var inc := u.rows[i].inc;
    if u.worker == AtSubmit(i, false) {
      assert Runs(c, Nil) && Asking(After(c, Nil), i, inc);
    } else {
      assert Beyond(c, i, inc);
      forall t | Runs(c, t) ensures !Asking(After(c, t), i, inc) { BeyondRun(c, t, i, inc); }
    }
  }
}
