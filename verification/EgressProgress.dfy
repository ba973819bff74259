/**
 Draining: the work left for a closed binding never grows unless the client refuses for want of
 buffers, some owed step always shrinks it, and quiescence stays reachable exactly when no row
 is stranded.
 */
module EgressProgress {
  import opened EgressModel
  import opened EgressInvariant
  import opened EgressWork
  import opened EgressSteps
  import opened EgressLife
  import opened EgressOrder
  import opened EgressRuns
  import opened EgressCancel
  import opened EgressDrain

  // ----- when a waiting row outlives its binding's close -------------------

  /** Every waiting row belongs to an open binding. */
  ghost predicate Clear(s: Sys) { forall i :: 0 <= i < |s.rows| && s.rows[i].phase.Ready? ==> IsOpen(s, s.rows[i].binding) }

  /** The client refuses, for want of buffers, a row whose binding was closed meanwhile. */
  predicate RefusedAfterClose(s: Sys, step: Step) {
    step.DoSubmitReturn? && step.status.NoBuffers? && step.i < |s.rows| && !IsOpen(s, s.rows[step.i].binding)
  }

  lemma BinderOpen(s: Sys, step: Step, b: Ref)
    requires Enabled(s, step) && !BySession(step) && !ByWorker(step) && IsOpen(s, b) && b in s.used && step != DoClose(b)
    ensures IsOpen(Apply(s, step), b)
  {
    if step.DoClose? && s.bindings[step.b].Open() { CloseRowsLife(SetClosing(s, step.b), step.b, 0); }
  }

  lemma OpenStays(s: Sys, step: Step, b: Ref)
    requires Inv(s) && Enabled(s, step) && IsOpen(s, b) && step != DoClose(b)
    ensures IsOpen(Apply(s, step), b)
  {
    assert BindingOk(s, b);
    if BySession(step) {
      SessionLife(s, step);
    } else if ByWorker(step) {
      WorkerLife(s, step);
    } else {
      BinderOpen(s, step, b);
    }
  }

  /** Closing leaves none of the binding's rows waiting. */
  lemma CloseClears(s: Sys, b: Ref, i: nat)
    requires Inv(s) && b in s.bindings && s.bindings[b].Open() && i < |s.rows| && s.rows[i].binding == b
    ensures !Close(s, b).rows[i].phase.Ready?
  {
    assert BindingOk(s, b);
    CloseRowsAt(SetClosing(s, b), b, 0, i);
  }

  lemma ClearKept(s: Sys, step: Step, i: nat)
    requires Inv(s) && Clear(s) && Enabled(s, step) && !RefusedAfterClose(s, step)
    requires i < |Apply(s, step).rows| && Apply(s, step).rows[i].phase.Ready?
    ensures IsOpen(Apply(s, step), Apply(s, step).rows[i].binding)
  {
    StepEvolves(s, step);
    assert Evolves(s, step, i, Apply(s, step).rows[i]);
    var b := s.rows[i].binding;
    assert IsOpen(s, b);
    if step == DoClose(b) { CloseClears(s, b, i); } else { OpenStays(s, step, b); }
  }

  lemma ClearLost(s: Sys, step: Step)
    requires Inv(s) && Enabled(s, step) && RefusedAfterClose(s, step)
    ensures !Clear(Apply(s, step))
  {
    AtRow(s, step.i);
    WorkerLife(s, step);
    var q := Apply(s, step).rows[step.i];
    assert q.phase.Ready? && q.binding == s.rows[step.i].binding;
  }

  /** A step leaves a waiting row to a closed binding if and only if it is such a refusal. */
  lemma ClearExactly(s: Sys, step: Step)
    requires Inv(s) && Clear(s) && Enabled(s, step)
    ensures Clear(Apply(s, step)) <==> !RefusedAfterClose(s, step)
  {
    if RefusedAfterClose(s, step) {
      ClearLost(s, step);
    } else {
      forall i | 0 <= i < |Apply(s, step).rows| && Apply(s, step).rows[i].phase.Ready?
        ensures IsOpen(Apply(s, step), Apply(s, step).rows[i].binding)
      {
        ClearKept(s, step, i);
      }
    }
  }

  // ----- the work left -----------------------------------------------------

  /** Steps still owed to the rows and handlers of a binding. */
  function Work(s: Sys, b: Ref): nat { Load(s.rows, Of(b)) + s.handlers[b] }

  predicate Refuses(s: Sys, step: Step, b: Ref) {
    step.DoSubmitReturn? && step.status.NoBuffers? && step.i < |s.rows| && s.rows[step.i].binding == b
  }

  lemma WeightsShrink(s: Sys, step: Step, b: Ref)
    requires Inv(s) && Enabled(s, step) && ClosingRef(s, b) && !Refuses(s, step, b)
    ensures |Apply(s, step).rows| == |s.rows|
    ensures forall i :: 0 <= i < |s.rows| ==> Weight(Apply(s, step).rows[i], Of(b)) <= Weight(s.rows[i], Of(b))
  {
    var s' := Apply(s, step);
    StepEvolves(s, step);
    assert BindingOk(s, b);
    forall i | 0 <= i < |s.rows| ensures Weight(s'.rows[i], Of(b)) <= Weight(s.rows[i], Of(b)) {
      assert Evolves(s, step, i, s'.rows[i]);
      assert RowOk(s.rows[i]) by { assert Fits(s.rows[i], DutyOf(s, i)); }
    }
  }

  /** Once a binding is closing, no step adds work for it, except such a refusal. */
  lemma WorkNeverGrows(s: Sys, step: Step, b: Ref)
    requires Inv(s) && Enabled(s, step) && ClosingRef(s, b) && !Refuses(s, step, b)
    ensures Work(Apply(s, step), b) <= Work(s, b)
  {
    WeightsShrink(s, step, b);
    LoadShrinks(s.rows, Apply(s, step).rows, Of(b));
    ClosingStays(s, step, b);
  }

  // ----- a step that is owed -----------------------------------------------

  /** A step some thread owes row `i`; `k` is a cancel ticket naming it while it waits. */
  function Owed(s: Sys, i: nat, k: nat): Step
    requires i < |s.rows| && !s.rows[i].phase.Free?
  {
    match s.rows[i].phase
    case Reserved => if i in s.preparing then DoFinish(i) else DoDiscard(i)
    case Ready => DoCancelCommit(k)
    case Submitting => DoSubmitReturn(i, if s.worker == AtSubmit(i, true) then SubmitOk else SubmitError, 0)
    case Submitted => DoCallback(i, Completed)
    case Completing => DoCompleteEnd(i)
  }

  lemma OwedEnabled(s: Sys, i: nat, k: nat)
    requires At(s, i) && !s.rows[i].phase.Free? && (s.rows[i].phase.Ready? ==> k in s.cancels)
    ensures Enabled(s, Owed(s, i, k))
  {
  }

  lemma ReleaseShrinks(s: Sys, i: nat, k: nat)
    requires At(s, i) && !s.rows[i].phase.Free? && Enabled(s, Owed(s, i, k)) && ClosingRef(s, s.rows[i].binding)
    requires s.rows[i].phase.Reserved? || s.rows[i].phase.Completing?
    ensures Apply(s, Owed(s, i, k)).rows == s.rows[i := Blank(s.rows[i])]
  {
  }

  lemma FlightShrinks(s: Sys, i: nat, k: nat)
    requires At(s, i) && !s.rows[i].phase.Free? && Enabled(s, Owed(s, i, k)) && Is(s.rows[i], Flying)
    ensures var s' := Apply(s, Owed(s, i, k));
      |s'.rows| == |s.rows| && s'.rows[i].binding == s.rows[i].binding
      && (s'.rows[i].phase.Completing? || (s.rows[i].phase.Submitting? && s'.rows[i].phase.Submitted?))
  {
  }

  /** Every live row of a closing binding, unless stranded, is owed a step that brings it closer to free. */
  lemma OwedShrinks(s: Sys, i: nat, k: nat)
    requires Inv(s) && i < |s.rows| && !s.rows[i].phase.Free? && ClosingRef(s, s.rows[i].binding)
    requires s.rows[i].phase.Ready? ==> k in s.cancels && Names(s, k, i)
    ensures Enabled(s, Owed(s, i, k)) && !Refuses(s, Owed(s, i, k), s.rows[i].binding)
    ensures Work(Apply(s, Owed(s, i, k)), s.rows[i].binding) < Work(s, s.rows[i].binding)
  {
    var b := s.rows[i].binding;
    AtRow(s, i);
    OwedEnabled(s, i, k);
    var step := Owed(s, i, k);
    WeightsShrink(s, step, b);
    OwedRowShrinks(s, i, k);
    LoadShrinks(s.rows, Apply(s, step).rows, Of(b));
    ClosingStays(s, step, b);
  }

  lemma OwedRowShrinks(s: Sys, i: nat, k: nat)
    requires Inv(s) && At(s, i) && !s.rows[i].phase.Free? && ClosingRef(s, s.rows[i].binding)
    requires s.rows[i].phase.Ready? ==> k in s.cancels && Names(s, k, i)
    requires Enabled(s, Owed(s, i, k))
    ensures var s' := Apply(s, Owed(s, i, k)); var b := s.rows[i].binding;
      |s'.rows| == |s.rows| && Weight(s'.rows[i], Of(b)) < Weight(s.rows[i], Of(b))
  {
    if s.rows[i].phase.Ready? {
      CancelCommitRows(s, k);
    } else if Is(s.rows[i], Flying) {
      FlightShrinks(s, i, k);
    } else {
      ReleaseShrinks(s, i, k);
    }
    assert BindingOk(s, s.rows[i].binding);
  }

  // ----- quiescence is reachable exactly when no row is stranded -----------

  ghost predicate Unstranded(s: Sys, b: Ref) { forall i :: 0 <= i < |s.rows| && s.rows[i].binding == b ==> !Stranded(s, i) }

  predicate QuiescentRef(s: Sys, b: Ref) { b in s.bindings && s.bindings[b].state.Quiescent? }

  ghost predicate CanDrain(s: Sys, b: Ref) { exists t :: Runs(s, t) && QuiescentRef(After(s, t), b) }

  lemma TicketKept(s: Sys, i: nat, k: nat, j: nat, c: nat)
    requires Inv(s) && i < |s.rows| && !s.rows[i].phase.Free? && Enabled(s, Owed(s, i, k)) && ClosingRef(s, s.rows[i].binding)
    requires s.rows[i].phase.Ready? ==> Names(s, k, i)
    requires c in s.cancels && Names(s, c, j) && (Owed(s, i, k).DoCancelCommit? ==> j != i)
    ensures var s' := Apply(s, Owed(s, i, k)); c in s'.cancels && c < |s'.slots| && s'.slots[c] == s.slots[c]
  {
    var step := Owed(s, i, k);
    if step.DoCancelCommit? {
      var t := s.slots[k];
      StopRowLife(s.(cancels := s.cancels - {k}, slots := s.slots[k := t.(reserved := false)]), t.index);
    } else if BySession(step) {
      SessionLife(s, step);
    } else {
      WorkerLife(s, step);
    }
  }

  /** The owed step strands no row. */
  lemma OwedStrandsNone(s: Sys, i: nat, k: nat)
    requires Inv(s) && i < |s.rows| && !s.rows[i].phase.Free? && ClosingRef(s, s.rows[i].binding)
    requires s.rows[i].phase.Ready? ==> k in s.cancels && Names(s, k, i)
    requires Unstranded(s, s.rows[i].binding) && Enabled(s, Owed(s, i, k))
    ensures Unstranded(Apply(s, Owed(s, i, k)), s.rows[i].binding)
  {
    var step, b := Owed(s, i, k), s.rows[i].binding;
    var s' := Apply(s, step);
    StepEvolves(s, step);
    if s.rows[i].phase.Ready? { CancelCommitRows(s, k); }
    assert BindingOk(s, b);
    forall j | 0 <= j < |s'.rows| && s'.rows[j].binding == b ensures !Stranded(s', j) {
      assert Evolves(s, step, j, s'.rows[j]);
      if s'.rows[j].phase.Ready? {
        assert s.rows[j] == s'.rows[j];
        assert !Stranded(s, j);
        var c :| c in s.cancels && Names(s, c, j);
        TicketKept(s, i, k, j, c);
      }
    }
  }

  /** With no row and no handler left, one poll makes the binding quiescent. */
  lemma Polled(s: Sys, b: Ref)
    requires Inv(s) && ClosingRef(s, b) && s.handlers[b] == 0
    requires forall i :: 0 <= i < |s.rows| && s.rows[i].binding == b ==> s.rows[i].phase.Free?
    ensures Enabled(s, DoQuiesce(b, true)) && QuiescentRef(Quiesce(s, b, true), b)
  {
    assert BindingOk(s, b);
    CountZero(s.rows, OwnedBy(b));
  }

  lemma LeaveStrandsNone(s: Sys, b: Ref)
    requires Inv(s) && ClosingRef(s, b) && 0 < s.handlers[b] && Unstranded(s, b)
    ensures Enabled(s, DoLeave(b)) && ClosingRef(Leave(s, b), b) && Unstranded(Leave(s, b), b)
    ensures Work(Leave(s, b), b) < Work(s, b)
  {
    assert BindingOk(s, b);
    var s' := Leave(s, b);
    forall i | 0 <= i < |s'.rows| && s'.rows[i].binding == b ensures !Stranded(s', i) {
      assert !Stranded(s, i);
      if s'.rows[i].phase.Ready? {
        var c :| c in s.cancels && Names(s, c, i);
        assert Names(s', c, i);
      }
    }
  }

  /** Extends a run step by step until the binding is quiescent. */
  lemma Drain(s0: Sys, t: Trace, b: Ref) returns (t': Trace)
    requires Inv(s0) && Ordered(s0) && Runs(s0, t)
    requires ClosingRef(After(s0, t), b) && Unstranded(After(s0, t), b)
    ensures Runs(s0, t') && QuiescentRef(After(s0, t'), b)
    decreases Work(After(s0, t), b)
  {
    var s := After(s0, t);
    RunKeeps(s0, t);
    if 0 < s.handlers[b] {
      LeaveStrandsNone(s, b);
      t' := Drain(s0, Then(t, DoLeave(b)), b);
    } else if i :| 0 <= i < |s.rows| && s.rows[i].binding == b && !s.rows[i].phase.Free? {
      var step := NextOwed(s, i);
      t' := Drain(s0, Then(t, step), b);
    } else {
      Polled(s, b);
      t' := Then(t, DoQuiesce(b, true));
    }
  }

  lemma NextOwed(s: Sys, i: nat) returns (step: Step)
    requires Inv(s) && i < |s.rows| && !s.rows[i].phase.Free?
    requires ClosingRef(s, s.rows[i].binding) && Unstranded(s, s.rows[i].binding)
    ensures Enabled(s, step)
    ensures var b := s.rows[i].binding; var s' := Apply(s, step);
      ClosingRef(s', b) && Unstranded(s', b) && Work(s', b) < Work(s, b)
  {
    var k := 0;
    if s.rows[i].phase.Ready? {
      assert !Stranded(s, i);
      var c :| c in s.cancels && Names(s, c, i);
      k := c;
    }
    OwedShrinks(s, i, k);
    OwedStrandsNone(s, i, k);
    step := Owed(s, i, k);
    ClosingStays(s, step, s.rows[i].binding);
  }

  /** A closing binding can still become quiescent if and only if it has no stranded row. */
  lemma DrainsExactly(s: Sys, b: Ref)
    requires Reached(s) && ClosingRef(s, b)
    ensures CanDrain(s, b) <==> Unstranded(s, b)
  {
    Reachable(s);
    if Unstranded(s, b) {
      var t := Drain(s, Nil, b);
    } else {
      var i :| 0 <= i < |s.rows| && s.rows[i].binding == b && Stranded(s, i);
      forall t | Runs(s, t) ensures !QuiescentRef(After(s, t), b) { StrandedForever(s, t, i); }
    }
  }

  /** The steps of a run that refuse a closed binding's row for want of buffers. */
  predicate NeverRefused(from: Sys, t: Trace)
    requires Runs(from, t)
  {
    t.Then? ==> NeverRefused(from, t.before) && !RefusedAfterClose(After(from, t.before), t.step)
  }

  lemma {:induction false} ClearRun(from: Sys, t: Trace)
    requires Inv(from) && Ordered(from) && Clear(from) && Runs(from, t) && NeverRefused(from, t)
    ensures Clear(After(from, t))
  {
    if t.Then? {
      ClearRun(from, t.before);
      RunKeeps(from, t.before);
      ClearExactly(After(from, t.before), t.step);
    }
  }

  /** If the client never refuses a closed binding's row for want of buffers, closing always drains. */
  lemma CloseDrains(n: nat, t: Trace, b: Ref)
    requires Runs(Started(n), t) && NeverRefused(Started(n), t) && ClosingRef(After(Started(n), t), b)
    ensures CanDrain(After(Started(n), t), b)
  {
    var s := After(Started(n), t);
    StartedInv(n);
    ClearRun(Started(n), t);
    DrainsExactly(s, b);
    forall i | 0 <= i < |s.rows| && s.rows[i].binding == b ensures !Stranded(s, i) {
      assert s.rows[i].phase.Ready? ==> IsOpen(s, s.rows[i].binding);
    }
  }
}
