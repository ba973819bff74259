/**
 After a close: every run spends the work left for the binding, each owed step at least one unit
 of it, and a run that leaves nothing owed leaves the binding one poll away from quiescence.
 */
module EgressClosing {
  import opened EgressModel
  import opened EgressInvariant
  import opened EgressWork
  import opened EgressSteps
  import opened EgressLife
  import opened EgressOrder
  import opened EgressRuns
  import opened EgressCancel
  import opened EgressDrain
  import opened EgressProgress

  // ----- the steps owed to a binding ---------------------------------------

  predicate Mine(s: Sys, i: nat, b: Ref) { i < |s.rows| && s.rows[i].binding == b }

  /** A step that some thread owes the rows and handlers of binding `b`: a handler leaves, a preparation or
      a ticket is settled, a submission is answered other than by want of buffers, a request completes, a
      completion ends, or a cancel finds a waiting row. */
  predicate Owes(s: Sys, step: Step, b: Ref) {
    match step
    case DoLeave(c) => c == b
    case DoAbort(i) => Mine(s, i, b)
    case DoFinish(i) => Mine(s, i, b)
    case DoCommit(i, _) => Mine(s, i, b)
    case DoDiscard(i) => Mine(s, i, b)
    case DoCallback(i, _) => Mine(s, i, b)
    case DoCompleteEnd(i) => Mine(s, i, b)
    case DoSubmitReturn(i, status, _) => Mine(s, i, b) && s.rows[i].phase.Submitting? && !status.NoBuffers?
    case DoCancelCommit(k) =>
      k < |s.slots| && Mine(s, s.slots[k].index, b) && s.rows[s.slots[k].index].phase.Ready? && Names(s, k, s.slots[k].index)
    case _ => false
  }

  /** The row an owed step is for. */
  function RowOf(s: Sys, step: Step): nat
    requires BySession(step) || ByWorker(step)
    requires step.DoCancelCommit? || step.DoCancelDiscard? ==> step.k < |s.slots|
  {
    match step
    case DoCancelCommit(k) => s.slots[k].index
    case DoCancelDiscard(k) => s.slots[k].index
    case _ => step.i
  }

  lemma SessionOwed(s: Sys, step: Step)
    requires Enabled(s, step) && (step.DoAbort? || step.DoFinish? || step.DoDiscard?)
    requires At(s, step.i) && (step.DoFinish? ==> ClosingRef(s, s.rows[step.i].binding))
    ensures |Apply(s, step).rows| == |s.rows| && Apply(s, step).rows[step.i].phase.Free? && s.rows[step.i].phase.Reserved?
  {
  }

  lemma CommitOwed(s: Sys, i: nat, now: nat)
    requires Enabled(s, DoCommit(i, now)) && At(s, i) && ClosingRef(s, s.rows[i].binding)
    ensures |Commit(s, i, now).rows| == |s.rows| && Commit(s, i, now).rows[i].phase.Free? && s.rows[i].phase.Reserved?
  {
  }

  lemma AnswerOwed(s: Sys, step: Step)
    requires Enabled(s, step) && step.DoSubmitReturn? && !step.status.NoBuffers?
    requires At(s, step.i) && s.rows[step.i].phase.Submitting?
    ensures |Apply(s, step).rows| == |s.rows| && Apply(s, step).rows[step.i].binding == s.rows[step.i].binding
    ensures Apply(s, step).rows[step.i].phase.Submitted? || Apply(s, step).rows[step.i].phase.Completing?
  {
  }

  lemma CompletionOwed(s: Sys, step: Step)
    requires Enabled(s, step) && (step.DoCallback? || step.DoCompleteEnd?) && At(s, step.i)
    ensures |Apply(s, step).rows| == |s.rows|
    ensures var r, q := s.rows[step.i], Apply(s, step).rows[step.i];
      if step.DoCallback? then Is(r, Flying) && q.phase.Completing? && q.binding == r.binding
      else r.phase.Completing? && q.phase.Free?
  {
  }

  /** Row `i` is brought closer to free. */
  predicate Lighter(s: Sys, s': Sys, i: nat, b: Ref) {
    |s'.rows| == |s.rows| && i < |s.rows| && Weight(s'.rows[i], Of(b)) < Weight(s.rows[i], Of(b))
  }

  lemma WorkerOwed(s: Sys, step: Step, b: Ref)
    requires Enabled(s, step) && Owes(s, step, b) && ByWorker(step) && At(s, step.i)
    ensures Lighter(s, Apply(s, step), step.i, b)
  {
    if step.DoSubmitReturn? { AnswerOwed(s, step); } else { CompletionOwed(s, step); }
  }

  lemma TicketOwed(s: Sys, step: Step, b: Ref)
    requires Inv(s) && Enabled(s, step) && Owes(s, step, b) && BySession(step) && ClosingRef(s, b)
    ensures step.DoCancelCommit? ==> step.k < |s.slots|
    ensures Lighter(s, Apply(s, step), RowOf(s, step), b)
  {
    if step.DoCancelCommit? {
      CancelCommitRows(s, step.k);
      assert BindingOk(s, b);
    } else {
      AtRow(s, step.i);
      if step.DoCommit? { CommitOwed(s, step.i, step.now); } else { SessionOwed(s, step); }
    }
  }

  /** An owed step brings its row closer to free. */
  lemma OwedRow(s: Sys, step: Step, b: Ref)
    requires Inv(s) && Enabled(s, step) && Owes(s, step, b) && ClosingRef(s, b) && !step.DoLeave?
    ensures Lighter(s, Apply(s, step), RowOf(s, step), b)
  {
    if BySession(step) {
      TicketOwed(s, step, b);
    } else {
      AtRow(s, step.i);
      WorkerOwed(s, step, b);
    }
  }

  lemma LeaveOwed(s: Sys, b: Ref)
    requires Inv(s) && ClosingRef(s, b) && b in s.handlers
    ensures Leave(s, b).rows == s.rows && Leave(s, b).handlers[b] == s.handlers[b] - 1
  {
  }

  /** Every owed step spends some of the work left. */
  lemma OwedSpends(s: Sys, step: Step, b: Ref)
    requires Inv(s) && Enabled(s, step) && Owes(s, step, b) && ClosingRef(s, b)
    ensures Work(Apply(s, step), b) < Work(s, b)
  {
    if step.DoLeave? {
      LeaveOwed(s, b);
    } else {
      WeightsShrink(s, step, b);
      OwedRow(s, step, b);
      LoadShrinks(s.rows, Apply(s, step).rows, Of(b));
      ClosingStays(s, step, b);
    }
  }

  // ----- nothing owed means nothing left -----------------------------------

  ghost predicate NothingOwed(s: Sys, b: Ref) { forall step :: Enabled(s, step) ==> !Owes(s, step, b) }

  /** Exactly when no thread owes a closing binding a step, its handlers have left and each row it still
      has is stranded. */
  lemma OwedExactly(s: Sys, b: Ref)
    requires Inv(s) && ClosingRef(s, b)
    ensures NothingOwed(s, b) <==>
      s.handlers[b] == 0 && forall i :: 0 <= i < |s.rows| && s.rows[i].binding == b ==> s.rows[i].phase.Free? || Stranded(s, i)
  {
    assert BindingOk(s, b);
    if NothingOwed(s, b) {
      assert Enabled(s, DoLeave(b)) ==> !Owes(s, DoLeave(b), b);
      forall i | 0 <= i < |s.rows| && s.rows[i].binding == b ensures s.rows[i].phase.Free? || Stranded(s, i) {
        if !s.rows[i].phase.Free? && !Stranded(s, i) { LiveIsOwed(s, i); }
      }
    } else {
      var step :| Enabled(s, step) && Owes(s, step, b);
      if !step.DoLeave? {
        OwedRow(s, step, b);
        assert Weight(s.rows[RowOf(s, step)], Of(b)) > 0;
        if step.DoCancelCommit? { assert Names(s, step.k, RowOf(s, step)); } else { AtRow(s, step.i); OwedNotReady(s, step); }
      }
    }
  }

  /** Only a cancel is owed to a waiting row. */
  lemma OwedNotReady(s: Sys, step: Step)
    requires (BySession(step) || ByWorker(step)) && !step.DoCancelCommit? && !step.DoCancelDiscard?
    requires Enabled(s, step) && At(s, step.i) && Owes(s, step, s.rows[step.i].binding)
    ensures !s.rows[step.i].phase.Ready?
  {
  }

  lemma LiveIsOwed(s: Sys, i: nat)
    requires Inv(s) && i < |s.rows| && !s.rows[i].phase.Free? && ClosingRef(s, s.rows[i].binding) && !Stranded(s, i)
    ensures exists step :: Enabled(s, step) && Owes(s, step, s.rows[i].binding)
  {
    var k := 0;
    if s.rows[i].phase.Ready? {
      var c :| c in s.cancels && Names(s, c, i);
      k := c;
    }
    AtRow(s, i);
    OwedEnabled(s, i, k);
    assert Owes(s, Owed(s, i, k), s.rows[i].binding);
  }

  // ----- over a whole run --------------------------------------------------

  /** The binding has drained: quiescent, or destroyed since. */
  predicate Drained(s: Sys, b: Ref) { b in s.used && !IsOpen(s, b) && !ClosingRef(s, b) }

  lemma BinderOver(s: Sys, step: Step, b: Ref)
    requires Enabled(s, step) && !BySession(step) && !ByWorker(step) && b in s.used && !IsOpen(s, b)
    ensures !IsOpen(Apply(s, step), b) && b in Apply(s, step).used
    ensures ClosingRef(Apply(s, step), b) ==> ClosingRef(s, b)
  {
    if step.DoClose? && s.bindings[step.b].Open() { CloseRowsLife(SetClosing(s, step.b), step.b, 0); }
  }

  /** A binding that is no longer open never is again. */
  lemma OverStays(s: Sys, step: Step, b: Ref)
    requires Inv(s) && Enabled(s, step) && b in s.used && !IsOpen(s, b)
    ensures b in Apply(s, step).used && !IsOpen(Apply(s, step), b)
    ensures ClosingRef(Apply(s, step), b) ==> ClosingRef(s, b)
  {
    if BySession(step) {
      SessionLife(s, step);
    } else if ByWorker(step) {
      WorkerLife(s, step);
    } else {
      BinderOver(s, step, b);
    }
  }

  /** The client refuses none of the binding's rows for want of buffers. */
  predicate Unrefused(from: Sys, t: Trace, b: Ref)
    requires Runs(from, t)
  {
    t.Then? ==> Unrefused(from, t.before, b) && !Refuses(After(from, t.before), t.step, b)
  }

  /** The steps of a run that were owed to the binding while it was closing. */
  function OwedSteps(from: Sys, t: Trace, b: Ref): nat
    requires Runs(from, t)
  {
    match t
    case Nil => 0
    case Then(before, step) =>
      var u := After(from, before);
      OwedSteps(from, before, b) + if ClosingRef(u, b) && Owes(u, step, b) then 1 else 0
  }

  /** None of the binding's rows waits. */
  ghost predicate NoneWaits(s: Sys, b: Ref) { forall i :: 0 <= i < |s.rows| && s.rows[i].binding == b ==> !s.rows[i].phase.Ready? }

  lemma NoneWaitsStays(s: Sys, step: Step, b: Ref)
    requires Inv(s) && Enabled(s, step) && !IsOpen(s, b) && NoneWaits(s, b) && !Refuses(s, step, b)
    ensures NoneWaits(Apply(s, step), b)
  {
    StepEvolves(s, step);
    forall i | 0 <= i < |s.rows| && Apply(s, step).rows[i].binding == b ensures !Apply(s, step).rows[i].phase.Ready? {
      assert Evolves(s, step, i, Apply(s, step).rows[i]);
    }
  }

  /** How a run that refuses nothing spends the work left. */
  ghost predicate Spent(from: Sys, t: Trace, b: Ref)
    requires Runs(from, t)
  {
    var s := After(from, t);
    && b in s.used && !IsOpen(s, b) && NoneWaits(s, b) && OwedSteps(from, t, b) <= Work(from, b)
    && (ClosingRef(s, b) ==> OwedSteps(from, t, b) + Work(s, b) <= Work(from, b))
  }

  lemma SpentStep(from: Sys, t: Trace, step: Step, b: Ref)
    requires Runs(from, t) && Inv(After(from, t)) && Spent(from, t, b)
    requires Enabled(After(from, t), step) && !Refuses(After(from, t), step, b)
    ensures Spent(from, Then(t, step), b)
  {
    var s := After(from, t);
    OverStays(s, step, b);
    NoneWaitsStays(s, step, b);
    if ClosingRef(s, b) {
      WorkNeverGrows(s, step, b);
      if Owes(s, step, b) { OwedSpends(s, step, b); }
    }
  }

  lemma {:induction false} SpentRun(from: Sys, t: Trace, b: Ref)
    requires Inv(from) && Ordered(from) && ClosingRef(from, b) && NoneWaits(from, b)
    requires Runs(from, t) && Unrefused(from, t, b)
    ensures Spent(from, t, b)
  {
    if t.Then? {
      SpentRun(from, t.before, b);
      RunKeeps(from, t.before);
      SpentStep(from, t.before, t.step, b);
    } else {
      assert BindingOk(from, b);
    }
  }

  lemma NoWorkPolls(v: Sys, b: Ref)
    requires Inv(v) && NoneWaits(v, b)
    ensures ClosingRef(v, b) && (NothingOwed(v, b) || Work(v, b) == 0) ==>
      Enabled(v, DoQuiesce(b, true)) && QuiescentRef(Quiesce(v, b, true), b)
  {
    if ClosingRef(v, b) && (NothingOwed(v, b) || Work(v, b) == 0) {
      OwedExactly(v, b);
      LoadZero(v.rows, Of(b));
      Polled(v, b);
    }
  }

  lemma CloseStarts(s: Sys, b: Ref)
    requires Inv(s) && IsOpen(s, b)
    ensures ClosingRef(Close(s, b), b) && NoneWaits(Close(s, b), b)
  {
    var c := Close(s, b);
    assert BindingOk(s, b);
    CloseRowsLife(SetClosing(s, b), b, 0);
    StepEvolves(s, DoClose(b));
    forall i | 0 <= i < |c.rows| && c.rows[i].binding == b ensures !c.rows[i].phase.Ready? {
      if c.rows[i].phase.Ready? {
        assert Evolves(s, DoClose(b), i, c.rows[i]);
        CloseClears(s, b, i);
      }
    }
  }

  lemma ClosingDrains(c: Sys, b: Ref, t: Trace)
    requires Inv(c) && Ordered(c) && ClosingRef(c, b) && NoneWaits(c, b) && Runs(c, t) && Unrefused(c, t, b)
    ensures var v := After(c, t);
      && OwedSteps(c, t, b) <= Work(c, b)
      && (NothingOwed(v, b) || OwedSteps(c, t, b) == Work(c, b) ==>
            Drained(v, b) || (Enabled(v, DoQuiesce(b, true)) && QuiescentRef(Quiesce(v, b, true), b)))
  {
    SpentRun(c, t, b);
    RunKeeps(c, t);
    NoWorkPolls(After(c, t), b);
  }

  /** Close a binding and let anything happen, except that the client refuses one of its rows for want of
      buffers. At most as many owed steps are taken as there was work left; and once none is owed any more
      the binding has drained, or one poll finds it quiescent. So a run cannot keep taking owed steps for
      ever, and one that leaves none undone drains the binding. */
  lemma ClosedDrains(s: Sys, b: Ref, t: Trace)
    requires Reached(s) && IsOpen(s, b) && Runs(Close(s, b), t) && Unrefused(Close(s, b), t, b)
    ensures var v := After(Close(s, b), t);
      && OwedSteps(Close(s, b), t, b) <= Work(Close(s, b), b)
      && (NothingOwed(v, b) || OwedSteps(Close(s, b), t, b) == Work(Close(s, b), b) ==>
            Drained(v, b) || (Enabled(v, DoQuiesce(b, true)) && QuiescentRef(Quiesce(v, b, true), b)))
  {
    Reachable(s);
    assert Enabled(s, DoClose(b));
    StepInv(s, DoClose(b));
    StepOrdered(s, DoClose(b));
    CloseStarts(s, b);
    ClosingDrains(Close(s, b), b, t);
  }
}
