/**
 What the processor's fault counter counts: which steps raise it, that others never do, and runs in
 which it rises although every part does what it may.
 */
module EgressFaults {
  import opened EgressModel
  import opened EgressInvariant
  import opened EgressSteps
  import opened EgressOrder
  import opened EgressRuns
  import opened EgressDrain

  /** The steps that raise the counter: a failed poll, a return to a submission whose completion came
      first, a cancel of a request the client no longer has, an unexpected answer to a cancel. */
  predicate Faulting(s: Sys, step: Step) {
    match step
    case DoPollFault => true
    case DoSubmitReturn(i, _, _) => i < |s.rows| && !s.rows[i].phase.Submitting?
    case DoCancelReturn(i, _, status) => status.CancelAbsent? || (status.CancelError? && i < |s.rows| && s.rows[i].phase.Submitted?)
    case DoInit(_) => false
    case DoActivate(_) => false
    case DoClose(_) => false
    case DoQuiesce(_, _) => false
    case DoDestroy(_) => false
    case DoEnter(_) => false
    case DoLeave(_) => false
    case DoStop => false
    case DoReserve(_, _, _, _) => false
    case DoAbort(_) => false
    case DoFinish(_) => false
    case DoCommit(_, _) => false
    case DoDiscard(_) => false
    case DoPrepareCancel(_, _, _, _) => false
    case DoCancelCommit(_) => false
    case DoCancelDiscard(_) => false
    case DoSubmitBegin(_, _) => false
    case DoClientAccept(_) => false
    case DoCallback(_, _) => false
    case DoCompleteEnd(_) => false
    case DoCancelBegin(_) => false
  }

  function Rise(s: Sys, step: Step): nat { if Faulting(s, step) then 1 else 0 }

  lemma StopRowFaults(s: Sys, i: nat)
    requires i < |s.rows|
    ensures StopRow(s, i).faults == s.faults && |StopRow(s, i).rows| == |s.rows|
  {
  }

  lemma {:induction false} CloseRowsFaults(s: Sys, b: Ref, i: nat)
    requires i <= |s.rows|
    ensures CloseRows(s, b, i).faults == s.faults
    decreases |s.rows| - i
  {
    if i < |s.rows| {
      StopRowFaults(s, i);
      CloseRowsFaults(if s.rows[i].binding == b then StopRow(s, i) else s, b, i + 1);
    }
  }

  lemma CancelCommitFaults(s: Sys, k: nat)
    requires Inv(s) && Enabled(s, DoCancelCommit(k))
    ensures CancelCommit(s, k).faults == s.faults
  {
    assert SlotOk(s, k);
    var t := s.slots[k];
    StopRowFaults(s.(cancels := s.cancels - {k}, slots := s.slots[k := t.(reserved := false)]), t.index);
  }

  lemma SendFaults(s: Sys, step: Step)
    requires Enabled(s, step) && (step.DoReserve? || step.DoAbort? || step.DoFinish? || step.DoCommit? || step.DoDiscard?)
    requires At(s, step.i)
    ensures Apply(s, step).faults == s.faults
  {
  }

  lemma SessionFaults(s: Sys, step: Step)
    requires Inv(s) && Enabled(s, step) && BySession(step)
    ensures Apply(s, step).faults == s.faults
  {
    if step.DoCancelCommit? {
      CancelCommitFaults(s, step.k);
    } else if step.DoCancelDiscard? {
      assert SlotOk(s, step.k);
    } else if !step.DoPrepareCancel? {
      AtRow(s, step.i);
      SendFaults(s, step);
    }
  }

  lemma SubmitReturnFaults(s: Sys, i: nat, status: SubmitStatus, request: nat)
    requires At(s, i) && Enabled(s, DoSubmitReturn(i, status, request))
    ensures SubmitReturn(s, i, status, request).faults == s.faults + Rise(s, DoSubmitReturn(i, status, request))
  {
  }

  lemma CallbackFaults(s: Sys, i: nat, outcome: Outcome)
    requires At(s, i) && i in s.outstanding
    ensures Callback(s, i, outcome).faults == s.faults
  {
  }

  lemma CompleteEndFaults(s: Sys, i: nat)
    requires At(s, i) && i in s.finishing
    ensures CompleteEnd(s, i).faults == s.faults
  {
  }

  lemma CancelReturnFaults(s: Sys, i: nat, request: nat, status: CancelStatus)
    requires At(s, i) && Enabled(s, DoCancelReturn(i, request, status))
    ensures CancelReturn(s, i, request, status).faults == s.faults + Rise(s, DoCancelReturn(i, request, status))
  {
  }

  lemma SubmitFaults(s: Sys, step: Step)
    requires Enabled(s, step) && (step.DoSubmitBegin? || step.DoClientAccept? || step.DoSubmitReturn?)
    requires At(s, step.i)
    ensures Apply(s, step).faults == s.faults + Rise(s, step)
  {
    if step.DoSubmitReturn? { SubmitReturnFaults(s, step.i, step.status, step.request); }
  }

  lemma ClientFaults(s: Sys, step: Step)
    requires Enabled(s, step) && (step.DoCallback? || step.DoCompleteEnd? || step.DoCancelBegin? || step.DoCancelReturn?)
    requires At(s, step.i)
    ensures Apply(s, step).faults == s.faults + Rise(s, step)
  {
    if step.DoCallback? {
      CallbackFaults(s, step.i, step.outcome);
    } else if step.DoCompleteEnd? {
      CompleteEndFaults(s, step.i);
    } else if step.DoCancelReturn? {
      CancelReturnFaults(s, step.i, step.request, step.cancelStatus);
    }
  }

  lemma BinderFaults(s: Sys, step: Step)
    requires Inv(s) && Enabled(s, step) && !BySession(step) && !ByWorker(step)
    ensures Apply(s, step).faults == s.faults + Rise(s, step)
  {
    if step.DoClose? && s.bindings[step.b].Open() { CloseRowsFaults(SetClosing(s, step.b), step.b, 0); }
    if step.DoLeave? { assert BindingOk(s, step.b); }
  }

  /** A step raises the counter, by one, if and only if it is one of those. */
  lemma FaultsExactly(s: Sys, step: Step)
    requires Inv(s) && Enabled(s, step)
    ensures Apply(s, step).faults == s.faults + if Faulting(s, step) then 1 else 0
  {
    if BySession(step) {
      SessionFaults(s, step);
    } else if step.DoSubmitBegin? || step.DoClientAccept? || step.DoSubmitReturn? {
      AtRow(s, step.i);
      SubmitFaults(s, step);
    } else if ByWorker(step) {
      AtRow(s, step.i);
      ClientFaults(s, step);
    } else {
      BinderFaults(s, step);
    }
  }

  /** No step of the run is one of those. */
  predicate Unfaulted(from: Sys, t: Trace)
    requires Runs(from, t)
  {
    t.Then? ==> Unfaulted(from, t.before) && !Faulting(After(from, t.before), t.step)
  }

  /** The counter is zero after a run if and only if no poll failed, no completion came before its
      submission returned, no cancel was answered as absent and none unexpectedly. */
  lemma {:induction false} CounterStaysZero(n: nat, t: Trace)
    requires Runs(Started(n), t)
    ensures After(Started(n), t).faults == 0 <==> Unfaulted(Started(n), t)
  {
    if t.Then? {
      CounterStaysZero(n, t.before);
      StartedInv(n);
      RunKeeps(Started(n), t.before);
      FaultsExactly(After(Started(n), t.before), t.step);
    }
  }

  // ----- two such runs -----------------------------------------------------

  /** The client has taken the only request on; submit_one has not resumed. */
  predicate JustTaken(s: Sys) {
    && |s.rows| == 1 && s.rows[0].phase.Submitting? && s.rows[0].binding == 1 && s.worker == AtSubmit(0, true)
    && 0 in s.outstanding && 1 in s.bindings && s.bindings[1].state.Active? && s.cancels == {} && Faultless(s)
  }

  lemma TakenReached() returns (s: Sys)
    ensures Reached(s) && JustTaken(s)
  {
    var s0 := CommittedReached();
    assert Selected(s0, 0, 0);
    ReachedNext(s0, DoSubmitBegin(0, 0));
    var s1 := SubmitBegin(s0, 0);
    ReachedNext(s1, DoClientAccept(0));
    s := ClientAccept(s1, 0);
  }

  /** The client completes a request before submit_one has resumed. */
  lemma OvertakenRun()
    ensures exists s :: Reached(s) && s.worker.Idle? && 0 < s.faults && s.absent == s.odd == s.polls == 0
  {
    var s := TakenReached();
    ReachedNext(s, DoCallback(0, Completed));
    var s1 := Callback(s, 0, Completed);
    ReachedNext(s1, DoSubmitReturn(0, SubmitOk, 0));
  }

  /** One request with the client, its binding closed. */
  lemma ClosedInFlight() returns (s: Sys)
    ensures Reached(s) && |s.rows| == 1 && s.rows[0].phase.Submitted? && s.rows[0].cancel && s.rows[0].binding in s.bindings
    ensures s.worker.Idle? && 0 in s.outstanding && Faultless(s)
  {
    var s0 := TakenReached();
    ReachedNext(s0, DoSubmitReturn(0, SubmitOk, 0));
    var s1 := SubmitReturn(s0, 0, SubmitOk, 0);
    ReachedNext(s1, DoClose(1));
    var c := SetClosing(s1, 1);
    assert CloseRows(c, 1, 0) == CloseRows(StopRow(c, 0), 1, 1) == StopRow(c, 0);
    s := Close(s1, 1);
  }

  /** A request completes between the worker's decision to cancel it and the client's answer. */
  lemma AbsentRun()
    ensures exists s :: Reached(s) && s.worker.Idle? && 0 < s.faults && s.early == s.odd == s.polls == 0
  {
    var s := ClosedInFlight();
    ReachedNext(s, DoCancelBegin(0));
    var s1 := CancelBegin(s, 0);
    ReachedNext(s1, DoCallback(0, Completed));
    var s2 := Callback(s1, 0, Completed);
    ReachedNext(s2, DoCancelReturn(0, s.rows[0].request, CancelAbsent));
  }
}
