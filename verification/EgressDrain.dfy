/**
 When a closed binding drains. ENOBUFS may return a row of a closed binding to READY, where
 the worker never looks again: the binding can still become quiescent exactly when a pending
 cancel ticket names every such row.
 */
module EgressDrain {
  import opened EgressModel
  import opened EgressInvariant
  import opened EgressSteps
  import opened EgressLife
  import opened EgressOrder
  import opened EgressRuns
  import opened EgressCancel

  // ----- the stranded row --------------------------------------------------

  /** A waiting row of a closing binding that no pending cancel ticket names. */
  ghost predicate Stranded(s: Sys, i: nat) {
    && i < |s.rows| && s.rows[i].phase.Ready? && ClosingRef(s, s.rows[i].binding)
    && forall k :: k in s.cancels ==> !Names(s, k, i)
  }

  /** Ticket `k` was there before, or is for another row. */
  predicate OldOrOther(s: Sys, s': Sys, k: nat, i: nat) {
    k < |s'.slots| && (s'.slots[k].index != i || (k in s.cancels && k < |s.slots| && s'.slots[k] == s.slots[k]))
  }

  lemma PrepareTicket(s: Sys, b: Ref, j: nat, id: string, k: nat, i: nat)
    requires Slots(s) && Shape(s) && Enabled(s, DoPrepareCancel(b, j, id, k))
    requires i < |s.rows| && ClosingRef(s, s.rows[i].binding)
    ensures forall c :: c in PrepareCancel(s, j, k).cancels ==> OldOrOther(s, PrepareCancel(s, j, k), c, i)
  {
  }

  lemma CancelCommitTicket(s: Sys, k: nat, i: nat)
    requires Shape(s) && k < |s.slots|
    ensures forall c :: c in CancelCommit(s, k).cancels ==> OldOrOther(s, CancelCommit(s, k), c, i)
  {
    var t := s.slots[k];
    var s2 := s.(cancels := s.cancels - {k}, slots := s.slots[k := t.(reserved := false)]);
    if t.index < |s.rows| { StopRowLife(s2, t.index); }
  }

  lemma CancelDiscardTicket(s: Sys, k: nat, i: nat)
    requires Shape(s) && k < |s.slots|
    ensures forall c :: c in CancelDiscard(s, k).cancels ==> OldOrOther(s, CancelDiscard(s, k), c, i)
  {
  }

  /** No ticket can be prepared for a row of a closing binding. */
  lemma NoNewTicket(s: Sys, step: Step, i: nat)
    requires Inv(s) && Enabled(s, step) && i < |s.rows| && ClosingRef(s, s.rows[i].binding)
    ensures forall k :: k in Apply(s, step).cancels ==> OldOrOther(s, Apply(s, step), k, i)
  {
    assert BindingOk(s, s.rows[i].binding);
    if step.DoPrepareCancel? {
      PrepareTicket(s, step.b, step.i, step.id, step.k, i);
    } else if step.DoCancelCommit? {
      CancelCommitTicket(s, step.k, i);
    } else if step.DoCancelDiscard? {
      CancelDiscardTicket(s, step.k, i);
    } else if BySession(step) {
      SessionLife(s, step);
    } else if ByWorker(step) {
      WorkerLife(s, step);
    } else {
      BinderLife(s, step, s.rows[i].binding);
    }
  }

  /** Nothing in the protocol moves a stranded row: it stays READY and its binding CLOSING. */
  lemma StrandedStep(s: Sys, step: Step, i: nat)
    requires Inv(s) && Enabled(s, step) && Stranded(s, i)
    ensures Stranded(Apply(s, step), i) && Apply(s, step).rows[i] == s.rows[i]
  {
    StepEvolves(s, step);
    AtRow(s, i);
    ClosingStays(s, step, s.rows[i].binding);
    NoNewTicket(s, step, i);
    assert Evolves(s, step, i, Apply(s, step).rows[i]);
  }

  /** Once stranded, always stranded: the binding never becomes quiescent, is never destroyed,
      and the processor can never stop. */
  lemma {:induction false} StrandedForever(s: Sys, t: Trace, i: nat)
    requires Inv(s) && Ordered(s) && Stranded(s, i) && Runs(s, t)
    ensures Stranded(After(s, t), i) && After(s, t).rows[i] == s.rows[i]
    ensures !Enabled(After(s, t), DoStop)
  {
    if t.Then? {
      StrandedForever(s, t.before, i);
      RunKeeps(s, t.before);
      StrandedStep(After(s, t.before), t.step, i);
    }
  }

  // ----- such a run --------------------------------------------------------

  predicate Faultless(s: Sys) { s.faults == s.early == s.absent == s.odd == s.polls == 0 }

  /** One row, one active binding, nothing owed. */
  predicate Fresh(s: Sys) {
    && s.running && |s.rows| == 1 && s.rows[0].phase.Free? && s.worker.Idle? && s.cancels == {}
    && 1 in s.bindings && s.bindings[1].state.Active? && Faultless(s)
  }

  /** A send being prepared; then committed and due. */
  predicate OnePrepared(s: Sys) {
    && s.running && |s.rows| == 1 && s.rows[0].phase.Reserved? && s.rows[0].binding == 1 && s.rows[0].delay == 0
    && 0 in s.preparing && s.preparing[0] == 1 && s.worker.Idle? && s.cancels == {} && s.rows[0].sendId == ""
    && 1 in s.bindings && s.bindings[1].state.Active? && Faultless(s)
  }

  predicate OneCommitted(s: Sys) {
    && |s.rows| == 1 && s.rows[0].phase.Ready? && s.rows[0].binding == 1 && s.rows[0].due == 0
    && 1 in s.bindings && s.bindings[1].state.Active? && s.worker.Idle? && s.cancels == {} && s.rows[0].sendId == ""
    && Faultless(s)
  }

  lemma FreshReached() returns (s: Sys)
    ensures Reached(s) && Fresh(s)
  {
    assert Runs(Started(1), Nil) && After(Started(1), Nil) == Started(1);
    ReachedNext(Started(1), DoInit(1));
    s := Init(Started(1), 1);
    ReachedNext(s, DoActivate(1));
    s := Activate(s, 1);
  }

  lemma PreparedReached() returns (s: Sys)
    ensures Reached(s) && OnePrepared(s)
  {
    s := FreshReached();
    ReachedNext(s, DoReserve(1, 0, "", 0));
    s := Reserve(s, 1, 0, "", 0);
  }

  lemma CommittedReached() returns (s: Sys)
    ensures Reached(s) && OneCommitted(s)
  {
    s := PreparedReached();
    ReachedNext(s, DoFinish(0));
    var f := Finish(s, 0);
    ReachedNext(f, DoCommit(0, 0));
    s := Commit(f, 0, 0);
  }

  lemma Ended(s: Sys)
    requires OneCommitted(s)
    ensures Enabled(s, DoSubmitBegin(0, 0)) && Enabled(SubmitBegin(s, 0), DoClose(1))
    ensures var c := Close(SubmitBegin(s, 0), 1);
      Enabled(c, DoSubmitReturn(0, NoBuffers, 0)) && Stranded(SubmitReturn(c, 0, NoBuffers, 0), 0)
  {
    var b := SubmitBegin(s, 0);
    var c := SetClosing(b, 1);
    assert CloseRows(c, 1, 0) == CloseRows(StopRow(c, 0), 1, 1) == StopRow(c, 0);
  }

  /** One send, closed while the client is being asked, and the client then has no buffers:
      closing does not always drain. */
  lemma StrandingRun()
    ensures exists s :: Reached(s) && Stranded(s, 0)
  {
    var s := CommittedReached();
    Ended(s);
    ReachedNext(s, DoSubmitBegin(0, 0));
    ReachedNext(SubmitBegin(s, 0), DoClose(1));
    ReachedNext(Close(SubmitBegin(s, 0), 1), DoSubmitReturn(0, NoBuffers, 0));
  }
}
