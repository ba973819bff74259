/**
 A cancelled send that the client refused for want of buffers waits again with its flag set, and may be
 submitted once more before the flag is honoured: when that happens, and when it still can.
 */
module EgressResubmit {
  import opened EgressModel
  import opened EgressInvariant
  import opened EgressSteps
  import opened EgressLife
  import opened EgressOrder
  import opened EgressRuns
  import opened EgressCancel
  import opened EgressDrain

  /** A waiting row that was asked to stop. */
  predicate FlaggedReady(s: Sys, i: nat) { i < |s.rows| && s.rows[i].phase.Ready? && s.rows[i].cancel }

  predicate NoBuffersFor(step: Step, i: nat) { step.DoSubmitReturn? && step.i == i && step.status.NoBuffers? }

  lemma ReturnsFlagged(s: Sys, i: nat, request: nat)
    requires Inv(s) && Enabled(s, DoSubmitReturn(i, NoBuffers, request)) && s.rows[i].cancel
    ensures s.rows[i].phase.Submitting? && FlaggedReady(SubmitReturn(s, i, NoBuffers, request), i)
  {
    AtRow(s, i);
  }

  lemma FlaggedOnlyIf(s: Sys, step: Step, i: nat)
    requires Inv(s) && Enabled(s, step) && AllEvolve(s, step, Apply(s, step)) && FlaggedReady(Apply(s, step), i)
    ensures i < |s.rows|
    ensures || (FlaggedReady(s, i) && Apply(s, step).rows[i] == s.rows[i])
            || (NoBuffersFor(step, i) && s.rows[i].phase.Submitting? && s.rows[i].cancel)
  {
    assert Evolves(s, step, i, Apply(s, step).rows[i]);
    assert Fits(s.rows[i], DutyOf(s, i));
  }

  /** A row waits with its flag set after a step if and only if it did before and was left alone, or the
      client had no buffers for it while it was being submitted with its flag set. */
  lemma FlaggedExactly(s: Sys, step: Step, i: nat)
    requires Reached(s) && Enabled(s, step)
    ensures |Apply(s, step).rows| == |s.rows|
    ensures FlaggedReady(Apply(s, step), i) <==>
      || (FlaggedReady(s, i) && Apply(s, step).rows[i] == s.rows[i])
      || (i < |s.rows| && NoBuffersFor(step, i) && s.rows[i].phase.Submitting? && s.rows[i].cancel)
  {
    Reachable(s);
    StepEvolves(s, step);
    if FlaggedReady(Apply(s, step), i) { FlaggedOnlyIf(s, step, i); }
    if NoBuffersFor(step, i) && s.rows[i].cancel { ReturnsFlagged(s, i, step.request); }
  }

  // ----- such a run --------------------------------------------------------

  /** One committed send, due, with a cancel ticket prepared for it. */
  predicate OneTicketed(s: Sys) {
    && |s.rows| == |s.slots| == 1 && s.rows[0].phase.Ready? && s.rows[0].binding == 1 && s.rows[0].due == 0
    && 1 in s.bindings && s.bindings[1].state.Active? && s.worker.Idle?
    && 0 in s.cancels && Names(s, 0, 0)
  }

  lemma TicketedReached() returns (s: Sys)
    ensures Reached(s) && OneTicketed(s)
  {
    var s0 := CommittedReached();
    Reachable(s0);
    assert SlotOk(s0, 0);
    ReachedNext(s0, DoPrepareCancel(1, 0, "", 0));
    s := PrepareCancel(s0, 0, 0);
  }

  lemma Refused(s: Sys)
    requires OneTicketed(s)
    ensures Enabled(s, DoSubmitBegin(0, 0)) && Enabled(SubmitBegin(s, 0), DoCancelCommit(0))
    ensures var c := CancelCommit(SubmitBegin(s, 0), 0); var r := SubmitReturn(c, 0, NoBuffers, 0);
      Enabled(c, DoSubmitReturn(0, NoBuffers, 0)) && FlaggedReady(r, 0) && Enabled(r, DoSubmitBegin(0, 0))
  {
  }

  /** A send is being submitted when its cancel is committed; the client has no buffers; the send waits,
      flagged, and can be submitted again at once. */
  lemma ResubmittingRun()
    ensures exists s :: Reached(s) && FlaggedReady(s, 0) && Enabled(s, DoSubmitBegin(0, 0))
  {
    var s := TicketedReached();
    Refused(s);
    ReachedNext(s, DoSubmitBegin(0, 0));
    ReachedNext(SubmitBegin(s, 0), DoCancelCommit(0));
    ReachedNext(CancelCommit(SubmitBegin(s, 0), 0), DoSubmitReturn(0, NoBuffers, 0));
  }
}
