/**
 What a step leaves as it was: the life of bindings, and the cancel tickets.
 */
module EgressLife {
  import opened EgressModel
  import opened EgressInvariant
  import opened EgressSteps

  predicate ClosingRef(s: Sys, b: Ref) { b in s.bindings && s.bindings[b].state.Closing? }

  /** Bindings keep their state and callbacks, and none comes or goes. */
  ghost predicate SameLife(s: Sys, s': Sys) {
    && s'.bindings.Keys == s.bindings.Keys && s'.used == s.used && s'.handlers == s.handlers
    && forall c :: c in s.bindings ==> s'.bindings[c].state == s.bindings[c].state
  }

  ghost predicate SameTickets(s: Sys, s': Sys) { s'.slots == s.slots && s'.cancels == s.cancels }

  lemma StopRowLife(s: Sys, i: nat)
    requires i < |s.rows|
    ensures SameLife(s, StopRow(s, i)) && SameTickets(s, StopRow(s, i))
  {
  }

  lemma {:induction false} CloseRowsLife(s: Sys, b: Ref, i: nat)
    requires i <= |s.rows|
    ensures SameLife(s, CloseRows(s, b, i)) && SameTickets(s, CloseRows(s, b, i))
    decreases |s.rows| - i
  {
    if i < |s.rows| {
      StopRowLife(s, i);
      CloseRowsLife(if s.rows[i].binding == b then StopRow(s, i) else s, b, i + 1);
    }
  }

  lemma ReserveLife(s: Sys, step: Step)
    requires Enabled(s, step) && (step.DoReserve? || step.DoAbort?)
    ensures SameLife(s, Apply(s, step)) && SameTickets(s, Apply(s, step))
  {
  }

  lemma FinishLife(s: Sys, i: nat)
    requires Enabled(s, DoFinish(i))
    ensures SameLife(s, Finish(s, i)) && SameTickets(s, Finish(s, i))
  {
  }

  lemma DiscardLife(s: Sys, i: nat)
    requires Enabled(s, DoDiscard(i))
    ensures SameLife(s, Discard(s, i)) && SameTickets(s, Discard(s, i))
  {
  }

  lemma CommitLife(s: Sys, step: Step)
    requires Enabled(s, step) && step.DoCommit?
    ensures SameLife(s, Apply(s, step)) && SameTickets(s, Apply(s, step))
  {
  }

  lemma CancelLife(s: Sys, step: Step)
    requires Enabled(s, step) && (step.DoPrepareCancel? || step.DoCancelCommit? || step.DoCancelDiscard?)
    ensures SameLife(s, Apply(s, step))
  {
    if step.DoCancelCommit? && s.slots[step.k].index < |s.rows| {
      var t := s.slots[step.k];
      StopRowLife(s.(cancels := s.cancels - {step.k}, slots := s.slots[step.k := t.(reserved := false)]), t.index);
    }
  }

  lemma SubmitLife(s: Sys, step: Step)
    requires Enabled(s, step) && (step.DoSubmitBegin? || step.DoClientAccept? || step.DoSubmitReturn?)
    ensures SameLife(s, Apply(s, step)) && SameTickets(s, Apply(s, step))
  {
  }

  lemma CompleteLife(s: Sys, step: Step)
    requires Enabled(s, step) && (step.DoCallback? || step.DoCompleteEnd?)
    ensures SameLife(s, Apply(s, step)) && SameTickets(s, Apply(s, step))
  {
  }

  lemma CancelReturnLife(s: Sys, step: Step)
    requires Enabled(s, step) && (step.DoCancelBegin? || step.DoCancelReturn?)
    ensures SameLife(s, Apply(s, step)) && SameTickets(s, Apply(s, step))
  {
  }

  lemma WorkerLife(s: Sys, step: Step)
    requires Enabled(s, step) && ByWorker(step)
    ensures SameLife(s, Apply(s, step)) && SameTickets(s, Apply(s, step))
  {
    if step.DoSubmitBegin? || step.DoClientAccept? || step.DoSubmitReturn? {
      SubmitLife(s, step);
    } else if step.DoCallback? || step.DoCompleteEnd? {
      CompleteLife(s, step);
    } else {
      CancelReturnLife(s, step);
    }
  }

  lemma SessionLife(s: Sys, step: Step)
    requires Enabled(s, step) && BySession(step)
    ensures SameLife(s, Apply(s, step))
    ensures !(step.DoPrepareCancel? || step.DoCancelCommit? || step.DoCancelDiscard?) ==> SameTickets(s, Apply(s, step))
  {
    if step.DoPrepareCancel? || step.DoCancelCommit? || step.DoCancelDiscard? {
      CancelLife(s, step);
    } else if step.DoReserve? || step.DoAbort? {
      ReserveLife(s, step);
    } else if step.DoFinish? {
      FinishLife(s, step.i);
    } else if step.DoDiscard? {
      DiscardLife(s, step.i);
    } else {
      CommitLife(s, step);
    }
  }

  /** Binding steps change no ticket. */
  lemma BinderTickets(s: Sys, step: Step)
    requires Enabled(s, step) && !BySession(step) && !ByWorker(step)
    ensures SameTickets(s, Apply(s, step))
  {
    if step.DoClose? && s.bindings[step.b].Open() { CloseRowsLife(SetClosing(s, step.b), step.b, 0); }
  }

  /** The other steps change at most one binding's state, and no ticket. */
  lemma BinderLife(s: Sys, step: Step, b: Ref)
    requires Enabled(s, step) && !BySession(step) && !ByWorker(step) && ClosingRef(s, b) && b in s.used
    ensures ClosingRef(Apply(s, step), b) || (step.DoQuiesce? && step.b == b && s.bindings[b].outbound == 0)
    ensures SameTickets(s, Apply(s, step)) && Apply(s, step).handlers[b] <= s.handlers[b]
  {
    if step.DoClose? && s.bindings[step.b].Open() { CloseRowsLife(SetClosing(s, step.b), step.b, 0); }
  }

  /** A closing binding stays closing until it is quiescent, and no handler enters it. */
  lemma ClosingStays(s: Sys, step: Step, b: Ref)
    requires Inv(s) && Enabled(s, step) && ClosingRef(s, b)
    ensures ClosingRef(Apply(s, step), b) || (step.DoQuiesce? && step.b == b && s.bindings[b].outbound == 0)
    ensures Apply(s, step).handlers[b] <= s.handlers[b]
  {
    assert BindingOk(s, b);
    if BySession(step) {
      SessionLife(s, step);
    } else if ByWorker(step) {
      WorkerLife(s, step);
    } else {
      BinderLife(s, step, b);
    }
  }
}
