/**
 When a row is flagged to stop: since it was last taken or last asked for, something asked it to.
 */
module EgressFlags {
  import opened EgressModel
  import opened EgressInvariant
  import opened EgressSteps
  import opened EgressOrder
  import opened EgressRuns
  import opened EgressCancel

  /** The step asks the send in row `i`, which the client has, to stop; or finds the client not ready to be asked. */
  predicate Stops(s: Sys, step: Step, i: nat)
    requires i < |s.rows|
  {
    var r := s.rows[i];
    && (r.phase.Submitting? || r.phase.Submitted?)
    && match step
       case DoClose(b) => b == r.binding && IsOpen(s, b)
       case DoCancelCommit(k) => Names(s, k, i)
       case DoCancelReturn(j, request, status) =>
         j == i && r.phase.Submitted? && r.request == request && (status.CancelBusy? || status.CancelError?)
       case _ => false
  }

  /** What a step may do to the flag of a row that stays or becomes live and is not finishing. */
  predicate FlagStep(s: Sys, step: Step, i: nat, q: Row)
    requires i < |s.rows|
  {
    q.phase.Free? || q.phase.Completing? ||
      if step.DoReserve? && step.i == i then !q.cancel
      else !s.rows[i].phase.Free? && !s.rows[i].phase.Completing?
           && (q.cancel <==> (s.rows[i].cancel && step != DoCancelBegin(i)) || Stops(s, step, i))
  }

  ghost predicate AllFlags(s: Sys, step: Step, s': Sys) {
    |s'.rows| == |s.rows| && forall i :: 0 <= i < |s.rows| ==> FlagStep(s, step, i, s'.rows[i])
  }

  lemma OneRowFlags(s: Sys, step: Step, s': Sys, i: nat)
    requires i < |s.rows| == |s'.rows| && s'.rows == s.rows[i := s'.rows[i]] && FlagStep(s, step, i, s'.rows[i])
    requires !step.DoClose? && !step.DoCancelCommit?
    requires (step.DoReserve? || step.DoCancelBegin? || step.DoCancelReturn?) ==> step.i == i
    ensures AllFlags(s, step, s')
  {
  }

  lemma StoppedFlags(s: Sys, step: Step, i: nat, q: Row)
    requires i < |s.rows| && (step.DoClose? || step.DoCancelCommit?)
    requires var r := s.rows[i]; var hit := if step.DoClose? then step.b == r.binding && IsOpen(s, step.b) else Names(s, step.k, i);
      q == if hit then Stopped(r) else r
    ensures FlagStep(s, step, i, q)
  {
  }

  lemma SendFlags(s: Sys, step: Step)
    requires step.DoAbort? || step.DoFinish? || step.DoDiscard? || step.DoCommit?
    requires Enabled(s, step) && At(s, step.i)
    ensures AllFlags(s, step, Apply(s, step))
  {
    OneRowFlags(s, step, Apply(s, step), step.i);
  }

  lemma ReserveFlags(s: Sys, b: Ref, i: nat, id: string, delay: nat)
    requires Enabled(s, DoReserve(b, i, id, delay)) && !s.rows[i].cancel
    ensures AllFlags(s, DoReserve(b, i, id, delay), Reserve(s, b, i, id, delay))
  {
    OneRowFlags(s, DoReserve(b, i, id, delay), Reserve(s, b, i, id, delay), i);
  }

  lemma SubmitFlags(s: Sys, step: Step)
    requires Enabled(s, step) && (step.DoSubmitBegin? || step.DoClientAccept?) && At(s, step.i)
    ensures AllFlags(s, step, Apply(s, step))
  {
    OneRowFlags(s, step, Apply(s, step), step.i);
  }

  lemma SubmitReturnFlags(s: Sys, i: nat, status: SubmitStatus, request: nat)
    requires Enabled(s, DoSubmitReturn(i, status, request)) && At(s, i)
    ensures AllFlags(s, DoSubmitReturn(i, status, request), SubmitReturn(s, i, status, request))
  {
    OneRowFlags(s, DoSubmitReturn(i, status, request), SubmitReturn(s, i, status, request), i);
  }

  lemma CallbackFlags(s: Sys, step: Step)
    requires Enabled(s, step) && (step.DoCallback? || step.DoCompleteEnd?) && At(s, step.i)
    ensures AllFlags(s, step, Apply(s, step))
  {
    OneRowFlags(s, step, Apply(s, step), step.i);
  }

  lemma CancelBeginFlags(s: Sys, i: nat)
    requires Enabled(s, DoCancelBegin(i)) && At(s, i)
    ensures AllFlags(s, DoCancelBegin(i), CancelBegin(s, i))
  {
    OneRowFlags(s, DoCancelBegin(i), CancelBegin(s, i), i);
  }

  lemma CancelReturnFlags(s: Sys, i: nat, request: nat, status: CancelStatus)
    requires i < |s.rows| && At(s, i)
    ensures AllFlags(s, DoCancelReturn(i, request, status), CancelReturn(s, i, request, status))
  {
    OneRowFlags(s, DoCancelReturn(i, request, status), CancelReturn(s, i, request, status), i);
  }

  lemma SubmitterFlags(s: Sys, step: Step)
    requires Inv(s) && Enabled(s, step) && (step.DoSubmitBegin? || step.DoClientAccept? || step.DoSubmitReturn?)
    ensures AllFlags(s, step, Apply(s, step))
  {
    AtRow(s, step.i);
    if step.DoSubmitReturn? {
      SubmitReturnFlags(s, step.i, step.status, step.request);
    } else {
      SubmitFlags(s, step);
    }
  }

  lemma WorkerFlags(s: Sys, step: Step)
    requires Inv(s) && Enabled(s, step)
    requires step.DoCallback? || step.DoCompleteEnd? || step.DoCancelBegin? || step.DoCancelReturn?
    ensures AllFlags(s, step, Apply(s, step))
  {
    AtRow(s, step.i);
    if step.DoCallback? || step.DoCompleteEnd? {
      CallbackFlags(s, step);
    } else if step.DoCancelBegin? {
      CancelBeginFlags(s, step.i);
    } else {
      CancelReturnFlags(s, step.i, step.request, step.cancelStatus);
    }
  }

  lemma CloseFlags(s: Sys, b: Ref)
    requires Inv(s) && b in s.bindings
    ensures AllFlags(s, DoClose(b), Close(s, b))
  {
    assert BindingOk(s, b);
    forall i | 0 <= i < |s.rows| ensures |Close(s, b).rows| == |s.rows| && FlagStep(s, DoClose(b), i, Close(s, b).rows[i]) {
      if s.bindings[b].Open() { CloseRowsAt(SetClosing(s, b), b, 0, i); }
      LiveOnly(s, i);
      if !s.rows[i].phase.Completing? && !s.rows[i].phase.Free? { StoppedFlags(s, DoClose(b), i, Close(s, b).rows[i]); }
    }
  }

  lemma LiveOnly(s: Sys, i: nat)
    requires Inv(s) && i < |s.rows|
    ensures s.rows[i].phase.Free? ==> !s.rows[i].cancel
  {
    AtRow(s, i);
  }

  lemma CancelCommitFlags(s: Sys, k: nat)
    requires Inv(s) && Enabled(s, DoCancelCommit(k))
    ensures AllFlags(s, DoCancelCommit(k), CancelCommit(s, k))
  {
    CancelCommitRows(s, k);
    forall i | 0 <= i < |s.rows| ensures FlagStep(s, DoCancelCommit(k), i, CancelCommit(s, k).rows[i]) {
      StoppedFlags(s, DoCancelCommit(k), i, CancelCommit(s, k).rows[i]);
    }
  }

  lemma QuietFlags(s: Sys, step: Step, s': Sys)
    requires s'.rows == s.rows && !step.DoReserve? && !step.DoCancelBegin? && !step.DoCancelReturn?
    requires !step.DoClose? && !step.DoCancelCommit?
    ensures AllFlags(s, step, s')
  {
  }

  lemma SessionFlags(s: Sys, step: Step)
    requires Inv(s) && Enabled(s, step) && BySession(step)
    ensures AllFlags(s, step, Apply(s, step))
  {
    if step.DoCancelCommit? {
      CancelCommitFlags(s, step.k);
    } else if step.DoPrepareCancel? || step.DoCancelDiscard? {
      QuietFlags(s, step, Apply(s, step));
    } else if step.DoReserve? {
      LiveOnly(s, step.i);
      ReserveFlags(s, step.b, step.i, step.id, step.delay);
    } else {
      AtRow(s, step.i);
      SendFlags(s, step);
    }
  }

  /** What every step does to every flag. */
  lemma StepFlags(s: Sys, step: Step)
    requires Inv(s) && Enabled(s, step)
    ensures AllFlags(s, step, Apply(s, step))
  {
    if step.DoClose? {
      CloseFlags(s, step.b);
    } else if step.DoSubmitBegin? || step.DoClientAccept? || step.DoSubmitReturn? {
      SubmitterFlags(s, step);
    } else if ByWorker(step) {
      WorkerFlags(s, step);
    } else if BySession(step) {
      SessionFlags(s, step);
    } else {
      QuietFlags(s, step, Apply(s, step));
    }
  }

  // ----- over runs ---------------------------------------------------------

  /** Since row `i` was last taken, and since the worker last set out to have it cancelled, something asked it
      to stop. */
  predicate StopWanted(from: Sys, t: Trace, i: nat)
    requires Runs(from, t)
  {
    && t.Then? && t.step != DoCancelBegin(i) && !(t.step.DoReserve? && t.step.i == i)
    && (StopWanted(from, t.before, i) || (i < |After(from, t.before).rows| && Stops(After(from, t.before), t.step, i)))
  }

  predicate FlagTold(r: Row, wanted: bool) { !r.phase.Free? && !r.phase.Completing? ==> (r.cancel <==> wanted) }

  /** After any run a send the client may have is flagged exactly if something has asked it to stop that the worker
      has not yet passed on. */
  lemma {:induction false} FlagsTellTheRun(n: nat, t: Trace, i: nat)
    requires Runs(Started(n), t) && i < n
    ensures |After(Started(n), t).rows| == n && FlagTold(After(Started(n), t).rows[i], StopWanted(Started(n), t, i))
  {
    if t.Then? {
      var s := After(Started(n), t.before);
      StartedInv(n);
      EgressRuns.RunKeeps(Started(n), t.before);
      FlagsTellTheRun(n, t.before, i);
      StepFlags(s, t.step);
      assert FlagStep(s, t.step, i, Apply(s, t.step).rows[i]);
    }
  }

  /** So the client is asked to cancel only what was asked to stop since it was last asked. */
  lemma AskedOnce(n: nat, t: Trace, i: nat)
    requires Runs(Started(n), Then(t, DoCancelBegin(i)))
    ensures i < n && StopWanted(Started(n), t, i)
  {
    SameSize(n, t);
    FlagsTellTheRun(n, t, i);
  }

  lemma {:induction false} SameSize(n: nat, t: Trace)
    requires Runs(Started(n), t)
    ensures |After(Started(n), t).rows| == n
  {
    if t.Then? {
      StartedInv(n);
      EgressRuns.RunKeeps(Started(n), t.before);
      SameSize(n, t.before);
      StepFlags(After(Started(n), t.before), t.step);
    }
  }
}
