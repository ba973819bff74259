/**
 Rows against the steps that made them: whose send a row holds, when it was committed and as
 which one of its binding, when it may be submitted, and which request the client gave it.
 */
module EgressHistory {
  import opened Basics
  import opened EgressModel
  import opened EgressInvariant
  import opened EgressSteps
  import opened EgressOrder
  import opened EgressRuns
  import opened EgressCancel

  // ----- what a run says about a row ---------------------------------------

  /** The step that last took row `i` for a send. */
  function Taking(t: Trace, i: nat): Option<Step> {
    match t
    case Nil => None
    case Then(before, step) => if step.DoReserve? && step.i == i then Some(step) else Taking(before, i)
  }

  /** When row `i` was committed since it was last taken. */
  function CommittedAt(t: Trace, i: nat): Option<nat> {
    match t
    case Nil => None
    case Then(before, step) =>
      if step.DoReserve? && step.i == i then None
      else if step.DoCommit? && step.i == i then Some(step.now)
      else CommittedAt(before, i)
  }

  /** The request the client last returned for row `i`. */
  function RequestFor(t: Trace, i: nat): Option<nat> {
    match t
    case Nil => None
    case Then(before, step) =>
      if step.DoSubmitReturn? && step.i == i && step.status.SubmitOk? then Some(step.request) else RequestFor(before, i)
  }

  /** Times are 64-bit numbers; later ones count as the last. */
  function Saturated(time: nat): nat { if 0xFFFF_FFFF_FFFF_FFFF < time then 0xFFFF_FFFF_FFFF_FFFF else time }

  // ----- one step ----------------------------------------------------------

  /** What a step may do to the fields of a row that stays or becomes live. */
  predicate FieldsStep(s: Sys, step: Step, i: nat, q: Row)
    requires i < |s.rows|
  {
    var r := s.rows[i];
    q.phase.Free? ||
      if step.DoReserve? && step.i == i then
        q.phase.Reserved? && q.binding == step.b && q.sendId == step.id && q.delay == step.delay
      else
        && !r.phase.Free? && q.binding == r.binding && q.sendId == r.sendId && q.delay == r.delay
        && (if step.DoCommit? && step.i == i then CommitFields(s, r, step.now, q)
            else q.due == r.due && q.order == r.order && (q.Committed() ==> r.Committed()))
        && (q.phase.Submitted? ==>
              if step.DoSubmitReturn? && step.i == i && step.status.SubmitOk? then q.request == step.request
              else r.phase.Submitted? && q.request == r.request)
  }

  /** A committed row is due after its delay and has the binding's next number. */
  predicate CommitFields(s: Sys, r: Row, now: nat, q: Row) {
    && q.phase.Ready? && r.binding in s.bindings && q.order == s.bindings[r.binding].next
    && q.due == Saturated(now + r.delay)
  }

  ghost predicate AllFields(s: Sys, step: Step, s': Sys) {
    |s'.rows| == |s.rows| && forall i :: 0 <= i < |s.rows| ==> FieldsStep(s, step, i, s'.rows[i])
  }

  lemma OneRowFields(s: Sys, step: Step, s': Sys, i: nat)
    requires i < |s.rows| == |s'.rows| && s'.rows == s.rows[i := s'.rows[i]] && FieldsStep(s, step, i, s'.rows[i])
    requires (step.DoReserve? || step.DoCommit? || step.DoSubmitReturn?) ==> step.i == i
    ensures AllFields(s, step, s')
  {
  }

  lemma StoppedFields(s: Sys, step: Step, i: nat)
    requires i < |s.rows| && !step.DoReserve? && !step.DoCommit? && !step.DoSubmitReturn?
    ensures FieldsStep(s, step, i, s.rows[i]) && FieldsStep(s, step, i, Stopped(s.rows[i]))
  {
  }

  lemma SendFields(s: Sys, step: Step)
    requires Enabled(s, step) && (step.DoReserve? || step.DoAbort? || step.DoFinish? || step.DoDiscard?)
    requires At(s, step.i)
    ensures AllFields(s, step, Apply(s, step))
  {
    OneRowFields(s, step, Apply(s, step), step.i);
  }

  /** Committing a send on an open binding fixes its due time and its number. */
  lemma CommitFixes(s: Sys, i: nat, now: nat)
    requires Inv(s) && Enabled(s, DoCommit(i, now))
    ensures var r, q := s.rows[i], Commit(s, i, now).rows[i];
      && r.binding in s.bindings
      && (if s.running && IsOpen(s, r.binding) then CommitFields(s, r, now, q) && q.sendId == r.sendId && q.delay == r.delay
          else q == Blank(r))
  {
    AtRow(s, i);
  }

  lemma CommitStep(s: Sys, i: nat, now: nat)
    requires Inv(s) && Enabled(s, DoCommit(i, now))
    ensures AllFields(s, DoCommit(i, now), Commit(s, i, now))
  {
    AtRow(s, i);
    CommitFixes(s, i, now);
    OneRowFields(s, DoCommit(i, now), Commit(s, i, now), i);
  }

  lemma SubmitFields(s: Sys, step: Step)
    requires Enabled(s, step) && (step.DoSubmitBegin? || step.DoClientAccept?) && At(s, step.i)
    ensures AllFields(s, step, Apply(s, step))
  {
    OneRowFields(s, step, Apply(s, step), step.i);
  }

  lemma SubmitReturnFields(s: Sys, i: nat, status: SubmitStatus, request: nat)
    requires Enabled(s, DoSubmitReturn(i, status, request)) && At(s, i)
    ensures AllFields(s, DoSubmitReturn(i, status, request), SubmitReturn(s, i, status, request))
  {
    OneRowFields(s, DoSubmitReturn(i, status, request), SubmitReturn(s, i, status, request), i);
  }

  lemma CallbackFields(s: Sys, step: Step)
    requires Enabled(s, step) && (step.DoCallback? || step.DoCompleteEnd?) && At(s, step.i)
    ensures AllFields(s, step, Apply(s, step))
  {
    OneRowFields(s, step, Apply(s, step), step.i);
  }

  lemma CancelBeginFields(s: Sys, i: nat)
    requires Enabled(s, DoCancelBegin(i)) && At(s, i)
    ensures AllFields(s, DoCancelBegin(i), CancelBegin(s, i))
  {
    OneRowFields(s, DoCancelBegin(i), CancelBegin(s, i), i);
  }

  lemma CancelReturnFields(s: Sys, i: nat, request: nat, status: CancelStatus)
    requires i < |s.rows| && At(s, i)
    ensures AllFields(s, DoCancelReturn(i, request, status), CancelReturn(s, i, request, status))
  {
    OneRowFields(s, DoCancelReturn(i, request, status), CancelReturn(s, i, request, status), i);
  }

  lemma WorkerFields(s: Sys, step: Step)
    requires Inv(s) && Enabled(s, step) && ByWorker(step)
    ensures AllFields(s, step, Apply(s, step))
  {
    AtRow(s, step.i);
    if step.DoSubmitBegin? || step.DoClientAccept? {
      SubmitFields(s, step);
    } else if step.DoSubmitReturn? {
      SubmitReturnFields(s, step.i, step.status, step.request);
    } else if step.DoCallback? || step.DoCompleteEnd? {
      CallbackFields(s, step);
    } else if step.DoCancelBegin? {
      CancelBeginFields(s, step.i);
    } else {
      CancelReturnFields(s, step.i, step.request, step.cancelStatus);
    }
  }

  lemma CloseFields(s: Sys, b: Ref)
    requires Inv(s) && b in s.bindings
    ensures AllFields(s, DoClose(b), Close(s, b))
  {
    assert BindingOk(s, b);
    forall i | 0 <= i < |s.rows| ensures |Close(s, b).rows| == |s.rows| && FieldsStep(s, DoClose(b), i, Close(s, b).rows[i]) {
      StoppedFields(s, DoClose(b), i);
      if s.bindings[b].Open() { CloseRowsAt(SetClosing(s, b), b, 0, i); }
    }
  }

  lemma QuietFields(s: Sys, step: Step, s': Sys)
    requires s'.rows == s.rows && !step.DoReserve? && !step.DoCommit? && !step.DoSubmitReturn?
    ensures AllFields(s, step, s')
  {
  }

  lemma CancelCommitFields(s: Sys, k: nat)
    requires Inv(s) && Enabled(s, DoCancelCommit(k))
    ensures AllFields(s, DoCancelCommit(k), CancelCommit(s, k))
  {
    CancelCommitRows(s, k);
    forall i | 0 <= i < |s.rows| ensures FieldsStep(s, DoCancelCommit(k), i, CancelCommit(s, k).rows[i]) {
      StoppedFields(s, DoCancelCommit(k), i);
    }
  }

  lemma SessionFields(s: Sys, step: Step)
    requires Inv(s) && Enabled(s, step) && BySession(step)
    ensures AllFields(s, step, Apply(s, step))
  {
    if step.DoCancelCommit? {
      CancelCommitFields(s, step.k);
    } else if step.DoCommit? {
      CommitStep(s, step.i, step.now);
    } else if step.DoPrepareCancel? || step.DoCancelDiscard? {
      QuietFields(s, step, Apply(s, step));
    } else {
      AtRow(s, step.i);
      SendFields(s, step);
    }
  }

  lemma StepFields(s: Sys, step: Step)
    requires Inv(s) && Enabled(s, step)
    ensures AllFields(s, step, Apply(s, step))
  {
    if step.DoClose? {
      CloseFields(s, step.b);
    } else if BySession(step) {
      SessionFields(s, step);
    } else if ByWorker(step) {
      WorkerFields(s, step);
    } else {
      QuietFields(s, step, Apply(s, step));
    }
  }

  // ----- over runs ---------------------------------------------------------

  /** The row holds what the run put there. */
  predicate Told(r: Row, t: Trace, i: nat) {
    var taking, at := Taking(t, i), CommittedAt(t, i);
    && (!r.phase.Free? ==>
          taking.Some? && taking.value.DoReserve? && r.binding == taking.value.b
          && r.sendId == taking.value.id && r.delay == taking.value.delay)
    && (r.Committed() ==> at.Some? && r.due == Saturated(at.value + r.delay))
    && (r.phase.Submitted? ==> RequestFor(t, i) == Some(r.request))
  }

  lemma ToldStep(s: Sys, step: Step, t: Trace, i: nat, q: Row)
    requires i < |s.rows| && Told(s.rows[i], t, i) && FieldsStep(s, step, i, q)
    ensures Told(q, Then(t, step), i)
  {
  }

  /** After any run every row holds the send that took it last, its due time counts from its commit, and its
      request is the one the client gave it. */
  lemma {:induction false} RowsTellTheRun(n: nat, t: Trace)
    requires Runs(Started(n), t)
    ensures |After(Started(n), t).rows| == n && forall i :: 0 <= i < n ==> Told(After(Started(n), t).rows[i], t, i)
  {
    if t.Then? {
      var s := After(Started(n), t.before);
      StartedInv(n);
      EgressRuns.RunKeeps(Started(n), t.before);
      RowsTellTheRun(n, t.before);
      StepFields(s, t.step);
      forall i | 0 <= i < n ensures Told(Apply(s, t.step).rows[i], t, i) {
        assert FieldsStep(s, t.step, i, Apply(s, t.step).rows[i]);
        ToldStep(s, t.step, t.before, i, Apply(s, t.step).rows[i]);
      }
    }
  }

  /** When the send in row `i` may go out at the earliest: its delay after its commit. */
  function Promised(t: Trace, i: nat): Option<nat> {
    if CommittedAt(t, i).Some? && Taking(t, i).Some? && Taking(t, i).value.DoReserve? then
      Some(Saturated(CommittedAt(t, i).value + Taking(t, i).value.delay))
    else None
  }

  /** No send is handed to the client before its delay has passed since its commit; nor before any other send
      that may go out then and was promised for an earlier time. */
  lemma NotBeforeDue(n: nat, t: Trace, i: nat, now: nat)
    requires Runs(Started(n), Then(t, DoSubmitBegin(i, now)))
    ensures i < n == |After(Started(n), t).rows| && Promised(t, i).Some? && Promised(t, i).value <= now
    ensures forall j :: 0 <= j < n && Eligible(After(Started(n), t), j, now) ==>
              Promised(t, j).Some? && Promised(t, i).value <= Promised(t, j).value
  {
    RowsTellTheRun(n, t);
    var s := After(Started(n), t);
    assert Told(s.rows[i], t, i);
    forall j | 0 <= j < n && Eligible(s, j, now)
      ensures Promised(t, j).Some? && Promised(t, i).value <= Promised(t, j).value
    {
      assert Told(s.rows[j], t, j);
    }
  }

  predicate TakenFor(t: Trace, i: nat, b: Ref, id: string) {
    Taking(t, i).Some? && Taking(t, i).value.DoReserve? && Taking(t, i).value.b == b && Taking(t, i).value.id == id
  }

  /** A cancel request finds a row that was taken for a send under its identifier and for its binding. */
  lemma CancelFindsSend(n: nat, t: Trace, b: Ref, i: nat, id: string, k: nat)
    requires Runs(Started(n), Then(t, DoPrepareCancel(b, i, id, k)))
    ensures TakenFor(t, i, b, id)
  {
    RowsTellTheRun(n, t);
    assert Told(After(Started(n), t).rows[i], t, i);
  }

  /** And it finds one whenever there is one: a send that is not over is never missed. */
  lemma SendIsFound(n: nat, t: Trace, b: Ref, j: nat, id: string) returns (i: nat)
    requires Runs(Started(n), t) && j < n && TakenFor(t, j, b, id)
    requires |After(Started(n), t).rows| == n && !After(Started(n), t).rows[j].phase.Free?
    ensures i <= j && FirstNamed(After(Started(n), t), b, id, i)
  {
    RowsTellTheRun(n, t);
    var s := After(Started(n), t);
    assert Told(s.rows[j], t, j);
    i := LeastNamed(s, b, id, j);
  }

  lemma LeastNamed(s: Sys, b: Ref, id: string, j: nat) returns (i: nat)
    requires j < |s.rows| && s.rows[j].binding == b && s.rows[j].sendId == id && !s.rows[j].phase.Free?
    ensures i <= j && FirstNamed(s, b, id, i)
  {
    i := 0;
    while !(s.rows[i].binding == b && s.rows[i].sendId == id && !s.rows[i].phase.Free?)
      invariant i <= j
      invariant forall m :: 0 <= m < i ==> !(s.rows[m].binding == b && s.rows[m].sendId == id && !s.rows[m].phase.Free?)
      decreases j - i
    {
      i := i + 1;
    }
  }

  /** The worker asks the client to cancel the very request the client gave the row. */
  lemma CancelsItsRequest(n: nat, t: Trace, i: nat)
    requires Runs(Started(n), Then(t, DoCancelBegin(i)))
    ensures i < n && RequestFor(t, i).Some?
    ensures After(Started(n), Then(t, DoCancelBegin(i))).worker == AtCancel(i, RequestFor(t, i).value)
  {
    RowsTellTheRun(n, t);
    assert Told(After(Started(n), t).rows[i], t, i);
  }

  // ----- commit numbers ----------------------------------------------------

  /** The next number of a binding is one more than its commits, counted from 1 again after 2^64 - 1. */
  predicate Counting(s: Sys, b: Ref) {
    b in s.bindings ==> s.bindings[b].next == s.bindings[b].commits % U64_MAX + 1
  }

  lemma {:induction false} CloseRowsCount(s: Sys, b: Ref, i: nat, c: Ref)
    requires i <= |s.rows|
    ensures c in CloseRows(s, b, i).bindings <==> c in s.bindings
    ensures c in s.bindings ==> CloseRows(s, b, i).bindings[c].next == s.bindings[c].next
                                && CloseRows(s, b, i).bindings[c].commits == s.bindings[c].commits
    decreases |s.rows| - i
  {
    if i < |s.rows| { CloseRowsCount(if s.rows[i].binding == b then StopRow(s, i) else s, b, i + 1, c); }
  }

  lemma NumberSend(s: Sys, step: Step, b: Ref)
    requires Enabled(s, step) && (step.DoReserve? || step.DoAbort? || step.DoDiscard?) && Counting(s, b)
    ensures Counting(Apply(s, step), b)
  {
  }

  lemma NumberFinish(s: Sys, i: nat, b: Ref)
    requires Enabled(s, DoFinish(i)) && Counting(s, b)
    ensures Counting(Finish(s, i), b)
  {
  }

  lemma NumberCancel(s: Sys, step: Step, b: Ref)
    requires Enabled(s, step) && (step.DoPrepareCancel? || step.DoCancelCommit? || step.DoCancelDiscard?) && Counting(s, b)
    ensures Counting(Apply(s, step), b)
  {
  }

  lemma NumberSession(s: Sys, step: Step, b: Ref)
    requires Enabled(s, step) && BySession(step) && !step.DoCommit? && Counting(s, b)
    ensures Counting(Apply(s, step), b)
  {
    if step.DoPrepareCancel? || step.DoCancelCommit? || step.DoCancelDiscard? {
      NumberCancel(s, step, b);
    } else if step.DoFinish? {
      NumberFinish(s, step.i, b);
    } else {
      NumberSend(s, step, b);
    }
  }

  lemma CompleteLeaves(s: Sys, i: nat, outcome: Outcome)
    requires i < |s.rows|
    ensures Complete(s, i, outcome).bindings == s.bindings
  {
  }

  lemma SubmitReturnLeaves(s: Sys, i: nat, status: SubmitStatus, request: nat)
    requires i < |s.rows|
    ensures SubmitReturn(s, i, status, request).bindings == s.bindings
  {
    CompleteLeaves(s.(worker := Idle), i, FailedSend);
  }

  lemma CancelReturnLeaves(s: Sys, i: nat, request: nat, status: CancelStatus)
    requires i < |s.rows|
    ensures CancelReturn(s, i, request, status).bindings == s.bindings
  {
  }

  lemma NumberWorker(s: Sys, step: Step, b: Ref)
    requires Enabled(s, step) && ByWorker(step) && Counting(s, b)
    ensures Counting(Apply(s, step), b)
  {
    if step.DoSubmitReturn? {
      SubmitReturnLeaves(s, step.i, step.status, step.request);
    } else if step.DoCancelReturn? {
      CancelReturnLeaves(s, step.i, step.request, step.cancelStatus);
    }
  }

  lemma NumberStep(s: Sys, step: Step, b: Ref)
    requires Inv(s) && Enabled(s, step) && Counting(s, b)
    ensures Counting(Apply(s, step), b)
  {
    if step.DoCommit? {
      NumberCommit(s, step.i, step.now, b);
    } else if BySession(step) {
      NumberSession(s, step, b);
    } else if ByWorker(step) {
      NumberWorker(s, step, b);
    } else if step.DoClose? && s.bindings[step.b].Open() {
      CloseRowsCount(SetClosing(s, step.b), step.b, 0, b);
    }
  }

  lemma NumberCommit(s: Sys, i: nat, now: nat, b: Ref)
    requires Inv(s) && Enabled(s, DoCommit(i, now)) && Counting(s, b)
    ensures Counting(Commit(s, i, now), b)
  {
    AtRow(s, i);
    if b in s.bindings {
      var c := s.bindings[b].commits;
      Wraps(c);
    }
  }

  lemma Wraps(c: nat)
    ensures (c + 1) % U64_MAX + 1 == if c % U64_MAX + 1 == U64_MAX then 1 else c % U64_MAX + 2
  {
    var q, r := c / U64_MAX, c % U64_MAX;
    if r + 1 == U64_MAX {
      assert c + 1 == (q + 1) * U64_MAX;
    } else {
      assert c + 1 == q * U64_MAX + (r + 1);
    }
  }

  lemma {:induction false} NumbersCount(n: nat, t: Trace, b: Ref)
    requires Runs(Started(n), t)
    ensures Counting(After(Started(n), t), b)
  {
    if t.Then? {
      StartedInv(n);
      EgressRuns.RunKeeps(Started(n), t.before);
      NumbersCount(n, t.before, b);
      NumberStep(After(Started(n), t.before), t.step, b);
    }
  }
}
