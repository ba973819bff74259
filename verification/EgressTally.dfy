/**
 Which steps move which of the processor's totals.
 */
module EgressTally {
  import opened EgressModel
  import opened EgressInvariant
  import opened EgressSteps
  import opened EgressOrder
  import opened EgressRuns
  import opened EgressCancel

  /** Rows of binding `b` that are committed and not yet with the client. */
  function ReadyFor(rows: seq<Row>, b: Ref): nat {
    if rows == [] then 0
    else ReadyFor(rows[..|rows| - 1], b)
         + if rows[|rows| - 1].phase.Ready? && rows[|rows| - 1].binding == b then 1 else 0
  }

  /** The totals a processor reports, with the committed sends its closed bindings dropped. */
  datatype Totals = Totals(accepted: nat, completed: nat, failed: nat, cancelled: nat, dropped: nat)

  function TotalsOf(s: Sys): Totals { Totals(s.accepted, s.completed, s.failed, s.cancelled, s.dropped) }

  /** What a step adds to the totals: a send counts as accepted when its ticket is handed out, as completed,
      failed or cancelled when the client says so, as failed also when the client refuses it outright, as
      cancelled also when it is stopped while it waits; a ticket discarded or met by a closed binding drops it. */
  function Gains(s: Sys, step: Step): Totals
    requires Enabled(s, step)
  {
    match step
    case DoFinish(i) => Totals(if IsOpen(s, s.preparing[i]) then 1 else 0, 0, 0, 0, 0)
    case DoCallback(_, Completed) => Totals(0, 1, 0, 0, 0)
    case DoCallback(_, FailedSend) => Totals(0, 0, 1, 0, 0)
    case DoCallback(_, CancelledSend) => Totals(0, 0, 0, 1, 0)
    case DoSubmitReturn(_, SubmitError, _) => Totals(0, 0, 1, 0, 0)
    case DoCancelCommit(k) =>
      Totals(0, 0, 0, if Names(s, k, s.slots[k].index) && s.rows[s.slots[k].index].phase.Ready? then 1 else 0, 0)
    case DoClose(b) => Totals(0, 0, 0, if IsOpen(s, b) then ReadyFor(s.rows, b) else 0, 0)
    case DoDiscard(_) => Totals(0, 0, 0, 0, 1)
    case DoCommit(i, _) => Totals(0, 0, 0, 0, if s.running && IsOpen(s, s.rows[i].binding) then 0 else 1)
    case _ => Totals(0, 0, 0, 0, 0)
  }

  predicate Moves(a: Totals, gains: Totals, b: Totals) {
    && b.accepted == a.accepted + gains.accepted && b.completed == a.completed + gains.completed
    && b.failed == a.failed + gains.failed && b.cancelled == a.cancelled + gains.cancelled
    && b.dropped == a.dropped + gains.dropped
  }

  lemma FinishMoves(s: Sys, i: nat)
    requires Inv(s) && Enabled(s, DoFinish(i))
    ensures Moves(TotalsOf(s), Gains(s, DoFinish(i)), TotalsOf(Finish(s, i)))
  {
    AtRow(s, i);
  }

  lemma CommitMoves(s: Sys, i: nat, now: nat)
    requires Inv(s) && Enabled(s, DoCommit(i, now))
    ensures Moves(TotalsOf(s), Gains(s, DoCommit(i, now)), TotalsOf(Commit(s, i, now)))
  {
    AtRow(s, i);
  }

  lemma DiscardMoves(s: Sys, i: nat)
    requires Inv(s) && Enabled(s, DoDiscard(i))
    ensures Moves(TotalsOf(s), Gains(s, DoDiscard(i)), TotalsOf(Discard(s, i)))
  {
    AtRow(s, i);
  }

  lemma CallbackMoves(s: Sys, i: nat, outcome: Outcome)
    requires Inv(s) && Enabled(s, DoCallback(i, outcome))
    ensures Moves(TotalsOf(s), Gains(s, DoCallback(i, outcome)), TotalsOf(Callback(s, i, outcome)))
  {
    AtRow(s, i);
  }

  lemma SubmitReturnMoves(s: Sys, i: nat, status: SubmitStatus, request: nat)
    requires Inv(s) && Enabled(s, DoSubmitReturn(i, status, request))
    ensures Moves(TotalsOf(s), Gains(s, DoSubmitReturn(i, status, request)), TotalsOf(SubmitReturn(s, i, status, request)))
  {
    AtRow(s, i);
  }

  lemma CancelReturnMoves(s: Sys, i: nat, request: nat, status: CancelStatus)
    requires Inv(s) && Enabled(s, DoCancelReturn(i, request, status))
    ensures TotalsOf(CancelReturn(s, i, request, status)) == TotalsOf(s)
  {
    AtRow(s, i);
  }

  lemma CancelCommitMoves(s: Sys, k: nat)
    requires Inv(s) && Enabled(s, DoCancelCommit(k))
    ensures Moves(TotalsOf(s), Gains(s, DoCancelCommit(k)), TotalsOf(CancelCommit(s, k)))
  {
    assert SlotOk(s, k);
  }

  lemma {:induction false} ReadySplit(rows: seq<Row>, b: Ref, i: nat)
    requires i < |rows|
    ensures ReadyFor(rows[i..], b) == (if rows[i].phase.Ready? && rows[i].binding == b then 1 else 0) + ReadyFor(rows[i + 1..], b)
    decreases |rows| - i
  {
    var tail := rows[i..];
    ReadyCons(tail[0], tail[1..], b);
    assert tail == [tail[0]] + tail[1..] && tail[1..] == rows[i + 1..];
  }

  lemma {:induction false} ReadyCons(r: Row, rows: seq<Row>, b: Ref)
    ensures ReadyFor([r] + rows, b) == (if r.phase.Ready? && r.binding == b then 1 else 0) + ReadyFor(rows, b)
  {
    if rows == [] {
      assert [r] + rows == [r] && [r][..0] == [];
    } else {
      var n := |rows| - 1;
      ReadyCons(r, rows[..n], b);
      assert ([r] + rows)[..n + 1] == [r] + rows[..n];
    }
  }

  lemma {:induction false} CloseRowsMove(s: Sys, b: Ref, i: nat)
    requires i <= |s.rows|
    ensures var s' := CloseRows(s, b, i);
      TotalsOf(s') == TotalsOf(s).(cancelled := s.cancelled + ReadyFor(s.rows[i..], b))
    decreases |s.rows| - i
  {
    if i < |s.rows| {
      var s1 := if s.rows[i].binding == b then StopRow(s, i) else s;
      ReadySplit(s.rows, b, i);
      StopRowRows(s, i);
      assert s1.rows[i + 1..] == s.rows[i + 1..];
      CloseRowsMove(s1, b, i + 1);
    }
  }

  lemma CloseMoves(s: Sys, b: Ref)
    requires Inv(s) && Enabled(s, DoClose(b))
    ensures Moves(TotalsOf(s), Gains(s, DoClose(b)), TotalsOf(Close(s, b)))
  {
    CloseRowsMove(SetClosing(s, b), b, 0);
    assert s.rows[0..] == s.rows;
  }

  lemma QuietMoves(s: Sys, step: Step)
    requires Inv(s) && Enabled(s, step)
    requires !BySession(step) && !ByWorker(step) && !step.DoClose?
    ensures TotalsOf(Apply(s, step)) == TotalsOf(s)
  {
  }

  lemma OtherSessionMoves(s: Sys, step: Step)
    requires Enabled(s, step)
    requires step.DoReserve? || step.DoAbort? || step.DoPrepareCancel? || step.DoCancelDiscard?
    ensures Moves(TotalsOf(s), Gains(s, step), TotalsOf(Apply(s, step)))
  {
  }

  lemma OtherWorkerMoves(s: Sys, step: Step)
    requires Enabled(s, step)
    requires step.DoSubmitBegin? || step.DoClientAccept? || step.DoCompleteEnd? || step.DoCancelBegin?
    ensures Moves(TotalsOf(s), Gains(s, step), TotalsOf(Apply(s, step)))
  {
  }

  lemma SessionMoves(s: Sys, step: Step)
    requires Inv(s) && Enabled(s, step) && BySession(step)
    ensures Moves(TotalsOf(s), Gains(s, step), TotalsOf(Apply(s, step)))
  {
    if step.DoFinish? {
      FinishMoves(s, step.i);
    } else if step.DoCommit? {
      CommitMoves(s, step.i, step.now);
    } else if step.DoDiscard? {
      DiscardMoves(s, step.i);
    } else if step.DoCancelCommit? {
      CancelCommitMoves(s, step.k);
    } else {
      OtherSessionMoves(s, step);
    }
  }

  lemma WorkerMoves(s: Sys, step: Step)
    requires Inv(s) && Enabled(s, step) && ByWorker(step)
    ensures Moves(TotalsOf(s), Gains(s, step), TotalsOf(Apply(s, step)))
  {
    if step.DoCallback? {
      CallbackMoves(s, step.i, step.outcome);
    } else if step.DoSubmitReturn? {
      SubmitReturnMoves(s, step.i, step.status, step.request);
    } else if step.DoCancelReturn? {
      CancelReturnMoves(s, step.i, step.request, step.cancelStatus);
    } else {
      OtherWorkerMoves(s, step);
    }
  }

  /** Every step adds to the totals exactly what it stands for. */
  lemma TotalsMove(s: Sys, step: Step)
    requires Reached(s) && Enabled(s, step)
    ensures Inv(s) && Moves(TotalsOf(s), Gains(s, step), TotalsOf(Apply(s, step)))
  {
    Reachable(s);
    if step.DoClose? {
      CloseMoves(s, step.b);
    } else if BySession(step) {
      SessionMoves(s, step);
    } else if ByWorker(step) {
      WorkerMoves(s, step);
    } else {
      QuietMoves(s, step);
    }
  }
}
