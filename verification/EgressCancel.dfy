/**
 How single rows evolve, and what a cancel ticket can and cannot do.
 */
module EgressCancel {
  import opened EgressModel
  import opened EgressInvariant
  import opened EgressSteps
  import opened EgressLife
  import opened EgressOrder
  import opened EgressRuns

  // ----- the life of a row -------------------------------------------------

  /** The cancel ticket `k` is for the row `i` as it is now. */
  predicate Names(s: Sys, k: nat, i: nat) {
    k < |s.slots| && i < |s.rows| && s.slots[k].reserved && s.slots[k].index == i && s.slots[k].gen == s.rows[i].gen
  }

  predicate IsOpen(s: Sys, b: Ref) { b in s.bindings && s.bindings[b].Open() }

  predicate Same(r: Row, q: Row) { q.inc == r.inc && q.binding == r.binding && (r.wanted ==> q.wanted) }

  /** Who may move row `i` from its phase to that of `q`. */
  predicate Evolves(s: Sys, step: Step, i: nat, q: Row)
    requires i < |s.rows|
  {
    var r := s.rows[i];
    match q.phase
    case Free =>
      || r == q
      || (q == Blank(r) && (r.phase.Reserved? || r.phase.Completing?))
      || (q == Blank(r) && r.phase.Ready?
          && ((step == DoClose(r.binding) && IsOpen(s, r.binding)) || (step.DoCancelCommit? && Names(s, step.k, i))))
    case Reserved => r == q || (r.phase.Free? && q.inc == r.inc + 1 && IsOpen(s, q.binding))
    case Ready =>
      && Same(r, q) && q.cancel == r.cancel && q.wanted == r.wanted
      && (r == q || (r.phase.Reserved? && IsOpen(s, r.binding))
          || (r.phase.Submitting? && step.DoSubmitReturn? && step.i == i && step.status.NoBuffers?))
    case Submitting =>
      Same(r, q) && (r.phase.Submitting? || (r.phase.Ready? && IsOpen(s, r.binding)))
    case Submitted => Same(r, q) && (r.phase.Submitting? || r.phase.Submitted?)
    case Completing => Same(r, q) && r.InFlight()
  }

  ghost predicate AllEvolve(s: Sys, step: Step, s': Sys) {
    |s'.rows| == |s.rows| && forall i :: 0 <= i < |s.rows| ==> Evolves(s, step, i, s'.rows[i])
  }

  lemma RowEvolves(s: Sys, step: Step, s': Sys, i: nat)
    requires i < |s.rows| == |s'.rows| && s'.rows == s.rows[i := s'.rows[i]] && Evolves(s, step, i, s'.rows[i])
    ensures AllEvolve(s, step, s')
  {
  }

  /** The row left behind by a stop request. */
  function Stopped(r: Row): Row {
    if r.phase.Ready? then Blank(r)
    else if r.phase.Submitting? || r.phase.Submitted? then r.(cancel := true, wanted := true)
    else r
  }

  lemma StopRowRows(s: Sys, i: nat)
    requires i < |s.rows|
    ensures StopRow(s, i).rows == s.rows[i := Stopped(s.rows[i])]
  {
  }

  /** Closing stops the binding's rows one by one and leaves the others alone. */
  lemma {:induction false} CloseRowsAt(s: Sys, b: Ref, from: nat, i: nat)
    requires from <= |s.rows| && i < |s.rows| && b != 0
    ensures CloseRows(s, b, from).rows[i] == if from <= i && s.rows[i].binding == b then Stopped(s.rows[i]) else s.rows[i]
    decreases |s.rows| - from
  {
    if from < |s.rows| {
      StopRowRows(s, from);
      CloseRowsAt(if s.rows[from].binding == b then StopRow(s, from) else s, b, from + 1, i);
    }
  }

  lemma CloseEvolves(s: Sys, b: Ref)
    requires Inv(s) && b in s.bindings
    ensures AllEvolve(s, DoClose(b), Close(s, b))
  {
    assert BindingOk(s, b);
    if s.bindings[b].Open() {
      forall i | 0 <= i < |s.rows| ensures Evolves(s, DoClose(b), i, Close(s, b).rows[i]) {
        CloseRowsAt(SetClosing(s, b), b, 0, i);
      }
    }
  }

  lemma CancelCommitRows(s: Sys, k: nat)
    requires Inv(s) && k in s.cancels
    ensures k < |s.slots| && s.slots[k].index < |s.rows|
    ensures CancelCommit(s, k).rows
         == if Names(s, k, s.slots[k].index) then s.rows[s.slots[k].index := Stopped(s.rows[s.slots[k].index])] else s.rows
  {
    var t := s.slots[k];
    assert SlotOk(s, k);
    StopRowRows(s.(cancels := s.cancels - {k}, slots := s.slots[k := t.(reserved := false)]), t.index);
  }

  lemma CancelCommitEvolves(s: Sys, k: nat)
    requires Inv(s) && k in s.cancels
    ensures k < |s.slots| && AllEvolve(s, DoCancelCommit(k), CancelCommit(s, k))
  {
    CancelCommitRows(s, k);
    RowEvolves(s, DoCancelCommit(k), CancelCommit(s, k), s.slots[k].index);
  }

  lemma CommitEvolves(s: Sys, i: nat, now: nat)
    requires At(s, i)
    ensures AllEvolve(s, DoCommit(i, now), Commit(s, i, now))
  {
    RowEvolves(s, DoCommit(i, now), Commit(s, i, now), i);
  }

  lemma SendEvolves(s: Sys, step: Step)
    requires Enabled(s, step) && (step.DoReserve? || step.DoAbort? || step.DoFinish? || step.DoDiscard?)
    requires At(s, step.i)
    ensures AllEvolve(s, step, Apply(s, step))
  {
    RowEvolves(s, step, Apply(s, step), step.i);
  }

  lemma SubmitEvolves(s: Sys, step: Step)
    requires Enabled(s, step) && (step.DoSubmitBegin? || step.DoClientAccept?)
    requires At(s, step.i)
    ensures AllEvolve(s, step, Apply(s, step))
  {
    RowEvolves(s, step, Apply(s, step), step.i);
  }

  lemma SubmitReturnEvolves(s: Sys, i: nat, status: SubmitStatus, request: nat)
    requires At(s, i)
    ensures AllEvolve(s, DoSubmitReturn(i, status, request), SubmitReturn(s, i, status, request))
  {
    RowEvolves(s, DoSubmitReturn(i, status, request), SubmitReturn(s, i, status, request), i);
  }

  lemma CallbackEvolves(s: Sys, step: Step)
    requires Enabled(s, step) && (step.DoCallback? || step.DoCompleteEnd?)
    requires At(s, step.i)
    ensures AllEvolve(s, step, Apply(s, step))
  {
    RowEvolves(s, step, Apply(s, step), step.i);
  }

  lemma CancelEvolves(s: Sys, step: Step)
    requires Enabled(s, step) && (step.DoCancelBegin? || step.DoCancelReturn?)
    requires At(s, step.i)
    ensures AllEvolve(s, step, Apply(s, step))
  {
    RowEvolves(s, step, Apply(s, step), step.i);
  }

  lemma QuietEvolves(s: Sys, step: Step, s': Sys)
    requires s'.rows == s.rows
    ensures AllEvolve(s, step, s')
  {
  }

  lemma SessionEvolves(s: Sys, step: Step)
    requires Inv(s) && Enabled(s, step) && BySession(step)
    ensures AllEvolve(s, step, Apply(s, step))
  {
    if step.DoCancelCommit? {
      CancelCommitEvolves(s, step.k);
    } else if step.DoPrepareCancel? || step.DoCancelDiscard? {
      QuietEvolves(s, step, Apply(s, step));
    } else {
      AtRow(s, step.i);
      if step.DoCommit? { CommitEvolves(s, step.i, step.now); } else { SendEvolves(s, step); }
    }
  }

  lemma WorkerEvolves(s: Sys, step: Step)
    requires Inv(s) && Enabled(s, step) && ByWorker(step)
    ensures AllEvolve(s, step, Apply(s, step))
  {
    AtRow(s, step.i);
    if step.DoSubmitBegin? || step.DoClientAccept? {
      SubmitEvolves(s, step);
    } else if step.DoSubmitReturn? {
      SubmitReturnEvolves(s, step.i, step.status, step.request);
    } else if step.DoCallback? || step.DoCompleteEnd? {
      CallbackEvolves(s, step);
    } else {
      CancelEvolves(s, step);
    }
  }

  lemma StepEvolves(s: Sys, step: Step)
    requires Inv(s) && Enabled(s, step)
    ensures AllEvolve(s, step, Apply(s, step))
  {
    if step.DoClose? {
      CloseEvolves(s, step.b);
    } else if BySession(step) {
      SessionEvolves(s, step);
    } else if ByWorker(step) {
      WorkerEvolves(s, step);
    } else {
      QuietEvolves(s, step, Apply(s, step));
    }
  }

  // ----- generations -------------------------------------------------------

  /** Two generation numbers agree exactly when a whole number of wrap-arounds lies between them. */
  lemma SameGeneration(m: nat, n: nat)
    requires 1 <= m <= n
    ensures GenOf(m) == GenOf(n) <==> (n - m) % U32_MAX == 0
  {
    var d := n - m;
    var qm, rm := (m - 1) / U32_MAX, (m - 1) % U32_MAX;
    var qn, rn := (n - 1) / U32_MAX, (n - 1) % U32_MAX;
    assert m - 1 == qm * U32_MAX + rm && n - 1 == qn * U32_MAX + rn;
    assert d == (qn - qm) * U32_MAX + (rn - rm);
    if rn == rm {
      Remainder(d, qn - qm, 0);
    } else if rm < rn {
      Remainder(d, qn - qm, rn - rm);
    } else {
      Remainder(d, qn - qm - 1, U32_MAX + rn - rm);
    }
  }

  /** What a pending cancel ticket remembers. */
  lemma Ticket(s: Sys, k: nat)
    requires Inv(s) && k in s.cancels
    ensures k < |s.slots| && s.slots[k].reserved && s.slots[k].index < |s.rows|
    ensures 1 <= s.slots[k].inc <= s.rows[s.slots[k].index].inc
    ensures s.slots[k].gen == GenOf(s.slots[k].inc) && s.rows[s.slots[k].index].gen == GenOf(s.rows[s.slots[k].index].inc)
  {
    assert SlotOk(s, k);
    var i := s.slots[k].index;
    assert Fits(s.rows[i], DutyOf(s, i));
  }

  /** How often the row was taken again since the ticket was prepared. */
  function Reuses(s: Sys, k: nat): int
    requires k < |s.slots| && s.slots[k].index < |s.rows|
  {
    s.rows[s.slots[k].index].inc - s.slots[k].inc
  }

  /** A cancel ticket finds the incarnation it was prepared against, or one a multiple of 2^32 - 1 takings later. */
  lemma TicketFindsItsRow(s: Sys, k: nat)
    requires Inv(s) && k in s.cancels
    ensures k < |s.slots| && s.slots[k].index < |s.rows| && 0 <= Reuses(s, k)
    ensures Names(s, k, s.slots[k].index) <==> Reuses(s, k) % U32_MAX == 0
  {
    Ticket(s, k);
    SameGeneration(s.slots[k].inc, s.rows[s.slots[k].index].inc);
  }

  lemma TicketNames(s: Sys, k: nat)
    requires Inv(s) && k in s.cancels
    ensures k < |s.slots| && s.slots[k].index < |s.rows|
    ensures Reuses(s, k) < U32_MAX ==> (Names(s, k, s.slots[k].index) <==> Reuses(s, k) == 0)
  {
    TicketFindsItsRow(s, k);
    var d := Reuses(s, k);
    if d < U32_MAX { Remainder(d, 0, d); }
  }

  /** Committing a cancel, short of a generation wrap, changes only the incarnation it was prepared
      against: it frees that row if it waits, flags it if the client has it, and else leaves it. */
  lemma CancelHitsItsIncarnation(s: Sys, k: nat)
    requires Reached(s) && k in s.cancels
    ensures k < |s.slots| && s.slots[k].index < |s.rows|
    ensures var i := s.slots[k].index; Reuses(s, k) < U32_MAX ==>
      CancelCommit(s, k).rows == if s.rows[i].inc == s.slots[k].inc then s.rows[i := Stopped(s.rows[i])] else s.rows
  {
    Reachable(s);
    TicketNames(s, k);
    CancelCommitRows(s, k);
    var i := s.slots[k].index;
    assert Reuses(s, k) == 0 <==> s.rows[i].inc == s.slots[k].inc;
  }

  // ----- a stop request is not lost ----------------------------------------

  /** Incarnation `inc` of row `i` is gone, finishing, or its stop request stands. */
  predicate Ending(s: Sys, i: nat, inc: nat) {
    i < |s.rows| && inc <= s.rows[i].inc
    && (s.rows[i].inc == inc ==> s.rows[i].phase.Free? || s.rows[i].phase.Completing? || (s.rows[i].wanted && s.rows[i].Committed()))
  }

  /** Incarnation `inc` of row `i` has been committed or is over. */
  predicate Past(s: Sys, i: nat, inc: nat) {
    i < |s.rows| && inc <= s.rows[i].inc && (s.rows[i].inc == inc ==> !s.rows[i].phase.Reserved?)
  }

  lemma {:induction false} EndingStays(s: Sys, t: Trace, i: nat, inc: nat)
    requires Inv(s) && Ordered(s) && Runs(s, t)
    ensures Ending(s, i, inc) ==> Ending(After(s, t), i, inc)
    ensures Past(s, i, inc) ==> Past(After(s, t), i, inc)
  {
    if t.Then? && i < |s.rows| {
      EndingStays(s, t.before, i, inc);
      RunKeeps(s, t.before);
      var u := After(s, t.before);
      StepEvolves(u, t.step);
      if Past(u, i, inc) || Ending(u, i, inc) { assert Evolves(u, t.step, i, Apply(u, t.step).rows[i]); }
    }
  }

  /** The client has been told, is being told, or will be told. */
  predicate StopPending(s: Sys, i: nat)
    requires i < |s.rows|
  {
    s.rows[i].cancel || s.rows[i].told || (s.worker == AtCancel(i, s.rows[i].request) && s.rows[i].phase.Submitted?)
  }

  /** The run settles cancel ticket `k` nowhere. */
  predicate Keeps(t: Trace, k: nat) {
    t.Then? ==> Keeps(t.before, k) && t.step != DoCancelCommit(k) && t.step != DoCancelDiscard(k)
  }

  /** A pending ticket is not touched by steps that do not settle it. */
  lemma TicketStep(s: Sys, step: Step, k: nat)
    requires Inv(s) && Enabled(s, step) && k in s.cancels && step != DoCancelCommit(k) && step != DoCancelDiscard(k)
    ensures var s' := Apply(s, step); k in s'.cancels && k < |s'.slots| && k < |s.slots| && s'.slots[k] == s.slots[k]
  {
    assert SlotOk(s, k);
    if step.DoPrepareCancel? || step.DoCancelDiscard? {
      assert Apply(s, step).slots == s.slots[step.k := Apply(s, step).slots[step.k]];
    } else if step.DoCancelCommit? {
      CommitOtherTicket(s, step.k, k);
    } else if BySession(step) {
      SessionLife(s, step);
    } else if ByWorker(step) {
      WorkerLife(s, step);
    } else {
      BinderTickets(s, step);
    }
  }

  lemma CommitOtherTicket(s: Sys, j: nat, k: nat)
    requires j < |s.slots| && k < |s.slots| && j != k && k in s.cancels
    ensures var s' := CancelCommit(s, j); k in s'.cancels && k < |s'.slots| && s'.slots[k] == s.slots[k]
  {
    var t := s.slots[j];
    if t.index < |s.rows| {
      StopRowLife(s.(cancels := s.cancels - {j}, slots := s.slots[j := t.(reserved := false)]), t.index);
    }
  }

  lemma {:induction false} TicketRun(s: Sys, t: Trace, k: nat)
    requires Inv(s) && Ordered(s) && Runs(s, t) && Keeps(t, k) && k in s.cancels
    ensures var u := After(s, t); k in u.cancels && k < |u.slots| && k < |s.slots| && u.slots[k] == s.slots[k]
  {
    if t.Then? {
      TicketRun(s, t.before, k);
      RunKeeps(s, t.before);
      TicketStep(After(s, t.before), t.step, k);
    } else {
      assert SlotOk(s, k);
    }
  }

  /** A send and a later cancel of its identifier. The cancel is prepared for the row the identifier names,
      anything happens until the cancel is committed, by when the send has been committed, and anything
      happens after: that send is over, or finishing, or its stop request still stands with the worker
      or the client. */
  lemma SendThenCancel(s: Sys, b: Ref, i: nat, id: string, k: nat, between: Trace, later: Trace)
    requires Reached(s) && Enabled(s, DoPrepareCancel(b, i, id, k))
    requires Runs(PrepareCancel(s, i, k), between) && Keeps(between, k)
    requires var u := After(PrepareCancel(s, i, k), between);
      Past(u, i, s.rows[i].inc) && k < |u.slots| && Runs(CancelCommit(u, k), later)
    ensures var u := After(PrepareCancel(s, i, k), between); var v := After(CancelCommit(u, k), later);
      Ending(v, i, s.rows[i].inc) && (Stopping(v, i, s.rows[i].inc) ==> StopPending(v, i))
  {
    Reachable(s);
    StepInv(s, DoPrepareCancel(b, i, id, k));
    StepOrdered(s, DoPrepareCancel(b, i, id, k));
    var p := PrepareCancel(s, i, k);
    TicketRun(p, between, k);
    RunKeeps(p, between);
    CancelEnds(After(p, between), i, s.rows[i].inc, k, later);
  }

  /** The incarnation is live and not yet finishing. */
  predicate Stopping(s: Sys, i: nat, inc: nat) {
    i < |s.rows| && s.rows[i].inc == inc && !s.rows[i].phase.Free? && !s.rows[i].phase.Completing?
  }

  lemma CancelEnds(u: Sys, i: nat, inc: nat, k: nat, later: Trace)
    requires Inv(u) && Ordered(u) && Past(u, i, inc)
    requires k in u.cancels && k < |u.slots| && u.slots[k].index == i && u.slots[k].inc == inc
    requires Runs(CancelCommit(u, k), later)
    ensures var v := After(CancelCommit(u, k), later);
      Ending(v, i, inc) && (Stopping(v, i, inc) ==> StopPending(v, i))
  {
    StopEnds(u, k, i, inc);
    StepInv(u, DoCancelCommit(k));
    StepOrdered(u, DoCancelCommit(k));
    var c := CancelCommit(u, k);
    EndingStays(c, later, i, inc);
    RunKeeps(c, later);
    AtRow(After(c, later), i);
  }

  // ----- a send committed in between ---------------------------------------

  /** Some step of the run commits the send that row `i` then holds. */
  predicate Commits(t: Trace, i: nat) {
    t.Then? && (Commits(t.before, i) || (t.step.DoCommit? && t.step.i == i))
  }

  /** A row's incarnations only grow. */
  lemma {:induction false} IncarnationsGrow(s: Sys, t: Trace, i: nat)
    requires Inv(s) && Ordered(s) && Runs(s, t) && i < |s.rows|
    ensures i < |After(s, t).rows| && s.rows[i].inc <= After(s, t).rows[i].inc
  {
    if t.Then? {
      IncarnationsGrow(s, t.before, i);
      RunKeeps(s, t.before);
      var u := After(s, t.before);
      StepEvolves(u, t.step);
      assert Evolves(u, t.step, i, Apply(u, t.step).rows[i]);
    }
  }

  lemma PastStep(s: Sys, step: Step, i: nat, inc: nat)
    requires Inv(s) && Enabled(s, step) && i < |s.rows| && inc <= s.rows[i].inc
    requires Past(s, i, inc) || (step.DoCommit? && step.i == i)
    ensures Past(Apply(s, step), i, inc)
  {
    StepEvolves(s, step);
    AtRow(s, i);
    assert Evolves(s, step, i, Apply(s, step).rows[i]);
    if step.DoCommit? && step.i == i { CommittedRow(s, i, step.now); }
  }

  lemma CommittedRow(s: Sys, i: nat, now: nat)
    requires At(s, i) && i in s.ticketed
    ensures !Commit(s, i, now).rows[i].phase.Reserved?
  {
  }

  /** A send the row held at the start, or an earlier one, is past once the run has committed the row. */
  lemma {:induction false} CommittedIsPast(s: Sys, t: Trace, i: nat, inc: nat)
    requires Inv(s) && Ordered(s) && Runs(s, t) && Commits(t, i)
    requires i < |s.rows| && inc <= s.rows[i].inc
    ensures Past(After(s, t), i, inc)
  {
    IncarnationsGrow(s, t.before, i);
    RunKeeps(s, t.before);
    if !(t.step.DoCommit? && t.step.i == i) { CommittedIsPast(s, t.before, i, inc); }
    PastStep(After(s, t.before), t.step, i, inc);
  }

  /** A send and a cancel of its identifier, where the send is committed between the preparation of the
      cancel and its commit: whatever else happens then and afterwards, that send is over, or finishing,
      or its stop request still stands with the worker or the client. */
  lemma CommitThenCancel(s: Sys, b: Ref, i: nat, id: string, k: nat, between: Trace, later: Trace)
    requires Reached(s) && Enabled(s, DoPrepareCancel(b, i, id, k))
    requires Runs(PrepareCancel(s, i, k), between) && Keeps(between, k) && Commits(between, i)
    requires var u := After(PrepareCancel(s, i, k), between); k < |u.slots| && Runs(CancelCommit(u, k), later)
    ensures var u := After(PrepareCancel(s, i, k), between); var v := After(CancelCommit(u, k), later);
      Ending(v, i, s.rows[i].inc) && (Stopping(v, i, s.rows[i].inc) ==> StopPending(v, i))
  {
    Reachable(s);
    StepInv(s, DoPrepareCancel(b, i, id, k));
    StepOrdered(s, DoPrepareCancel(b, i, id, k));
    CommittedIsPast(PrepareCancel(s, i, k), between, i, s.rows[i].inc);
    SendThenCancel(s, b, i, id, k, between, later);
  }

  lemma StopEnds(u: Sys, k: nat, i: nat, inc: nat)
    requires Inv(u) && k in u.cancels && k < |u.slots| && u.slots[k].index == i && u.slots[k].inc == inc && Past(u, i, inc)
    ensures Ending(CancelCommit(u, k), i, inc)
  {
    CancelCommitRows(u, k);
    assert SlotOk(u, k) && Fits(u.rows[i], DutyOf(u, i));
  }

  lemma CommitKeepsTickets(s: Sys, i: nat, now: nat)
    requires i < |s.rows|
    ensures var c := Commit(s, i, now);
      c.slots == s.slots && c.cancels == s.cancels && |c.rows| == |s.rows| && c.rows[i].inc == s.rows[i].inc
      && !(s.rows[i].phase.Reserved? && c.rows[i].InFlight())
  {
  }

  /** With nothing in between, the committed send is gone at once. */
  lemma SendThenCancelAtOnce(s: Sys, i: nat, now: nat, k: nat)
    requires Reached(s) && i in s.ticketed && i < |s.rows| && k in s.cancels && k < |s.slots|
    requires s.slots[k].index == i && s.slots[k].inc == s.rows[i].inc
    ensures var c := Commit(s, i, now);
      c.slots == s.slots && |CancelCommit(c, k).rows| == |s.rows| && CancelCommit(c, k).rows[i].phase.Free?
  {
    Reachable(s);
    AtRow(s, i);
    StepInv(s, DoCommit(i, now));
    CommitKeepsTickets(s, i, now);
    var c := Commit(s, i, now);
    AtRow(c, i);
    Ticket(c, k);
    CancelCommitRows(c, k);
  }
}
