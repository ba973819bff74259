/**
 Every step of the egress protocol keeps the invariant.
 */
module EgressSteps {
  import opened EgressModel
  import opened EgressInvariant

  // ----- bindings ----------------------------------------------------------

  lemma InitInv(s: Sys, b: Ref)
    requires Inv(s) && Enabled(s, DoInit(b))
    ensures Inv(Apply(s, DoInit(b)))
  {
    var s' := Init(s, b);
    forall i | 0 <= i < |s.rows| ensures !Is(s.rows[i], OwnedBy(b)) && OwnerOk(s', s'.rows[i]) {
      assert OwnerOk(s, s.rows[i]);
      if s.rows[i].binding in s.bindings { assert BindingOk(s, s.rows[i].binding); }
    }
    CountZero(s.rows, OwnedBy(b));
    forall c | c in s'.bindings ensures BindingOk(s', c) {
      if c != b { assert BindingOk(s, c); }
    }
    Frame(s, s');
  }

  /** Rows, slots, counters and duties are untouched. */
  lemma Frame(s: Sys, s': Sys)
    requires Inv(s)
    requires s' == s.(bindings := s'.bindings, used := s'.used, handlers := s'.handlers, running := s'.running)
    ensures Shape(s') && Rows(s') && Slots(s') && Totals(s') && Diagnosed(s')
  {
    forall i | 0 <= i < |s'.rows| ensures Fits(s'.rows[i], DutyOf(s', i)) { assert Fits(s.rows[i], DutyOf(s, i)); }
    forall k | 0 <= k < |s'.slots| ensures SlotOk(s', k) { assert SlotOk(s, k); }
  }

  /** Changing one binding's life or its callbacks. */
  lemma BindingInv(s: Sys, b: Ref, d: Binding, handlers: multiset<Ref>)
    requires Inv(s) && b in s.bindings
    requires d.outbound == s.bindings[b].outbound
    requires forall c :: c in s.bindings && c != b ==> handlers[c] == s.handlers[c]
    requires forall c :: c in handlers ==> c in s.bindings
    requires d.callbacks == handlers[b]
    requires d.state.Quiescent? ==> d.outbound == 0 && d.callbacks == 0
    requires d.state.Active? ==> d.hasSession
    ensures Inv(s.(bindings := s.bindings[b := d], handlers := handlers))
  {
    var s' := s.(bindings := s.bindings[b := d], handlers := handlers);
    Frame(s, s');
    assert BindingOk(s, b);
    forall i | 0 <= i < |s'.rows| ensures OwnerOk(s', s'.rows[i]) {
      assert OwnerOk(s, s.rows[i]);
      if !s.rows[i].phase.Free? && s.rows[i].binding == b { CountPositive(s.rows, i, OwnedBy(b)); }
    }
    forall c | c in s'.bindings ensures BindingOk(s', c) { if c != b { assert BindingOk(s, c); } }
  }

  lemma ActivateInv(s: Sys, b: Ref)
    requires Inv(s) && Enabled(s, DoActivate(b))
    ensures Inv(Apply(s, DoActivate(b)))
  {
    assert BindingOk(s, b);
    BindingInv(s, b, s.bindings[b].(state := Active, hasSession := true), s.handlers);
  }

  lemma SetClosingInv(s: Sys, b: Ref)
    requires Inv(s) && b in s.bindings && s.bindings[b].Open()
    ensures Inv(SetClosing(s, b))
  {
    assert BindingOk(s, b);
    BindingInv(s, b, s.bindings[b].(state := Closing), s.handlers);
  }

  lemma QuiesceInv(s: Sys, b: Ref, downstream: bool)
    requires Inv(s) && Enabled(s, DoQuiesce(b, downstream))
    ensures Inv(Apply(s, DoQuiesce(b, downstream)))
  {
    assert BindingOk(s, b);
    if Quiesce(s, b, downstream) != s {
      BindingInv(s, b, s.bindings[b].(state := Quiescent, hasSession := false), s.handlers);
    }
  }

  lemma EnterInv(s: Sys, b: Ref)
    requires Inv(s) && Enabled(s, DoEnter(b))
    ensures Inv(Apply(s, DoEnter(b)))
  {
    assert BindingOk(s, b);
    BindingInv(s, b, s.bindings[b].(callbacks := s.bindings[b].callbacks + 1), s.handlers + multiset{b});
  }

  lemma LeaveInv(s: Sys, b: Ref)
    requires Inv(s) && Enabled(s, DoLeave(b))
    ensures Inv(Apply(s, DoLeave(b)))
  {
    assert BindingOk(s, b);
    BindingInv(s, b, s.bindings[b].(callbacks := s.bindings[b].callbacks - 1), s.handlers - multiset{b});
  }

  lemma DestroyInv(s: Sys, b: Ref)
    requires Inv(s) && Enabled(s, DoDestroy(b))
    ensures Inv(Apply(s, DoDestroy(b)))
  {
    var s' := Destroy(s, b);
    Frame(s, s');
    assert BindingOk(s, b);
    forall i | 0 <= i < |s'.rows| ensures OwnerOk(s', s'.rows[i]) { assert OwnerOk(s, s.rows[i]); }
    forall c | c in s'.bindings ensures BindingOk(s', c) { assert BindingOk(s, c); }
  }

  lemma StopInv(s: Sys)
    requires Inv(s) && Enabled(s, DoStop)
    ensures Inv(Apply(s, DoStop))
  {
    var s' := s.(running := false);
    Frame(s, s');
    forall i | 0 <= i < |s'.rows| ensures OwnerOk(s', s'.rows[i]) { assert OwnerOk(s, s.rows[i]); }
  }

  lemma PollFaultInv(s: Sys)
    requires Inv(s) && Enabled(s, DoPollFault)
    ensures Inv(Apply(s, DoPollFault))
  {
    var s' := PollFault(s);
    forall i | 0 <= i < |s'.rows| ensures Fits(s'.rows[i], DutyOf(s', i)) && OwnerOk(s', s'.rows[i]) {
      assert Fits(s.rows[i], DutyOf(s, i)) && OwnerOk(s, s.rows[i]);
    }
    forall b | b in s'.bindings ensures BindingOk(s', b) { assert BindingOk(s, b); }
    forall k | 0 <= k < |s'.slots| ensures SlotOk(s', k) { assert SlotOk(s, k); }
  }

  // ----- sending -----------------------------------------------------------

  lemma ReserveRow(s: Sys, b: Ref, i: nat, id: string, delay: nat)
    requires At(s, i) && s.rows[i].phase.Free? && b != 0 && b in s.bindings && s.bindings[b].Open()
    ensures LocalRow(s, Reserve(s, b, i, id, delay), i)
  {
    NextGenOf(s.rows[i].inc);
  }

  lemma ReserveBooks(s: Sys, b: Ref, i: nat, id: string, delay: nat)
    requires At(s, i) && s.rows[i].phase.Free? && b != 0 && b in s.bindings
    ensures LocalBooks(s, Reserve(s, b, i, id, delay), i)
  {
  }

  lemma ReserveInv(s: Sys, b: Ref, i: nat, id: string, delay: nat)
    requires Inv(s) && Enabled(s, DoReserve(b, i, id, delay))
    ensures Inv(Apply(s, DoReserve(b, i, id, delay)))
  {
    AtRow(s, i);
    assert BindingOk(s, b);
    ReserveRow(s, b, i, id, delay);
    ReserveBooks(s, b, i, id, delay);
    LocalInv(s, Reserve(s, b, i, id, delay), i);
  }

  /** Giving a row back once what it owed has been settled. */
  lemma ResetRow(s: Sys, t: Sys, i: nat)
    requires At(s, i) && !s.rows[i].phase.Free? && !Is(s.rows[i], Flying)
    requires t == s.(queued := s.queued - One(s.rows[i], Waiting), cancelled := t.cancelled, dropped := t.dropped,
                     preparing := s.preparing - {i}, ticketed := s.ticketed - {i}, finishing := s.finishing - {i})
    requires t.cancelled + t.dropped == s.cancelled + s.dropped + Stake(s, i)
    ensures LocalRow(s, Reset(t, i), i)
  {
  }

  lemma ResetBooks(s: Sys, t: Sys, i: nat)
    requires At(s, i) && !s.rows[i].phase.Free? && !Is(s.rows[i], Flying)
    requires t == s.(queued := s.queued - One(s.rows[i], Waiting), cancelled := t.cancelled, dropped := t.dropped,
                     preparing := s.preparing - {i}, ticketed := s.ticketed - {i}, finishing := s.finishing - {i})
    requires t.cancelled + t.dropped == s.cancelled + s.dropped + Stake(s, i)
    ensures LocalBooks(s, Reset(t, i), i)
  {
  }

  lemma ResetLocal(s: Sys, t: Sys, i: nat)
    requires At(s, i) && !s.rows[i].phase.Free? && !Is(s.rows[i], Flying)
    requires t == s.(queued := s.queued - One(s.rows[i], Waiting), cancelled := t.cancelled, dropped := t.dropped,
                     preparing := s.preparing - {i}, ticketed := s.ticketed - {i}, finishing := s.finishing - {i})
    requires t.cancelled + t.dropped == s.cancelled + s.dropped + Stake(s, i)
    ensures Local(s, Reset(t, i), i)
  {
    ResetRow(s, t, i);
    ResetBooks(s, t, i);
  }

  /** A reservation given back before its ticket was handed out. */
  lemma UnpreparedInv(s: Sys, i: nat)
    requires Inv(s) && i in s.preparing && i < |s.rows|
    ensures s.rows[i].phase.Reserved? && s.preparing[i] == s.rows[i].binding
    ensures Inv(Reset(s.(preparing := s.preparing - {i}, queued := Dec(s.queued)), i))
  {
    AtRow(s, i);
    var t := s.(preparing := s.preparing - {i}, queued := Dec(s.queued));
    assert s.ticketed - {i} == s.ticketed && s.finishing - {i} == s.finishing;
    ResetLocal(s, t, i);
    LocalInv(s, Reset(t, i), i);
  }

  lemma AbortInv(s: Sys, i: nat)
    requires Inv(s) && Enabled(s, DoAbort(i))
    ensures Inv(Apply(s, DoAbort(i)))
  {
    UnpreparedInv(s, i);
  }

  lemma FinishLocal(s: Sys, i: nat)
    requires At(s, i) && i in s.preparing && s.bindings[s.rows[i].binding].Open()
    ensures Local(s, Finish(s, i), i)
  {
  }

  lemma FinishInv(s: Sys, i: nat)
    requires Inv(s) && Enabled(s, DoFinish(i))
    ensures Inv(Apply(s, DoFinish(i)))
  {
    UnpreparedInv(s, i);
    if s.bindings[s.preparing[i]].Open() {
      AtRow(s, i);
      FinishLocal(s, i);
      LocalInv(s, Finish(s, i), i);
    }
  }

  /** A settled send ticket whose row is given back. */
  lemma DropInv(s: Sys, i: nat)
    requires Inv(s) && i in s.ticketed && i < |s.rows|
    ensures s.rows[i].phase.Reserved? && s.rows[i].binding in s.bindings
    ensures Inv(Reset(s.(ticketed := s.ticketed - {i}, queued := Dec(s.queued), dropped := s.dropped + 1), i))
  {
    AtRow(s, i);
    var t := s.(ticketed := s.ticketed - {i}, queued := Dec(s.queued), dropped := s.dropped + 1);
    assert s.preparing - {i} == s.preparing && s.finishing - {i} == s.finishing;
    ResetLocal(s, t, i);
    LocalInv(s, Reset(t, i), i);
  }

  lemma CommitRow(s: Sys, i: nat, now: nat)
    requires At(s, i) && i in s.ticketed && s.running && s.bindings[s.rows[i].binding].Open()
    ensures LocalRow(s, Commit(s, i, now), i)
  {
  }

  lemma CommitBooks(s: Sys, i: nat, now: nat)
    requires At(s, i) && i in s.ticketed && s.running && s.bindings[s.rows[i].binding].Open()
    ensures LocalBooks(s, Commit(s, i, now), i)
  {
  }

  lemma CommitLocal(s: Sys, i: nat, now: nat)
    requires At(s, i) && i in s.ticketed && s.running && s.bindings[s.rows[i].binding].Open()
    ensures Local(s, Commit(s, i, now), i)
  {
    CommitRow(s, i, now);
    CommitBooks(s, i, now);
  }

  lemma CommitInv(s: Sys, i: nat, now: nat)
    requires Inv(s) && Enabled(s, DoCommit(i, now))
    ensures Inv(Apply(s, DoCommit(i, now)))
  {
    DropInv(s, i);
    if s.running && s.bindings[s.rows[i].binding].Open() {
      AtRow(s, i);
      CommitLocal(s, i, now);
      LocalInv(s, Commit(s, i, now), i);
    } else {
      assert Commit(s, i, now)
          == Reset(s.(ticketed := s.ticketed - {i}, queued := Dec(s.queued), dropped := s.dropped + 1), i);
    }
  }

  lemma DiscardInv(s: Sys, i: nat)
    requires Inv(s) && Enabled(s, DoDiscard(i))
    ensures Inv(Apply(s, DoDiscard(i)))
  {
    DropInv(s, i);
    assert Discard(s, i)
        == Reset(s.(ticketed := s.ticketed - {i}, queued := Dec(s.queued), dropped := s.dropped + 1), i);
  }

  // ----- cancelling --------------------------------------------------------

  /** Changing the cancel tickets only. */
  lemma SlotInv(s: Sys, k: nat, t: Slot, cancels: set<nat>)
    requires Inv(s) && k < |s.slots|
    requires cancels - {k} == s.cancels - {k} && (t.reserved <==> k in cancels)
    requires t.reserved ==> t.index < |s.rows| && 1 <= t.inc == s.rows[t.index].inc && t.gen == s.rows[t.index].gen
    ensures Inv(s.(slots := s.slots[k := t], cancels := cancels))
  {
    var s' := s.(slots := s.slots[k := t], cancels := cancels);
    forall i | 0 <= i < |s'.rows| ensures Fits(s'.rows[i], DutyOf(s', i)) && OwnerOk(s', s'.rows[i]) {
      assert Fits(s.rows[i], DutyOf(s, i)) && OwnerOk(s, s.rows[i]);
    }
    forall c | c in s'.bindings ensures BindingOk(s', c) { assert BindingOk(s, c); }
    forall j | 0 <= j < |s'.slots| ensures SlotOk(s', j) {
      assert SlotOk(s, j);
      if j == k && t.reserved { assert Fits(s.rows[t.index], DutyOf(s, t.index)); }
      assert j != k ==> (j in cancels <==> j in cancels - {k}) && (j in s.cancels <==> j in s.cancels - {k});
    }
    forall j | j in cancels ensures j < |s'.slots| { if j != k { assert j in cancels - {k}; } }
  }

  lemma FlagLocal(s: Sys, i: nat, r: Row)
    requires At(s, i) && (r == s.rows[i] || r == s.rows[i].(cancel := true, wanted := true)) && RowOk(r)
    ensures Local(s, s.(rows := s.rows[i := r]), i)
  {
  }

  lemma StopRowInv(s: Sys, i: nat)
    requires Inv(s) && i < |s.rows|
    ensures Inv(StopRow(s, i)) && |StopRow(s, i).rows| == |s.rows|
  {
    AtRow(s, i);
    var r := s.rows[i];
    if r.phase.Ready? {
      var t := s.(queued := Dec(s.queued), cancelled := s.cancelled + 1);
      assert s.preparing - {i} == s.preparing && s.finishing - {i} == s.finishing && s.ticketed - {i} == s.ticketed;
      ResetLocal(s, t, i);
      LocalInv(s, Reset(t, i), i);
    } else if Is(r, Flying) {
      FlagLocal(s, i, r.(cancel := true, wanted := true));
      LocalInv(s, StopRow(s, i), i);
    }
  }

  lemma CancelCommitInv(s: Sys, k: nat)
    requires Inv(s) && Enabled(s, DoCancelCommit(k))
    ensures Inv(Apply(s, DoCancelCommit(k)))
  {
    var t := s.slots[k];
    assert SlotOk(s, k);
    SlotInv(s, k, t.(reserved := false), s.cancels - {k});
    var s2 := s.(slots := s.slots[k := t.(reserved := false)], cancels := s.cancels - {k});
    StopRowInv(s2, t.index);
  }

  lemma CancelDiscardInv(s: Sys, k: nat)
    requires Inv(s) && Enabled(s, DoCancelDiscard(k))
    ensures Inv(Apply(s, DoCancelDiscard(k)))
  {
    assert SlotOk(s, k);
    SlotInv(s, k, s.slots[k].(reserved := false), s.cancels - {k});
  }

  lemma PrepareCancelInv(s: Sys, b: Ref, i: nat, id: string, k: nat)
    requires Inv(s) && Enabled(s, DoPrepareCancel(b, i, id, k))
    ensures Inv(Apply(s, DoPrepareCancel(b, i, id, k)))
  {
    AtRow(s, i);
    SlotInv(s, k, Slot(i, s.rows[i].gen, true, s.rows[i].inc), s.cancels + {k});
  }

  lemma {:induction false} CloseRowsInv(s: Sys, b: Ref, i: nat)
    requires Inv(s) && i <= |s.rows|
    ensures Inv(CloseRows(s, b, i))
    decreases |s.rows| - i
  {
    if i < |s.rows| {
      StopRowInv(s, i);
      CloseRowsInv(if s.rows[i].binding == b then StopRow(s, i) else s, b, i + 1);
    }
  }

  lemma CloseInv(s: Sys, b: Ref)
    requires Inv(s) && Enabled(s, DoClose(b))
    ensures Inv(Apply(s, DoClose(b)))
  {
    if s.bindings[b].Open() {
      SetClosingInv(s, b);
      CloseRowsInv(SetClosing(s, b), b, 0);
    }
  }

  // ----- the worker and the client -----------------------------------------

  lemma SubmitBeginLocal(s: Sys, i: nat)
    requires At(s, i) && s.worker.Idle? && s.rows[i].phase.Ready?
    ensures Local(s, SubmitBegin(s, i), i)
  {
  }

  lemma ClientAcceptRow(s: Sys, i: nat)
    requires At(s, i) && s.worker == AtSubmit(i, false)
    ensures LocalRow(s, ClientAccept(s, i), i)
  {
  }

  lemma ClientAcceptBooks(s: Sys, i: nat)
    requires At(s, i) && s.worker == AtSubmit(i, false)
    ensures LocalBooks(s, ClientAccept(s, i), i)
  {
  }

  lemma ClientAcceptLocal(s: Sys, i: nat)
    requires At(s, i) && s.worker == AtSubmit(i, false)
    ensures Local(s, ClientAccept(s, i), i)
  {
    ClientAcceptRow(s, i);
    ClientAcceptBooks(s, i);
  }

  lemma CompleteRow(s: Sys, t: Sys, i: nat, outcome: Outcome)
    requires At(s, i) && Is(s.rows[i], Flying)
    requires t == s.(worker := t.worker, outstanding := s.outstanding - {i}, early := t.early)
    requires t.worker == s.worker || (t.worker.Idle? && s.worker.AtSubmit? && s.worker.row == i)
    requires t.worker == s.worker && s.worker.AtSubmit? && s.worker.row == i ==> s.worker.accepted
    requires Diagnosed(t)
    ensures LocalRow(s, Complete(t, i, outcome), i)
  {
  }

  lemma CompleteBooks(s: Sys, t: Sys, i: nat, outcome: Outcome)
    requires At(s, i) && Is(s.rows[i], Flying)
    requires t == s.(worker := t.worker, outstanding := s.outstanding - {i}, early := t.early)
    requires t.worker == s.worker || (t.worker.Idle? && s.worker.AtSubmit? && s.worker.row == i)
    requires t.worker == s.worker && s.worker.AtSubmit? && s.worker.row == i ==> s.worker.accepted
    requires Diagnosed(t)
    ensures LocalBooks(s, Complete(t, i, outcome), i)
  {
  }

  lemma CompleteLocal(s: Sys, t: Sys, i: nat, outcome: Outcome)
    requires At(s, i) && Is(s.rows[i], Flying)
    requires t == s.(worker := t.worker, outstanding := s.outstanding - {i}, early := t.early)
    requires t.worker == s.worker || (t.worker.Idle? && s.worker.AtSubmit? && s.worker.row == i)
    requires t.worker == s.worker && s.worker.AtSubmit? && s.worker.row == i ==> s.worker.accepted
    requires Diagnosed(t)
    ensures Local(s, Complete(t, i, outcome), i)
  {
    CompleteRow(s, t, i, outcome);
    CompleteBooks(s, t, i, outcome);
  }

  /** The worker returns to a row that is no longer in flight. */
  lemma WorkerLocal(s: Sys, s': Sys, i: nat)
    requires At(s, i) && !s.worker.Idle? && s.worker.row == i && !Is(s.rows[i], Flying)
    requires s' == s.(worker := Idle, faults := s'.faults, absent := s'.absent) && Diagnosed(s')
    ensures Local(s, s', i)
  {
  }

  lemma SubmittedLocal(s: Sys, i: nat, request: nat)
    requires At(s, i) && s.worker == AtSubmit(i, true) && s.rows[i].phase.Submitting?
    ensures Local(s, SubmitReturn(s, i, SubmitOk, request), i)
  {
  }

  lemma NoBuffersLocal(s: Sys, i: nat, request: nat)
    requires At(s, i) && s.worker == AtSubmit(i, false)
    ensures Local(s, SubmitReturn(s, i, NoBuffers, request), i)
  {
  }

  lemma SubmitReturnLocal(s: Sys, i: nat, status: SubmitStatus, request: nat)
    requires At(s, i) && s.worker.AtSubmit? && s.worker.row == i && (status.SubmitOk? <==> s.worker.accepted)
    ensures Local(s, SubmitReturn(s, i, status, request), i)
  {
    if !s.rows[i].phase.Submitting? {
      WorkerLocal(s, SubmitReturn(s, i, status, request), i);
    } else {
      match status
      case SubmitOk => SubmittedLocal(s, i, request);
      case NoBuffers => NoBuffersLocal(s, i, request);
      case SubmitError =>
        assert s.outstanding - {i} == s.outstanding;
        CompleteLocal(s, s.(worker := Idle), i, FailedSend);
    }
  }

  lemma CompleteEndLocal(s: Sys, i: nat)
    requires At(s, i) && i in s.finishing
    ensures Local(s, CompleteEnd(s, i), i)
  {
    assert s.preparing - {i} == s.preparing && s.ticketed - {i} == s.ticketed;
    ResetLocal(s, s.(finishing := s.finishing - {i}), i);
  }

  lemma CancelBeginLocal(s: Sys, i: nat)
    requires At(s, i) && s.worker.Idle? && s.rows[i].phase.Submitted? && s.rows[i].cancel
    ensures Local(s, CancelBegin(s, i), i)
  {
  }

  /** The answer to a cancel of a request still in flight. */
  lemma CancelAnsweredRow(s: Sys, i: nat, request: nat, status: CancelStatus)
    requires At(s, i) && s.worker == AtCancel(i, request) && s.rows[i].phase.Submitted? && !status.CancelAbsent?
    ensures LocalRow(s, CancelReturn(s, i, request, status), i)
  {
  }

  lemma CancelAnsweredBooks(s: Sys, i: nat, request: nat, status: CancelStatus)
    requires At(s, i) && s.worker == AtCancel(i, request) && s.rows[i].phase.Submitted? && !status.CancelAbsent?
    ensures LocalBooks(s, CancelReturn(s, i, request, status), i)
  {
  }

  lemma CancelAnsweredLocal(s: Sys, i: nat, request: nat, status: CancelStatus)
    requires At(s, i) && s.worker == AtCancel(i, request) && s.rows[i].phase.Submitted? && !status.CancelAbsent?
    ensures Local(s, CancelReturn(s, i, request, status), i)
  {
    CancelAnsweredRow(s, i, request, status);
    CancelAnsweredBooks(s, i, request, status);
  }

  lemma CancelReturnLocal(s: Sys, i: nat, request: nat, status: CancelStatus)
    requires At(s, i) && s.worker == AtCancel(i, request) && (status.CancelAbsent? ==> i !in s.outstanding)
    ensures Local(s, CancelReturn(s, i, request, status), i)
  {
    if s.rows[i].phase.Submitted? {
      CancelAnsweredLocal(s, i, request, status);
    } else {
      WorkerLocal(s, CancelReturn(s, i, request, status), i);
    }
  }

  lemma SubmitBeginInv(s: Sys, i: nat, now: nat)
    requires Inv(s) && Enabled(s, DoSubmitBegin(i, now))
    ensures Inv(Apply(s, DoSubmitBegin(i, now)))
  {
    AtRow(s, i);
    SubmitBeginLocal(s, i);
    LocalInv(s, SubmitBegin(s, i), i);
  }

  lemma ClientAcceptInv(s: Sys, i: nat)
    requires Inv(s) && Enabled(s, DoClientAccept(i))
    ensures Inv(Apply(s, DoClientAccept(i)))
  {
    AtRow(s, i);
    ClientAcceptLocal(s, i);
    LocalInv(s, ClientAccept(s, i), i);
  }

  lemma SubmitReturnInv(s: Sys, i: nat, status: SubmitStatus, request: nat)
    requires Inv(s) && Enabled(s, DoSubmitReturn(i, status, request))
    ensures Inv(Apply(s, DoSubmitReturn(i, status, request)))
  {
    AtRow(s, i);
    SubmitReturnLocal(s, i, status, request);
    LocalInv(s, SubmitReturn(s, i, status, request), i);
  }

  lemma CallbackInv(s: Sys, i: nat, outcome: Outcome)
    requires Inv(s) && Enabled(s, DoCallback(i, outcome))
    ensures Inv(Apply(s, DoCallback(i, outcome)))
  {
    AtRow(s, i);
    var t := s.(outstanding := s.outstanding - {i},
                early := s.early + if s.rows[i].phase.Submitting? then 1 else 0);
    CompleteLocal(s, t, i, outcome);
    LocalInv(s, Complete(t, i, outcome), i);
  }

  lemma CompleteEndInv(s: Sys, i: nat)
    requires Inv(s) && Enabled(s, DoCompleteEnd(i))
    ensures Inv(Apply(s, DoCompleteEnd(i)))
  {
    AtRow(s, i);
    CompleteEndLocal(s, i);
    LocalInv(s, CompleteEnd(s, i), i);
  }

  lemma CancelBeginInv(s: Sys, i: nat)
    requires Inv(s) && Enabled(s, DoCancelBegin(i))
    ensures Inv(Apply(s, DoCancelBegin(i)))
  {
    AtRow(s, i);
    CancelBeginLocal(s, i);
    LocalInv(s, CancelBegin(s, i), i);
  }

  lemma CancelReturnInv(s: Sys, i: nat, request: nat, status: CancelStatus)
    requires Inv(s) && Enabled(s, DoCancelReturn(i, request, status))
    ensures Inv(Apply(s, DoCancelReturn(i, request, status)))
  {
    AtRow(s, i);
    CancelReturnLocal(s, i, request, status);
    LocalInv(s, CancelReturn(s, i, request, status), i);
  }

  // ----- every step --------------------------------------------------------

  predicate BySession(step: Step) {
    step.DoReserve? || step.DoAbort? || step.DoFinish? || step.DoCommit? || step.DoDiscard?
    || step.DoPrepareCancel? || step.DoCancelCommit? || step.DoCancelDiscard?
  }

  predicate ByWorker(step: Step) {
    step.DoSubmitBegin? || step.DoClientAccept? || step.DoSubmitReturn? || step.DoCallback?
    || step.DoCompleteEnd? || step.DoCancelBegin? || step.DoCancelReturn?
  }

  lemma SendInv(s: Sys, step: Step)
    requires Inv(s) && Enabled(s, step)
    requires step.DoReserve? || step.DoAbort? || step.DoFinish? || step.DoCommit? || step.DoDiscard?
    ensures Inv(Apply(s, step))
  {
    match step {
      case DoReserve(b, i, id, delay) => ReserveInv(s, b, i, id, delay);
      case DoAbort(i) => AbortInv(s, i);
      case DoFinish(i) => FinishInv(s, i);
      case DoCommit(i, now) => CommitInv(s, i, now);
      case DoDiscard(i) => DiscardInv(s, i);
    }
  }

  lemma CancelInv(s: Sys, step: Step)
    requires Inv(s) && Enabled(s, step) && (step.DoPrepareCancel? || step.DoCancelCommit? || step.DoCancelDiscard?)
    ensures Inv(Apply(s, step))
  {
    match step {
      case DoPrepareCancel(b, i, id, k) => PrepareCancelInv(s, b, i, id, k);
      case DoCancelCommit(k) => CancelCommitInv(s, k);
      case DoCancelDiscard(k) => CancelDiscardInv(s, k);
    }
  }

  lemma SubmitInv(s: Sys, step: Step)
    requires Inv(s) && Enabled(s, step) && (step.DoSubmitBegin? || step.DoClientAccept? || step.DoSubmitReturn?)
    ensures Inv(Apply(s, step))
  {
    match step {
      case DoSubmitBegin(i, now) => SubmitBeginInv(s, i, now);
      case DoClientAccept(i) => ClientAcceptInv(s, i);
      case DoSubmitReturn(i, status, request) => SubmitReturnInv(s, i, status, request);
    }
  }

  lemma ClientInv(s: Sys, step: Step)
    requires Inv(s) && Enabled(s, step)
    requires step.DoCallback? || step.DoCompleteEnd? || step.DoCancelBegin? || step.DoCancelReturn?
    ensures Inv(Apply(s, step))
  {
    match step {
      case DoCallback(i, outcome) => CallbackInv(s, i, outcome);
      case DoCompleteEnd(i) => CompleteEndInv(s, i);
      case DoCancelBegin(i) => CancelBeginInv(s, i);
      case DoCancelReturn(i, request, status) => CancelReturnInv(s, i, request, status);
    }
  }

  lemma BinderInv(s: Sys, step: Step)
    requires Inv(s) && Enabled(s, step) && !BySession(step) && !ByWorker(step)
    ensures Inv(Apply(s, step))
  {
    match step {
      case DoInit(b) => InitInv(s, b);
      case DoActivate(b) => ActivateInv(s, b);
      case DoClose(b) => CloseInv(s, b);
      case DoQuiesce(b, downstream) => QuiesceInv(s, b, downstream);
      case DoDestroy(b) => DestroyInv(s, b);
      case DoEnter(b) => EnterInv(s, b);
      case DoLeave(b) => LeaveInv(s, b);
      case DoStop => StopInv(s);
      case DoPollFault => PollFaultInv(s);
    }
  }

  lemma StepInv(s: Sys, step: Step)
    requires Inv(s) && Enabled(s, step)
    ensures Inv(Apply(s, step))
  {
    if step.DoPrepareCancel? || step.DoCancelCommit? || step.DoCancelDiscard? {
      CancelInv(s, step);
    } else if BySession(step) {
      SendInv(s, step);
    } else if step.DoSubmitBegin? || step.DoClientAccept? || step.DoSubmitReturn? {
      SubmitInv(s, step);
    } else if ByWorker(step) {
      ClientInv(s, step);
    } else {
      BinderInv(s, step);
    }
  }
}
