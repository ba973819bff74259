/**
 Per binding, rows reach the client one at a time and in commit order.
 */
module EgressOrder {
  import opened Basics
  import opened EgressModel
  import opened EgressInvariant
  import opened EgressSteps

  /** The binding has made fewer than 2^64 commits, so no commit number was used twice. */
  predicate Unwrapped(s: Sys, b: Ref) { b in s.bindings && s.bindings[b].commits <= U64_MAX }

  predicate Below(xs: seq<nat>, n: nat) { forall k :: 0 <= k < |xs| ==> xs[k] < n }

  predicate Increasing(xs: seq<nat>) { forall j, k :: 0 <= j < k < |xs| ==> xs[j] < xs[k] }

  predicate Numbered(d: Binding) {
    && (d.commits < U64_MAX ==> d.next == d.commits + 1)
    && (d.commits <= U64_MAX ==> Below(d.sent, d.commits + 1) && Increasing(d.sent))
  }

  /** The client has not accepted the row's request. */
  predicate Unsent(s: Sys, i: nat)
    requires i < |s.rows|
  {
    s.rows[i].phase.Ready? || s.worker == AtSubmit(i, false)
  }

  predicate Placed(s: Sys, i: nat)
    requires i < |s.rows|
  {
    var r := s.rows[i];
    r.Committed() && Unwrapped(s, r.binding) ==>
      && r.order <= s.bindings[r.binding].commits
      && (Unsent(s, i) ==> Below(s.bindings[r.binding].sent, r.order))
  }

  /** Committed rows of one binding have distinct numbers; one in flight precedes the others. */
  predicate Apart(s: Sys, i: nat, j: nat)
    requires i < |s.rows| && j < |s.rows|
  {
    var r, q := s.rows[i], s.rows[j];
    i != j && r.Committed() && q.Committed() && r.binding == q.binding && Unwrapped(s, r.binding) ==>
      r.order != q.order && (r.InFlight() ==> r.order < q.order)
  }

  ghost predicate Ordered(s: Sys) {
    && (forall b :: b in s.bindings ==> Numbered(s.bindings[b]))
    && (forall i :: 0 <= i < |s.rows| ==> Placed(s, i))
    && (forall i, j :: 0 <= i < |s.rows| && 0 <= j < |s.rows| ==> Apart(s, i, j))
  }

  // ----- changes that cannot disturb the order -----------------------------

  /** Numbers and histories stay; a new binding has none. */
  ghost predicate SameNumbers(s: Sys, s': Sys) {
    forall b :: b in s'.bindings ==> SameNumber(s, s', b)
  }

  predicate SameNumber(s: Sys, s': Sys, b: Ref)
    requires b in s'.bindings
  {
    if b in s.bindings then
      s'.bindings[b].next == s.bindings[b].next && s'.bindings[b].commits == s.bindings[b].commits
      && s'.bindings[b].sent == s.bindings[b].sent
    else s'.bindings[b].next == 1 && s'.bindings[b].commits == 0 && s'.bindings[b].sent == []
  }

  /** No row becomes committed, is sent back or goes in flight. */
  ghost predicate Calm(s: Sys, s': Sys) {
    && |s'.rows| == |s.rows| && SameNumbers(s, s')
    && (forall i :: 0 <= i < |s.rows| ==> CalmRow(s, s', i))
  }

  predicate CalmRow(s: Sys, s': Sys, i: nat)
    requires i < |s.rows| && i < |s'.rows|
  {
    var r, r' := s.rows[i], s'.rows[i];
    r'.Committed() ==>
      && r.Committed() && r'.binding == r.binding && r'.order == r.order && r.binding in s.bindings
      && (r'.InFlight() ==> r.InFlight()) && (Unsent(s', i) ==> Unsent(s, i))
  }

  lemma CalmOrdered(s: Sys, s': Sys)
    requires Ordered(s) && Calm(s, s')
    ensures Ordered(s')
  {
    forall i | 0 <= i < |s'.rows| ensures Placed(s', i) {
      assert CalmRow(s, s', i) && Placed(s, i);
    }
    forall i, j | 0 <= i < |s'.rows| && 0 <= j < |s'.rows| ensures Apart(s', i, j) {
      assert CalmRow(s, s', i) && CalmRow(s, s', j) && Apart(s, i, j);
    }
  }

  // ----- the three steps that matter ---------------------------------------

  lemma CommitOrdered(s: Sys, i: nat, now: nat)
    requires Inv(s) && Ordered(s) && i in s.ticketed && i < |s.rows|
    requires s.running && s.rows[i].binding in s.bindings && s.bindings[s.rows[i].binding].Open()
    ensures Ordered(Commit(s, i, now))
  {
    AtRow(s, i);
    CommitPlaced(s, i, now);
    CommitApart(s, i, now);
    var s', b := Commit(s, i, now), s.rows[i].binding;
    forall c | c in s'.bindings ensures Numbered(s'.bindings[c]) {
      assert Numbered(s.bindings[c]);
    }
  }

  lemma CommitPlaced(s: Sys, i: nat, now: nat)
    requires At(s, i) && Ordered(s) && i in s.ticketed
    requires s.running && s.bindings[s.rows[i].binding].Open()
    ensures forall j :: 0 <= j < |s.rows| ==> Placed(Commit(s, i, now), j)
  {
    var s', b := Commit(s, i, now), s.rows[i].binding;
    assert Numbered(s.bindings[b]);
    forall j | 0 <= j < |s.rows| ensures Placed(s', j) {
      assert Placed(s, j);
    }
  }

  lemma CommitApart(s: Sys, i: nat, now: nat)
    requires At(s, i) && Ordered(s) && i in s.ticketed
    requires s.running && s.bindings[s.rows[i].binding].Open()
    ensures forall j, k :: 0 <= j < |s.rows| && 0 <= k < |s.rows| ==> Apart(Commit(s, i, now), j, k)
  {
    var s', b := Commit(s, i, now), s.rows[i].binding;
    assert Numbered(s.bindings[b]);
    forall j, k | 0 <= j < |s.rows| && 0 <= k < |s.rows| ensures Apart(s', j, k) {
      assert Apart(s, j, k) && Placed(s, j) && Placed(s, k);
    }
  }

  lemma SubmitOrdered(s: Sys, i: nat, now: nat)
    requires Ordered(s) && Enabled(s, DoSubmitBegin(i, now))
    ensures Ordered(Apply(s, DoSubmitBegin(i, now)))
  {
    var s' := SubmitBegin(s, i);
    forall j | 0 <= j < |s'.rows| ensures Placed(s', j) { assert Placed(s, j); }
    forall j, k | 0 <= j < |s'.rows| && 0 <= k < |s'.rows| ensures Apart(s', j, k) {
      assert Apart(s, j, k) && Apart(s, k, j);
    }
  }

  lemma AcceptOrdered(s: Sys, i: nat)
    requires At(s, i) && Ordered(s) && s.worker == AtSubmit(i, false)
    ensures Ordered(Apply(s, DoClientAccept(i)))
  {
    var s', b := ClientAccept(s, i), s.rows[i].binding;
    assert s.rows[i].phase.Submitting? && Placed(s, i) && Numbered(s.bindings[b]);
    forall c | c in s'.bindings ensures Numbered(s'.bindings[c]) { assert Numbered(s.bindings[c]); }
    forall j | 0 <= j < |s'.rows| ensures Placed(s', j) { assert Placed(s, j) && Apart(s, i, j); }
    forall j, k | 0 <= j < |s'.rows| && 0 <= k < |s'.rows| ensures Apart(s', j, k) { assert Apart(s, j, k); }
  }

  // ----- all other steps are calm ------------------------------------------

  /** A calm step confined to row `i`. */
  lemma RowOrdered(s: Sys, s': Sys, i: nat)
    requires Owners(s) && Ordered(s) && i < |s.rows| == |s'.rows| && s'.rows == s.rows[i := s'.rows[i]]
    requires s'.worker == s.worker || s'.worker.AtCancel? || s'.worker.Idle?
    requires SameNumbers(s, s') && CalmRow(s, s', i)
    ensures Ordered(s')
  {
    forall j | 0 <= j < |s.rows| ensures CalmRow(s, s', j) { assert OwnerOk(s, s.rows[j]); }
    CalmOrdered(s, s');
  }

  lemma ResetOrdered(s: Sys, t: Sys, i: nat)
    requires Owners(s) && Ordered(s) && i < |s.rows|
    requires t.rows == s.rows && t.bindings == s.bindings && t.worker == s.worker
    ensures Ordered(Reset(t, i))
  {
    var s' := Reset(t, i);
    forall b | b in s'.bindings ensures SameNumber(s, s', b) { }
    RowOrdered(s, s', i);
  }

  lemma StopRowOrdered(s: Sys, i: nat)
    requires Owners(s) && Ordered(s) && i < |s.rows|
    ensures Ordered(StopRow(s, i))
  {
    if s.rows[i].phase.Ready? {
      ResetOrdered(s, s.(queued := Dec(s.queued), cancelled := s.cancelled + 1), i);
    } else {
      assert OwnerOk(s, s.rows[i]);
      RowOrdered(s, StopRow(s, i), i);
    }
  }

  lemma {:induction false} CloseRowsOrdered(s: Sys, b: Ref, i: nat)
    requires Inv(s) && Ordered(s) && i <= |s.rows|
    ensures Ordered(CloseRows(s, b, i))
    decreases |s.rows| - i
  {
    if i < |s.rows| {
      StopRowInv(s, i);
      StopRowOrdered(s, i);
      CloseRowsOrdered(if s.rows[i].binding == b then StopRow(s, i) else s, b, i + 1);
    }
  }

  /** Rows and worker stay as they are. */
  lemma RowsOrdered(s: Sys, s': Sys)
    requires Owners(s) && Ordered(s) && s'.rows == s.rows && s'.worker == s.worker && SameNumbers(s, s')
    ensures Ordered(s')
  {
    forall j | 0 <= j < |s.rows| ensures CalmRow(s, s', j) { assert OwnerOk(s, s.rows[j]); }
    CalmOrdered(s, s');
  }

  lemma CloseOrdered(s: Sys, b: Ref)
    requires Inv(s) && Ordered(s) && b in s.bindings
    ensures Ordered(Close(s, b))
  {
    if s.bindings[b].Open() {
      SetClosingInv(s, b);
      RowsOrdered(s, SetClosing(s, b));
      CloseRowsOrdered(SetClosing(s, b), b, 0);
    }
  }

  lemma BinderOrdered(s: Sys, step: Step)
    requires Inv(s) && Ordered(s) && Enabled(s, step) && !BySession(step) && !ByWorker(step)
    ensures Ordered(Apply(s, step))
  {
    if step.DoClose? {
      CloseOrdered(s, step.b);
    } else {
      forall b | b in s.bindings ensures b in s.used { assert BindingOk(s, b); }
      BinderCalm(s, step);
      RowsOrdered(s, Apply(s, step));
    }
  }

  lemma BinderCalm(s: Sys, step: Step)
    requires forall b :: b in s.bindings ==> b in s.used
    requires Enabled(s, step) && !BySession(step) && !ByWorker(step) && !step.DoClose?
    ensures var s' := Apply(s, step); s'.rows == s.rows && s'.worker == s.worker && SameNumbers(s, s')
  {
  }

  lemma ReserveOrdered(s: Sys, b: Ref, i: nat, id: string, delay: nat)
    requires Owners(s) && Ordered(s) && b in s.bindings && i < |s.rows|
    ensures Ordered(Reserve(s, b, i, id, delay))
  {
    RowOrdered(s, Reserve(s, b, i, id, delay), i);
  }

  lemma AbortOrdered(s: Sys, i: nat)
    requires Owners(s) && Ordered(s) && i < |s.rows|
    ensures Ordered(Abort(s, i))
  {
    if s.rows[i].phase.Reserved? {
      ResetOrdered(s, s.(preparing := s.preparing - {i}, queued := Dec(s.queued)), i);
    } else {
      RowsOrdered(s, Abort(s, i));
    }
  }

  lemma FinishOrdered(s: Sys, i: nat)
    requires Owners(s) && Ordered(s) && Enabled(s, DoFinish(i))
    ensures Ordered(Finish(s, i))
  {
    if s.rows[i].phase.Reserved? && !s.bindings[s.preparing[i]].Open() {
      ResetOrdered(s, s.(preparing := s.preparing - {i}, queued := Dec(s.queued)), i);
    } else {
      RowsOrdered(s, Finish(s, i));
    }
  }

  lemma DropOrdered(s: Sys, i: nat)
    requires Owners(s) && Ordered(s) && i < |s.rows|
    ensures Ordered(Reset(s.(ticketed := s.ticketed - {i}, queued := Dec(s.queued), dropped := s.dropped + 1), i))
  {
    ResetOrdered(s, s.(ticketed := s.ticketed - {i}, queued := Dec(s.queued), dropped := s.dropped + 1), i);
  }

  lemma CommitStepOrdered(s: Sys, i: nat, now: nat)
    requires Inv(s) && Ordered(s) && Enabled(s, DoCommit(i, now))
    ensures Ordered(Commit(s, i, now))
  {
    AtRow(s, i);
    if s.running && s.bindings[s.rows[i].binding].Open() {
      CommitOrdered(s, i, now);
    } else {
      DropOrdered(s, i);
      assert Commit(s, i, now)
          == Reset(s.(ticketed := s.ticketed - {i}, queued := Dec(s.queued), dropped := s.dropped + 1), i);
    }
  }

  lemma DiscardOrdered(s: Sys, i: nat)
    requires Owners(s) && Ordered(s) && i < |s.rows|
    ensures Ordered(Discard(s, i))
  {
    if s.rows[i].phase.Reserved? { DropOrdered(s, i); } else { RowsOrdered(s, Discard(s, i)); }
  }

  lemma CancelCommitOrdered(s: Sys, k: nat)
    requires Owners(s) && Ordered(s) && k < |s.slots|
    ensures Ordered(CancelCommit(s, k))
  {
    var t := s.slots[k];
    var s2 := s.(cancels := s.cancels - {k}, slots := s.slots[k := t.(reserved := false)]);
    if !t.reserved || |s.rows| <= t.index || s.rows[t.index].gen != t.gen {
      RowsOrdered(s, CancelCommit(s, k));
    } else {
      RowsOrdered(s, s2);
      forall i | 0 <= i < |s2.rows| ensures OwnerOk(s2, s2.rows[i]) { assert OwnerOk(s, s.rows[i]); }
      StopRowOrdered(s2, t.index);
    }
  }

  lemma SubmitReturnOrdered(s: Sys, i: nat, status: SubmitStatus, request: nat)
    requires At(s, i) && Owners(s) && Ordered(s) && Enabled(s, DoSubmitReturn(i, status, request))
    ensures Ordered(Apply(s, DoSubmitReturn(i, status, request)))
  {
    RowOrdered(s, SubmitReturn(s, i, status, request), i);
  }

  lemma CallbackOrdered(s: Sys, i: nat, outcome: Outcome)
    requires At(s, i) && Owners(s) && Ordered(s)
    ensures Ordered(Callback(s, i, outcome))
  {
    RowOrdered(s, Callback(s, i, outcome), i);
  }

  lemma CompleteEndOrdered(s: Sys, i: nat)
    requires Owners(s) && Ordered(s) && i < |s.rows|
    ensures Ordered(CompleteEnd(s, i))
  {
    if s.rows[i].phase.Completing? {
      ResetOrdered(s, s.(finishing := s.finishing - {i}), i);
    } else {
      RowsOrdered(s, CompleteEnd(s, i));
    }
  }

  lemma CancelReturnOrdered(s: Sys, i: nat, request: nat, status: CancelStatus)
    requires At(s, i) && Owners(s) && Ordered(s) && s.worker == AtCancel(i, request)
    ensures Ordered(CancelReturn(s, i, request, status))
  {
    RowOrdered(s, CancelReturn(s, i, request, status), i);
  }

  lemma PrepareCancelOrdered(s: Sys, i: nat, k: nat)
    requires Owners(s) && Ordered(s) && i < |s.rows| && k < |s.slots|
    ensures Ordered(PrepareCancel(s, i, k))
  {
    RowsOrdered(s, PrepareCancel(s, i, k));
  }

  lemma CancelDiscardOrdered(s: Sys, k: nat)
    requires Owners(s) && Ordered(s) && k < |s.slots|
    ensures Ordered(CancelDiscard(s, k))
  {
    RowsOrdered(s, CancelDiscard(s, k));
  }

  lemma CancelBeginOrdered(s: Sys, i: nat)
    requires At(s, i) && Owners(s) && Ordered(s)
    ensures Ordered(CancelBegin(s, i))
  {
    RowOrdered(s, CancelBegin(s, i), i);
  }

  lemma PrepareStepOrdered(s: Sys, step: Step)
    requires Inv(s) && Ordered(s) && Enabled(s, step) && (step.DoReserve? || step.DoAbort? || step.DoFinish?)
    ensures Ordered(Apply(s, step))
  {
    if step.DoReserve? {
      ReserveOrdered(s, step.b, step.i, step.id, step.delay);
    } else if step.DoAbort? {
      AbortOrdered(s, step.i);
    } else {
      FinishOrdered(s, step.i);
    }
  }

  lemma SendStepOrdered(s: Sys, step: Step)
    requires Inv(s) && Ordered(s) && Enabled(s, step)
    requires step.DoReserve? || step.DoAbort? || step.DoFinish? || step.DoCommit? || step.DoDiscard?
    ensures Ordered(Apply(s, step))
  {
    if step.DoCommit? {
      CommitStepOrdered(s, step.i, step.now);
    } else if step.DoDiscard? {
      DiscardOrdered(s, step.i);
    } else {
      PrepareStepOrdered(s, step);
    }
  }

  lemma CancelStepOrdered(s: Sys, step: Step)
    requires Inv(s) && Ordered(s) && Enabled(s, step)
    requires step.DoPrepareCancel? || step.DoCancelCommit? || step.DoCancelDiscard?
    ensures Ordered(Apply(s, step))
  {
    match step {
      case DoPrepareCancel(_, i, _, k) => PrepareCancelOrdered(s, i, k);
      case DoCancelCommit(k) => CancelCommitOrdered(s, k);
      case DoCancelDiscard(k) => CancelDiscardOrdered(s, k);
    }
  }

  lemma SubmitStepOrdered(s: Sys, step: Step)
    requires Inv(s) && Ordered(s) && Enabled(s, step) && (step.DoSubmitBegin? || step.DoClientAccept? || step.DoSubmitReturn?)
    ensures Ordered(Apply(s, step))
  {
    if step.DoSubmitBegin? {
      SubmitOrdered(s, step.i, step.now);
    } else {
      AtRow(s, step.i);
      if step.DoClientAccept? {
        AcceptOrdered(s, step.i);
      } else {
        SubmitReturnOrdered(s, step.i, step.status, step.request);
      }
    }
  }

  lemma CallbackStepOrdered(s: Sys, step: Step)
    requires Inv(s) && Ordered(s) && Enabled(s, step) && (step.DoCallback? || step.DoCompleteEnd?)
    ensures Ordered(Apply(s, step))
  {
    if step.DoCallback? {
      AtRow(s, step.i);
      CallbackOrdered(s, step.i, step.outcome);
    } else {
      CompleteEndOrdered(s, step.i);
    }
  }

  lemma CancelReturnStepOrdered(s: Sys, step: Step)
    requires Inv(s) && Ordered(s) && Enabled(s, step) && (step.DoCancelBegin? || step.DoCancelReturn?)
    ensures Ordered(Apply(s, step))
  {
    AtRow(s, step.i);
    if step.DoCancelBegin? {
      CancelBeginOrdered(s, step.i);
    } else {
      CancelReturnOrdered(s, step.i, step.request, step.cancelStatus);
    }
  }

  lemma StepOrdered(s: Sys, step: Step)
    requires Inv(s) && Ordered(s) && Enabled(s, step)
    ensures Ordered(Apply(s, step))
  {
    if step.DoPrepareCancel? || step.DoCancelCommit? || step.DoCancelDiscard? {
      CancelStepOrdered(s, step);
    } else if BySession(step) {
      SendStepOrdered(s, step);
    } else if step.DoSubmitBegin? || step.DoClientAccept? || step.DoSubmitReturn? {
      SubmitStepOrdered(s, step);
    } else if step.DoCallback? || step.DoCompleteEnd? {
      CallbackStepOrdered(s, step);
    } else if ByWorker(step) {
      CancelReturnStepOrdered(s, step);
    } else {
      BinderOrdered(s, step);
    }
  }
}
