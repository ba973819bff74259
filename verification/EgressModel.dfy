/**
 The BasicHTTP egress protocol. Every region that runs under the processor lock is one
 step; session threads, the worker and client callbacks interleave freely.
 */
module EgressModel {
  import opened Basics

  const U32_MAX: nat := 0xFFFF_FFFF

  /** A binding's address; bindings are never confused with earlier ones. 0 is NULL. */
  type Ref = nat

  datatype Phase = Free | Reserved | Ready | Submitting | Submitted | Completing

  /** An egress row. The last three fields are history: how often the row was taken,
      whether its current send was asked to stop in flight, whether the client took that on. */
  datatype Row = Row(phase: Phase, binding: Ref, gen: nat, sendId: string, delay: nat, due: nat,
                     order: nat, request: nat, cancel: bool,
                     inc: nat, wanted: bool, told: bool)
  {
    predicate InFlight() { phase.Submitting? || phase.Submitted? || phase.Completing? }
    predicate Committed() { phase.Ready? || InFlight() }
  }

  function Blank(r: Row): Row { Row(Free, 0, r.gen, "", 0, 0, 0, 0, false, r.inc, false, false) }

  datatype BindingState = Opening | Active | Closing | Quiescent

  /** `commits` and `sent` are history: commits so far, and the orders accepted by the client. */
  datatype Binding = Binding(state: BindingState, hasSession: bool, callbacks: nat, outbound: nat, next: nat,
                             commits: nat, sent: seq<nat>)
  {
    predicate Open() { state.Opening? || state.Active? }
  }

  /** A cancel ticket; `inc` is the incarnation of the row it was prepared against. */
  datatype Slot = Slot(index: nat, gen: nat, reserved: bool, inc: nat)

  /** Where the worker stands between two lock regions. */
  datatype Worker = Idle | AtSubmit(row: nat, accepted: bool) | AtCancel(row: nat, request: nat)

  datatype Outcome = Completed | FailedSend | CancelledSend

  /** Shared state, counters, and what the threads outside the lock still owe. */
  datatype Sys = Sys(
    running: bool, rows: seq<Row>, slots: seq<Slot>, bindings: map<Ref, Binding>, used: set<Ref>,
    queued: nat, inFlight: nat, accepted: nat, completed: nat, failed: nat, cancelled: nat, faults: nat,
    dropped: nat, early: nat, absent: nat, odd: nat, polls: nat,   // history
    worker: Worker,
    preparing: map<nat, Ref>,   // rows a prepare_send call is still filling
    ticketed: set<nat>,         // rows with an unsettled send ticket
    cancels: set<nat>,          // slots with an unsettled cancel ticket
    outstanding: set<nat>,      // requests the client has accepted and not yet completed
    finishing: set<nat>,        // completions between their two regions
    handlers: multiset<Ref>)    // ingress handlers between their two regions

  function Dec(n: nat): nat { if n == 0 then 0 else n - 1 }
  function NextGen(g: nat): nat { if g >= U32_MAX then 1 else g + 1 }
  function NextOrder(n: nat): nat { if n >= U64_MAX then 1 else n + 1 }
  function DueAt(now: nat, delay: nat): nat { if now + delay > U64_MAX then U64_MAX else now + delay }

  function SetRow(s: Sys, i: nat, r: Row): Sys
    requires i < |s.rows|
  {
    s.(rows := s.rows[i := r])
  }

  /** reset_row_locked */
  function Reset(s: Sys, i: nat): Sys
    requires i < |s.rows|
  {
    var b := s.rows[i].binding;
    var s1 := SetRow(s, i, Blank(s.rows[i]));
    if b in s.bindings then
      s1.(bindings := s.bindings[b := s.bindings[b].(outbound := Dec(s.bindings[b].outbound))])
    else s1
  }

  // ----- bindings ----------------------------------------------------------

  function Init(s: Sys, b: Ref): Sys {
    s.(bindings := s.bindings[b := Binding(Opening, false, 0, 0, 1, 0, [])], used := s.used + {b})
  }

  function Activate(s: Sys, b: Ref): Sys
    requires b in s.bindings
  {
    s.(bindings := s.bindings[b := s.bindings[b].(state := Active, hasSession := true)])
  }

  /** composite_is_quiescent, second region. */
  function Quiesce(s: Sys, b: Ref, downstream: bool): Sys
    requires b in s.bindings
  {
    var d := s.bindings[b];
    if d.state.Closing? && downstream && d.callbacks == 0 && d.outbound == 0 then
      s.(bindings := s.bindings[b := d.(state := Quiescent, hasSession := false)])
    else s
  }

  function Destroy(s: Sys, b: Ref): Sys { s.(bindings := s.bindings - {b}) }

  function Enter(s: Sys, b: Ref): Sys
    requires b in s.bindings
  {
    s.(bindings := s.bindings[b := s.bindings[b].(callbacks := s.bindings[b].callbacks + 1)],
       handlers := s.handlers + multiset{b})
  }

  /** The handler returns its reference; with none left to return this is a fault. */
  function Leave(s: Sys, b: Ref): Sys
    requires b in s.bindings
  {
    var s1 := s.(handlers := s.handlers - multiset{b});
    var d := s.bindings[b];
    if d.callbacks != 0 then s1.(bindings := s.bindings[b := d.(callbacks := d.callbacks - 1)])
    else s1.(faults := s.faults + 1)
  }

  // ----- sending -----------------------------------------------------------

  /** prepare_send, first region: take the row. */
  function Reserve(s: Sys, b: Ref, i: nat, id: string, delay: nat): Sys
    requires b in s.bindings && i < |s.rows|
  {
    var r := s.rows[i];
    var s1 := SetRow(s, i, r.(phase := Reserved, binding := b, gen := NextGen(r.gen), inc := r.inc + 1,
                              sendId := id, delay := delay));
    s1.(bindings := s.bindings[b := s.bindings[b].(outbound := s.bindings[b].outbound + 1)],
        queued := s.queued + 1, preparing := s.preparing[i := b])
  }

  function DropReserved(s: Sys, i: nat): Sys
    requires i < |s.rows|
  {
    if s.rows[i].phase.Reserved? then Reset(s.(queued := Dec(s.queued)), i) else s.(faults := s.faults + 1)
  }

  /** abort_reserved: resolving or encoding failed. */
  function Abort(s: Sys, i: nat): Sys
    requires i < |s.rows|
  {
    DropReserved(s.(preparing := s.preparing - {i}), i)
  }

  /** prepare_send, last region: hand out the ticket, unless the binding was closed meanwhile. */
  function Finish(s: Sys, i: nat): Sys
    requires i < |s.rows| && i in s.preparing && s.preparing[i] in s.bindings
  {
    var open := s.bindings[s.preparing[i]].Open();
    var s1 := s.(preparing := s.preparing - {i});
    if s.rows[i].phase.Reserved? && open then s1.(accepted := s.accepted + 1, ticketed := s.ticketed + {i})
    else if s.rows[i].phase.Reserved? then Reset(s1.(queued := Dec(s.queued)), i)
    else s1
  }

  /** egress_commit */
  function Commit(s: Sys, i: nat, now: nat): Sys
    requires i < |s.rows|
  {
    var r, b := s.rows[i], s.rows[i].binding;
    var s1 := s.(ticketed := s.ticketed - {i});
    if !r.phase.Reserved? || b !in s.bindings then s1.(faults := s.faults + 1)
    else if !s.running || !s.bindings[b].Open() then
      Reset(s1.(queued := Dec(s.queued), dropped := s.dropped + 1), i)
    else
      var d := s.bindings[b];
      SetRow(s1, i, r.(phase := Ready, order := d.next, due := DueAt(now, r.delay)))
      .(bindings := s.bindings[b := d.(next := NextOrder(d.next), commits := d.commits + 1)])
  }

  /** egress_discard */
  function Discard(s: Sys, i: nat): Sys
    requires i < |s.rows|
  {
    var s1 := s.(ticketed := s.ticketed - {i});
    if s.rows[i].phase.Reserved? then Reset(s1.(queued := Dec(s.queued), dropped := s.dropped + 1), i)
    else s1.(faults := s.faults + 1)
  }

  // ----- cancelling --------------------------------------------------------

  function PrepareCancel(s: Sys, i: nat, k: nat): Sys
    requires i < |s.rows| && k < |s.slots|
  {
    s.(slots := s.slots[k := Slot(i, s.rows[i].gen, true, s.rows[i].inc)], cancels := s.cancels + {k})
  }

  /** Stop one row: drop it while it waits, flag it while the client has it. */
  function StopRow(s: Sys, i: nat): Sys
    requires i < |s.rows|
  {
    var r := s.rows[i];
    if r.phase.Ready? then Reset(s.(queued := Dec(s.queued), cancelled := s.cancelled + 1), i)
    else if r.phase.Submitting? || r.phase.Submitted? then SetRow(s, i, r.(cancel := true, wanted := true))
    else s
  }

  /** cancel_commit */
  function CancelCommit(s: Sys, k: nat): Sys
    requires k < |s.slots|
  {
    var t := s.slots[k];
    var s1 := s.(cancels := s.cancels - {k});
    if !t.reserved || |s.rows| <= t.index then s1.(faults := s.faults + 1)
    else
      var s2 := s1.(slots := s.slots[k := t.(reserved := false)]);
      if s.rows[t.index].gen != t.gen then s2 else StopRow(s2, t.index)
  }

  function CancelDiscard(s: Sys, k: nat): Sys
    requires k < |s.slots|
  {
    var s1 := s.(cancels := s.cancels - {k});
    if s.slots[k].reserved then s1.(slots := s.slots[k := s.slots[k].(reserved := false)])
    else s1.(faults := s.faults + 1)
  }

  /** close_binding_locked over rows `i`.. */
  function CloseRows(s: Sys, b: Ref, i: nat): (s': Sys)
    requires i <= |s.rows|
    decreases |s.rows| - i
    ensures |s'.rows| == |s.rows|
  {
    if i == |s.rows| then s
    else CloseRows(if s.rows[i].binding == b then StopRow(s, i) else s, b, i + 1)
  }

  function SetClosing(s: Sys, b: Ref): Sys
    requires b in s.bindings
  {
    s.(bindings := s.bindings[b := s.bindings[b].(state := Closing)])
  }

  /** composite_close */
  function Close(s: Sys, b: Ref): Sys
    requires b in s.bindings
  {
    if s.bindings[b].Open() then CloseRows(SetClosing(s, b), b, 0) else s
  }

  // ----- the worker --------------------------------------------------------

  /** Another row of the same binding, committed earlier and still there. */
  predicate Blocked(s: Sys, i: nat)
    requires i < |s.rows|
  {
    exists j :: 0 <= j < |s.rows| && j != i && s.rows[j].binding == s.rows[i].binding
                && s.rows[j].Committed() && s.rows[j].order < s.rows[i].order
  }

  predicate Eligible(s: Sys, i: nat, now: nat)
    requires i < |s.rows|
  {
    var r := s.rows[i];
    && r.phase.Ready? && r.binding in s.bindings && s.bindings[r.binding].state.Active?
    && r.due <= now && !Blocked(s, i)
  }

  /** The row select_ready_locked picks: the earliest due eligible row, the first among equals. */
  predicate Selected(s: Sys, i: nat, now: nat)
    requires i < |s.rows|
  {
    Eligible(s, i, now)
    && forall j :: 0 <= j < |s.rows| && Eligible(s, j, now) ==>
         s.rows[i].due < s.rows[j].due || (s.rows[i].due == s.rows[j].due && i <= j)
  }

  function SubmitBegin(s: Sys, i: nat): Sys
    requires i < |s.rows|
  {
    SetRow(s, i, s.rows[i].(phase := Submitting))
    .(queued := Dec(s.queued), inFlight := s.inFlight + 1, worker := AtSubmit(i, false))
  }

  /** The client takes the request on, inside the submit call. */
  function ClientAccept(s: Sys, i: nat): Sys
    requires i < |s.rows|
  {
    var b := s.rows[i].binding;
    var s1 := s.(worker := AtSubmit(i, true), outstanding := s.outstanding + {i});
    if b in s.bindings then
      s1.(bindings := s.bindings[b := s.bindings[b].(sent := s.bindings[b].sent + [s.rows[i].order])])
    else s1
  }

  datatype SubmitStatus = SubmitOk | NoBuffers | SubmitError

  /** complete_row, first region. */
  function Complete(s: Sys, i: nat, outcome: Outcome): Sys
    requires i < |s.rows|
  {
    var r := s.rows[i];
    if !(r.phase.Submitted? || r.phase.Submitting?) || r.binding !in s.bindings then s.(faults := s.faults + 1)
    else
      SetRow(s, i, r.(phase := Completing))
      .(inFlight := Dec(s.inFlight), finishing := s.finishing + {i},
        completed := s.completed + (if outcome.Completed? then 1 else 0),
        failed := s.failed + (if outcome.FailedSend? then 1 else 0),
        cancelled := s.cancelled + (if outcome.CancelledSend? then 1 else 0))
  }

  /** submit_one after the client call returned. */
  function SubmitReturn(s: Sys, i: nat, status: SubmitStatus, request: nat): Sys
    requires i < |s.rows|
  {
    var r := s.rows[i];
    var s1 := s.(worker := Idle);
    if status.SubmitOk? && r.phase.Submitting? then SetRow(s1, i, r.(phase := Submitted, request := request))
    else if status.NoBuffers? && r.phase.Submitting? then
      SetRow(s1, i, r.(phase := Ready)).(queued := s.queued + 1, inFlight := Dec(s.inFlight))
    else Complete(s1, i, FailedSend)
  }

  /** request_complete: the client's callback, possibly before submit_one has resumed. */
  function Callback(s: Sys, i: nat, outcome: Outcome): Sys
    requires i < |s.rows|
  {
    Complete(s.(outstanding := s.outstanding - {i},
                early := s.early + if s.rows[i].phase.Submitting? then 1 else 0), i, outcome)
  }

  /** complete_row, second region, after the session was told. */
  function CompleteEnd(s: Sys, i: nat): Sys
    requires i < |s.rows|
  {
    var s1 := s.(finishing := s.finishing - {i});
    if s.rows[i].phase.Completing? then Reset(s1, i) else s1.(faults := s.faults + 1)
  }

  function CancelBegin(s: Sys, i: nat): Sys
    requires i < |s.rows|
  {
    SetRow(s, i, s.rows[i].(cancel := false)).(worker := AtCancel(i, s.rows[i].request))
  }

  datatype CancelStatus = CancelOk | CancelBusy | CancelError | CancelAbsent

  /** cancel_one after the client call returned. */
  function CancelReturn(s: Sys, i: nat, request: nat, status: CancelStatus): Sys
    requires i < |s.rows|
  {
    var r := s.rows[i];
    var s1 := s.(worker := Idle);
    var same := r.phase.Submitted? && r.request == request;
    match status
    case CancelOk => if same then SetRow(s1, i, r.(told := true)) else s1
    case CancelAbsent =>
      Complete(s1.(absent := s.absent + 1, faults := s.faults + if same then 1 else 0), i, CancelledSend)
    case CancelBusy => if same then SetRow(s1, i, r.(cancel := true)) else s1
    case CancelError =>
      if same then SetRow(s1, i, r.(cancel := true)).(faults := s.faults + 1, odd := s.odd + 1) else s1
  }

  /** The worker's poll of the client failed for another reason than shutdown. */
  function PollFault(s: Sys): Sys { s.(faults := s.faults + 1, polls := s.polls + 1) }

  // ----- steps -------------------------------------------------------------

  datatype Step =
    | DoInit(b: Ref) | DoActivate(b: Ref) | DoClose(b: Ref) | DoQuiesce(b: Ref, downstream: bool) | DoDestroy(b: Ref)
    | DoEnter(b: Ref) | DoLeave(b: Ref) | DoStop | DoPollFault
    | DoReserve(b: Ref, i: nat, id: string, delay: nat) | DoAbort(i: nat) | DoFinish(i: nat)
    | DoCommit(i: nat, now: nat) | DoDiscard(i: nat)
    | DoPrepareCancel(b: Ref, i: nat, id: string, k: nat) | DoCancelCommit(k: nat) | DoCancelDiscard(k: nat)
    | DoSubmitBegin(i: nat, now: nat) | DoClientAccept(i: nat) | DoSubmitReturn(i: nat, status: SubmitStatus, request: nat)
    | DoCallback(i: nat, outcome: Outcome) | DoCompleteEnd(i: nat)
    | DoCancelBegin(i: nat) | DoCancelReturn(i: nat, request: nat, cancelStatus: CancelStatus)

  predicate OpenBinding(s: Sys, b: Ref) { s.running && b in s.bindings && s.bindings[b].Open() }

  /** The row a cancel request names: the first live row of the binding with that identifier. */
  predicate FirstNamed(s: Sys, b: Ref, id: string, i: nat) {
    && i < |s.rows| && s.rows[i].binding == b && s.rows[i].sendId == id && !s.rows[i].phase.Free?
    && forall j :: 0 <= j < i ==> !(s.rows[j].binding == b && s.rows[j].sendId == id && !s.rows[j].phase.Free?)
  }

  predicate FirstFree(rows: seq<Row>, i: nat) {
    i < |rows| && rows[i].phase.Free? && forall j :: 0 <= j < i ==> !rows[j].phase.Free?
  }

  predicate FirstUnreserved(slots: seq<Slot>, k: nat) {
    k < |slots| && !slots[k].reserved && forall j :: 0 <= j < k ==> slots[j].reserved
  }

  predicate FirstFlagged(rows: seq<Row>, i: nat) {
    i < |rows| && rows[i].phase.Submitted? && rows[i].cancel
    && forall j :: 0 <= j < i ==> !(rows[j].phase.Submitted? && rows[j].cancel)
  }

  /** Who may take which step. The client reports an absent request only when it has no such
      request, and OK for a submission exactly when it accepted it. */
  predicate Enabled(s: Sys, step: Step) {
    match step
    case DoInit(b) => s.running && b != 0 && b !in s.used
    case DoActivate(b) => s.running && b in s.bindings && s.bindings[b].state.Opening?
    case DoClose(b) => b in s.bindings
    case DoQuiesce(b, _) => b in s.bindings
    case DoDestroy(b) => b in s.bindings && s.bindings[b].state.Quiescent?
    case DoEnter(b) => b in s.bindings && s.bindings[b].state.Active?
    case DoLeave(b) => b in s.handlers && b in s.bindings
    case DoStop => s.bindings == map[]
    case DoPollFault => s.worker.Idle?
    case DoReserve(b, i, _, _) => OpenBinding(s, b) && FirstFree(s.rows, i)
    case DoAbort(i) => i in s.preparing && i < |s.rows|
    case DoFinish(i) => i in s.preparing && i < |s.rows| && s.preparing[i] in s.bindings
    case DoCommit(i, _) => i in s.ticketed && i < |s.rows|
    case DoDiscard(i) => i in s.ticketed && i < |s.rows|
    case DoPrepareCancel(b, i, id, k) => OpenBinding(s, b) && FirstNamed(s, b, id, i) && FirstUnreserved(s.slots, k)
    case DoCancelCommit(k) => k in s.cancels && k < |s.slots|
    case DoCancelDiscard(k) => k in s.cancels && k < |s.slots|
    case DoSubmitBegin(i, now) => s.worker.Idle? && i < |s.rows| && Selected(s, i, now)
    case DoClientAccept(i) => s.worker == AtSubmit(i, false) && i < |s.rows|
    case DoSubmitReturn(i, status, _) =>
      s.worker.AtSubmit? && s.worker.row == i && i < |s.rows| && (status.SubmitOk? <==> s.worker.accepted)
    case DoCallback(i, _) => i in s.outstanding && i < |s.rows|
    case DoCompleteEnd(i) => i in s.finishing && i < |s.rows|
    case DoCancelBegin(i) => s.worker.Idle? && FirstFlagged(s.rows, i)
    case DoCancelReturn(i, request, status) =>
      s.worker == AtCancel(i, request) && i < |s.rows| && (status.CancelAbsent? ==> i !in s.outstanding)
  }

  function Apply(s: Sys, step: Step): Sys
    requires Enabled(s, step)
  {
    match step
    case DoInit(b) => Init(s, b)
    case DoActivate(b) => Activate(s, b)
    case DoClose(b) => Close(s, b)
    case DoQuiesce(b, downstream) => Quiesce(s, b, downstream)
    case DoDestroy(b) => Destroy(s, b)
    case DoEnter(b) => Enter(s, b)
    case DoLeave(b) => Leave(s, b)
    case DoStop => s.(running := false)
    case DoPollFault => PollFault(s)
    case DoReserve(b, i, id, delay) => Reserve(s, b, i, id, delay)
    case DoAbort(i) => Abort(s, i)
    case DoFinish(i) => Finish(s, i)
    case DoCommit(i, now) => Commit(s, i, now)
    case DoDiscard(i) => Discard(s, i)
    case DoPrepareCancel(_, i, _, k) => PrepareCancel(s, i, k)
    case DoCancelCommit(k) => CancelCommit(s, k)
    case DoCancelDiscard(k) => CancelDiscard(s, k)
    case DoSubmitBegin(i, _) => SubmitBegin(s, i)
    case DoClientAccept(i) => ClientAccept(s, i)
    case DoSubmitReturn(i, status, request) => SubmitReturn(s, i, status, request)
    case DoCallback(i, outcome) => Callback(s, i, outcome)
    case DoCompleteEnd(i) => CompleteEnd(s, i)
    case DoCancelBegin(i) => CancelBegin(s, i)
    case DoCancelReturn(i, request, status) => CancelReturn(s, i, request, status)
  }
}
