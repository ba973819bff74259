/**
 The egress half of the processor as code: rows and cancel tickets are arrays changed in place,
 each method is one region under the lock, and each is exactly one step of the protocol.
 */
module EgressProcessor {
  import opened EgressModel
  import opened EgressInvariant
  import opened EgressSteps
  import EgressRuns

  datatype Admission = Accepted | ClosedBinding | Full

  datatype Activation = Activated | Already | Busy

  /** A binding has no reference exactly when it has no row, and no callback exactly when it has no handler. */
  lemma NothingLeft(s: Sys, b: Ref)
    requires Inv(s) && b in s.bindings
    ensures s.bindings[b].outbound == 0 <==> forall i :: 0 <= i < |s.rows| ==> s.rows[i].binding != b
    ensures s.bindings[b].callbacks == 0 <==> b !in s.handlers
  {
    assert BindingOk(s, b);
    forall i | 0 <= i < |s.rows| && s.bindings[b].outbound == 0 ensures s.rows[i].binding != b {
      assert Fits(s.rows[i], DutyOf(s, i));
      if s.rows[i].binding == b { CountPositive(s.rows, i, OwnedBy(b)); }
    }
    if forall i :: 0 <= i < |s.rows| ==> s.rows[i].binding != b { CountZero(s.rows, OwnedBy(b)); }
  }

  class Processor {
    const rows: array<Row>
    const slots: array<Slot>
    var running: bool
    var bindings: map<Ref, Binding>
    var queued: nat
    var inFlight: nat
    var accepted: nat
    var completed: nat
    var failed: nat
    var cancelled: nat
    var faults: nat
    /** The protocol state this object is in, with what other threads owe. */
    ghost var world: Sys

    ghost predicate Agrees()
      reads this, rows, slots
    {
      && rows[..] == world.rows && slots[..] == world.slots && running == world.running && bindings == world.bindings
      && queued == world.queued && inFlight == world.inFlight && accepted == world.accepted
      && completed == world.completed && failed == world.failed && cancelled == world.cancelled && faults == world.faults
    }

    constructor (capacity: nat)
      ensures Agrees() && fresh(rows) && fresh(slots) && world == EgressRuns.Started(capacity)
    {
      var r := new Row[capacity](_ => Row(Free, 0, 0, "", 0, 0, 0, 0, false, 0, false, false));
      var s := new Slot[capacity](_ => Slot(0, 0, false, 0));
      rows, slots := r, s;
      running, bindings := true, map[];
      queued, inFlight, accepted, completed, failed, cancelled, faults := 0, 0, 0, 0, 0, 0, 0;
      new;
      world := EgressRuns.Started(capacity);
    }

    // ----- pieces shared by several regions --------------------------------

    method Put(i: nat, r: Row)
      requires Agrees() && i < rows.Length
      modifies rows, this`world
      ensures Agrees() && world == SetRow(old(world), i, r)
    {
      rows[i] := r;
      world := SetRow(world, i, r);
    }

    method ResetRow(i: nat)
      requires Agrees() && i < rows.Length
      modifies rows, this`bindings, this`world
      ensures Agrees() && world == Reset(old(world), i)
    {
      var b := rows[i].binding;
      if b in bindings && bindings[b].outbound != 0 {
        bindings := bindings[b := bindings[b].(outbound := bindings[b].outbound - 1)];
      }
      rows[i] := Blank(rows[i]);
      world := Reset(world, i);
    }

    method Unqueue()
      requires Agrees()
      modifies this`queued, this`world
      ensures Agrees() && world == old(world).(queued := Dec(old(world).queued))
    {
      if queued != 0 { queued := queued - 1; }
      world := world.(queued := queued);
    }

    method Fault()
      requires Agrees()
      modifies this`faults, this`world
      ensures Agrees() && world == old(world).(faults := old(world).faults + 1)
    {
      faults := faults + 1;
      world := world.(faults := faults);
    }

    // ----- bindings and ingress handlers -----------------------------------

    method Activate(b: Ref) returns (status: Activation)
      requires Agrees() && b in world.bindings
      modifies this
      ensures Agrees()
      ensures status.Activated? <==> Enabled(old(world), DoActivate(b))
      ensures status.Already? <==> old(world).bindings[b].state.Active?
      ensures world == if status.Activated? then Apply(old(world), DoActivate(b)) else old(world)
    {
      if bindings[b].state.Active? { return Already; }
      if !bindings[b].state.Opening? || !running { return Busy; }
      bindings := bindings[b := bindings[b].(state := Active, hasSession := true)];
      world := EgressModel.Activate(world, b);
      return Activated;
    }

    /** The second region of composite_is_quiescent: a closing binding is quiescent if and only if what it
        forwards to is, no handler is under way and no row is left. */
    method IsQuiescent(b: Ref, downstream: bool) returns (quiescent: bool)
      requires Agrees() && Inv(world) && Enabled(world, DoQuiesce(b, downstream))
      modifies this
      ensures Agrees() && world == Apply(old(world), DoQuiesce(b, downstream))
      ensures quiescent <==>
        && old(world).bindings[b].state.Closing? && downstream && b !in old(world).handlers
        && forall i :: 0 <= i < |old(world).rows| ==> old(world).rows[i].binding != b
      ensures Enabled(world, DoDestroy(b)) <==> quiescent || Enabled(old(world), DoDestroy(b))
    {
      var d := bindings[b];
      quiescent := d.state.Closing? && downstream && d.callbacks == 0 && d.outbound == 0;
      NothingLeft(world, b);
      if quiescent { bindings := bindings[b := d.(state := Quiescent, hasSession := false)]; }
      world := Quiesce(world, b, downstream);
    }

    /** Registers a handler unless the endpoint is gone (410). */
    method EnterHandler(b: Ref) returns (ok: bool)
      requires Agrees() && Inv(world) && b in world.bindings
      modifies this
      ensures Agrees() && (ok <==> Enabled(old(world), DoEnter(b)))
      ensures world == if ok then Apply(old(world), DoEnter(b)) else old(world)
    {
      assert BindingOk(world, b);
      if !bindings[b].state.Active? || !bindings[b].hasSession { return false; }
      bindings := bindings[b := bindings[b].(callbacks := bindings[b].callbacks + 1)];
      world := Enter(world, b);
      return true;
    }

    method LeaveHandler(b: Ref)
      requires Agrees() && Enabled(world, DoLeave(b))
      modifies this
      ensures Agrees() && world == Apply(old(world), DoLeave(b))
    {
      world := Leave(world, b);
      var d := bindings[b];
      if d.callbacks != 0 {
        bindings := bindings[b := d.(callbacks := d.callbacks - 1)];
      } else {
        faults := faults + 1;
      }
    }

    method PollFailed()
      requires Agrees() && Enabled(world, DoPollFault)
      modifies this
      ensures Agrees() && world == Apply(old(world), DoPollFault)
    {
      Fault();
      world := world.(polls := world.polls + 1);
    }

    // ----- sending ---------------------------------------------------------

    method PrepareSend(b: Ref, id: string, delay: nat) returns (status: Admission, i: nat)
      requires Agrees()
      modifies this, rows
      ensures Agrees()
      ensures status.ClosedBinding? <==> !OpenBinding(old(world), b)
      ensures status.Full? ==> forall j :: 0 <= j < |old(world).rows| ==> !old(world).rows[j].phase.Free?
      ensures if status.Accepted? then Enabled(old(world), DoReserve(b, i, id, delay)) && world == Reserve(old(world), b, i, id, delay)
              else world == old(world)
    {
      i := 0;
      if !running || b !in bindings || !bindings[b].Open() { return ClosedBinding, 0; }
      while i < rows.Length && !rows[i].phase.Free?
        invariant 0 <= i <= rows.Length && forall j :: 0 <= j < i ==> !rows[j].phase.Free?
      {
        i := i + 1;
      }
      if i == rows.Length { return Full, 0; }
      var r := rows[i];
      rows[i] := r.(phase := Reserved, binding := b, gen := NextGen(r.gen), inc := r.inc + 1, sendId := id, delay := delay);
      bindings := bindings[b := bindings[b].(outbound := bindings[b].outbound + 1)];
      queued := queued + 1;
      world := Reserve(world, b, i, id, delay);
      status := Accepted;
    }

    method AbortReserved(i: nat)
      requires Agrees() && Enabled(world, DoAbort(i))
      modifies this, rows
      ensures Agrees() && world == Apply(old(world), DoAbort(i))
    {
      world := world.(preparing := world.preparing - {i});
      if rows[i].phase.Reserved? {
        Unqueue();
        ResetRow(i);
      } else {
        Fault();
      }
    }

    method FinishSend(i: nat, b: Ref) returns (status: Admission)
      requires Agrees() && Enabled(world, DoFinish(i)) && b == world.preparing[i]
      modifies this, rows
      ensures Agrees() && world == Apply(old(world), DoFinish(i))
      ensures status.Accepted? <==> world.ticketed == old(world).ticketed + {i} && world.accepted == old(world).accepted + 1
    {
      world := world.(preparing := world.preparing - {i});
      if !rows[i].phase.Reserved? || !bindings[b].Open() {
        if rows[i].phase.Reserved? {
          Unqueue();
          ResetRow(i);
        }
        return ClosedBinding;
      }
      accepted := accepted + 1;
      world := world.(accepted := accepted, ticketed := world.ticketed + {i});
      status := Accepted;
    }

    method Commit(i: nat, now: nat)
      requires Agrees() && Enabled(world, DoCommit(i, now))
      modifies this, rows
      ensures Agrees() && world == Apply(old(world), DoCommit(i, now))
    {
      world := world.(ticketed := world.ticketed - {i});
      var b := rows[i].binding;
      if !rows[i].phase.Reserved? || b !in bindings {
        Fault();
        return;
      }
      if !running || !bindings[b].Open() {
        Unqueue();
        world := world.(dropped := world.dropped + 1);
        ResetRow(i);
        return;
      }
      var d := bindings[b];
      Put(i, rows[i].(phase := Ready, order := d.next, due := DueAt(now, rows[i].delay)));
      bindings := bindings[b := d.(next := NextOrder(d.next), commits := d.commits + 1)];
      world := world.(bindings := bindings);
    }

    method Discard(i: nat)
      requires Agrees() && Enabled(world, DoDiscard(i))
      modifies this, rows
      ensures Agrees() && world == Apply(old(world), DoDiscard(i))
    {
      world := world.(ticketed := world.ticketed - {i});
      if rows[i].phase.Reserved? {
        Unqueue();
        world := world.(dropped := world.dropped + 1);
        ResetRow(i);
      } else {
        Fault();
      }
    }

    // ----- cancelling ------------------------------------------------------

    /** `handled` says whether the identifier names a row here at all. */
    method PrepareCancel(b: Ref, id: string) returns (status: Admission, handled: bool, k: nat)
      requires Agrees()
      modifies this, slots
      ensures Agrees()
      ensures status.ClosedBinding? <==> !OpenBinding(old(world), b)
      ensures !status.ClosedBinding? ==> (handled <==> exists i :: FirstNamed(old(world), b, id, i))
      ensures status.Full? ==> handled && forall j :: 0 <= j < |old(world).slots| ==> old(world).slots[j].reserved
      ensures if status.Accepted? && handled
              then exists i :: Enabled(old(world), DoPrepareCancel(b, i, id, k)) && world == EgressModel.PrepareCancel(old(world), i, k)
              else world == old(world)
    {
      k, handled := 0, false;
      if !running || b !in bindings || !bindings[b].Open() { return ClosedBinding, false, 0; }
      var i: nat := 0;
      while i < rows.Length && !(rows[i].binding == b && rows[i].sendId == id && !rows[i].phase.Free?)
        invariant 0 <= i <= rows.Length
        invariant forall j :: 0 <= j < i ==> !(rows[j].binding == b && rows[j].sendId == id && !rows[j].phase.Free?)
      {
        i := i + 1;
      }
      if i == rows.Length { return Accepted, false, 0; }
      assert FirstNamed(world, b, id, i);
      handled := true;
      while k < slots.Length && slots[k].reserved
        invariant 0 <= k <= slots.Length && forall j :: 0 <= j < k ==> slots[j].reserved
      {
        k := k + 1;
      }
      if k == slots.Length { return Full, true, 0; }
      slots[k] := Slot(i, rows[i].gen, true, rows[i].inc);
      world := EgressModel.PrepareCancel(world, i, k);
      status := Accepted;
    }

    method StopAt(i: nat)
      requires Agrees() && i < rows.Length
      modifies this, rows
      ensures Agrees() && world == StopRow(old(world), i)
    {
      var r := rows[i];
      if r.phase.Ready? {
        Unqueue();
        cancelled := cancelled + 1;
        world := world.(cancelled := cancelled);
        ResetRow(i);
      } else if r.phase.Submitting? || r.phase.Submitted? {
        Put(i, r.(cancel := true, wanted := true));
      }
    }

    method CancelCommit(k: nat)
      requires Agrees() && Enabled(world, DoCancelCommit(k))
      modifies this, rows, slots
      ensures Agrees() && world == Apply(old(world), DoCancelCommit(k))
    {
      world := world.(cancels := world.cancels - {k});
      var t := slots[k];
      if !t.reserved || rows.Length <= t.index {
        Fault();
        return;
      }
      slots[k] := t.(reserved := false);
      world := world.(slots := slots[..]);
      if rows[t.index].gen != t.gen { return; }
      StopAt(t.index);
    }

    method CancelDiscard(k: nat)
      requires Agrees() && Enabled(world, DoCancelDiscard(k))
      modifies this, slots
      ensures Agrees() && world == Apply(old(world), DoCancelDiscard(k))
    {
      world := world.(cancels := world.cancels - {k});
      if slots[k].reserved {
        slots[k] := slots[k].(reserved := false);
        world := world.(slots := slots[..]);
      } else {
        Fault();
      }
    }

    method CloseBinding(b: Ref)
      requires Agrees() && Enabled(world, DoClose(b))
      modifies this, rows
      ensures Agrees() && world == Apply(old(world), DoClose(b))
    {
      if !bindings[b].Open() { return; }
      bindings := bindings[b := bindings[b].(state := Closing)];
      world := SetClosing(world, b);
      ghost var start := world;
      var i: nat := 0;
      while i < rows.Length
        invariant Agrees() && i <= rows.Length
        invariant CloseRows(start, b, 0) == CloseRows(world, b, i)
      {
        if rows[i].binding == b { StopAt(i); }
        i := i + 1;
      }
    }

    // ----- the worker ------------------------------------------------------

    method EarlierRowBlocks(i: nat) returns (blocked: bool)
      requires Agrees() && i < rows.Length
      ensures blocked <==> Blocked(world, i)
    {
      var j := 0;
      blocked := false;
      while j < rows.Length && !blocked
        invariant 0 <= j <= rows.Length
        invariant blocked ==> Blocked(world, i)
        invariant !blocked ==> forall m :: 0 <= m < j ==>
          !(m != i && world.rows[m].binding == world.rows[i].binding && world.rows[m].Committed()
            && world.rows[m].order < world.rows[i].order)
      {
        var q := rows[j];
        if j != i && q.binding == rows[i].binding && q.Committed() && q.order < rows[i].order { blocked := true; }
        j := j + 1;
      }
    }

    method SelectReady(now: nat) returns (found: bool, i: nat)
      requires Agrees()
      ensures found ==> i < rows.Length && Selected(world, i, now)
      ensures !found ==> forall j :: 0 <= j < |world.rows| ==> !Eligible(world, j, now)
    {
      found, i := false, 0;
      var j: nat := 0;
      while j < rows.Length
        invariant 0 <= j <= rows.Length
        invariant found ==> i < j && Eligible(world, i, now)
        invariant forall m :: 0 <= m < j && Eligible(world, m, now) ==>
          found && (world.rows[i].due < world.rows[m].due || (world.rows[i].due == world.rows[m].due && i <= m))
      {
        var r := rows[j];
        if r.phase.Ready? && r.binding in bindings && bindings[r.binding].state.Active? && r.due <= now {
          var blocked := EarlierRowBlocks(j);
          if !blocked && (!found || r.due < rows[i].due) { found, i := true, j; }
        }
        j := j + 1;
      }
    }

    method SubmitOne(now: nat) returns (found: bool, i: nat)
      requires Agrees() && world.worker.Idle?
      modifies this, rows
      ensures Agrees()
      ensures if found then Enabled(old(world), DoSubmitBegin(i, now)) && world == SubmitBegin(old(world), i)
              else world == old(world) && forall j :: 0 <= j < |world.rows| ==> !Eligible(world, j, now)
    {
      found, i := SelectReady(now);
      if !found { return; }
      Put(i, rows[i].(phase := Submitting));
      Unqueue();
      inFlight := inFlight + 1;
      world := world.(inFlight := inFlight, worker := AtSubmit(i, false));
    }

    method CompleteRow(i: nat, outcome: Outcome)
      requires Agrees() && i < rows.Length
      modifies this, rows
      ensures Agrees() && world == Complete(old(world), i, outcome)
    {
      var r := rows[i];
      if !(r.phase.Submitted? || r.phase.Submitting?) || r.binding !in bindings {
        Fault();
        return;
      }
      Put(i, r.(phase := Completing));
      if inFlight != 0 { inFlight := inFlight - 1; }
      match outcome {
        case Completed => completed := completed + 1;
        case FailedSend => failed := failed + 1;
        case CancelledSend => cancelled := cancelled + 1;
      }
      world := world.(inFlight := inFlight, completed := completed, failed := failed, cancelled := cancelled,
                      finishing := world.finishing + {i});
    }

    method SubmitReturned(i: nat, status: SubmitStatus, request: nat)
      requires Agrees() && Enabled(world, DoSubmitReturn(i, status, request))
      modifies this, rows
      ensures Agrees() && world == Apply(old(world), DoSubmitReturn(i, status, request))
    {
      world := world.(worker := Idle);
      var r := rows[i];
      if status.SubmitOk? && r.phase.Submitting? {
        Put(i, r.(phase := Submitted, request := request));
      } else if status.NoBuffers? && r.phase.Submitting? {
        Put(i, r.(phase := Ready));
        queued := queued + 1;
        if inFlight != 0 { inFlight := inFlight - 1; }
        world := world.(queued := queued, inFlight := inFlight);
      } else {
        CompleteRow(i, FailedSend);
      }
    }

    method RequestComplete(i: nat, outcome: Outcome)
      requires Agrees() && Enabled(world, DoCallback(i, outcome))
      modifies this, rows
      ensures Agrees() && world == Apply(old(world), DoCallback(i, outcome))
    {
      world := world.(outstanding := world.outstanding - {i},
                      early := world.early + if rows[i].phase.Submitting? then 1 else 0);
      CompleteRow(i, outcome);
    }

    method FinishCompletion(i: nat)
      requires Agrees() && Enabled(world, DoCompleteEnd(i))
      modifies this, rows
      ensures Agrees() && world == Apply(old(world), DoCompleteEnd(i))
    {
      world := world.(finishing := world.finishing - {i});
      if rows[i].phase.Completing? { ResetRow(i); } else { Fault(); }
    }

    method CancelOne() returns (found: bool, i: nat, request: nat)
      requires Agrees() && world.worker.Idle?
      modifies this, rows
      ensures Agrees()
      ensures if found then Enabled(old(world), DoCancelBegin(i)) && world == CancelBegin(old(world), i)
                            && request == old(world).rows[i].request
              else world == old(world)
                   && forall j :: 0 <= j < |world.rows| ==> !(world.rows[j].phase.Submitted? && world.rows[j].cancel)
    {
      i := 0;
      while i < rows.Length && !(rows[i].phase.Submitted? && rows[i].cancel)
        invariant 0 <= i <= rows.Length
        invariant forall j :: 0 <= j < i ==> !(rows[j].phase.Submitted? && rows[j].cancel)
      {
        i := i + 1;
      }
      if i == rows.Length { return false, 0, 0; }
      found, request := true, rows[i].request;
      Put(i, rows[i].(cancel := false));
      world := world.(worker := AtCancel(i, request));
    }

    /** The client knows no such request. */
    method CancelMissed(i: nat, request: nat)
      requires Agrees() && i < rows.Length
      modifies this, rows
      ensures Agrees() && world == CancelReturn(old(world), i, request, CancelAbsent)
    {
      world := world.(worker := Idle, absent := world.absent + 1);
      if rows[i].phase.Submitted? && rows[i].request == request { Fault(); }
      CompleteRow(i, CancelledSend);
    }

    /** The client refused for now, or for a reason it should not have. */
    method CancelRefused(i: nat, request: nat, unexpected: bool)
      requires Agrees() && i < rows.Length
      modifies this, rows
      ensures Agrees() && world == CancelReturn(old(world), i, request, if unexpected then CancelError else CancelBusy)
    {
      world := world.(worker := Idle);
      if rows[i].phase.Submitted? && rows[i].request == request {
        Put(i, rows[i].(cancel := true));
        if unexpected {
          Fault();
          world := world.(odd := world.odd + 1);
        }
      }
    }

    method CancelTaken(i: nat, request: nat)
      requires Agrees() && i < rows.Length
      modifies this, rows
      ensures Agrees() && world == CancelReturn(old(world), i, request, CancelOk)
    {
      world := world.(worker := Idle);
      if rows[i].phase.Submitted? && rows[i].request == request { Put(i, rows[i].(told := true)); }
    }

    /** False asks the worker to let the client make progress before the next attempt. */
    method CancelReturned(i: nat, request: nat, status: CancelStatus) returns (progress: bool)
      requires Agrees() && Enabled(world, DoCancelReturn(i, request, status))
      modifies this, rows
      ensures Agrees() && world == Apply(old(world), DoCancelReturn(i, request, status))
      ensures progress <==> status.CancelOk? || status.CancelAbsent?
    {
      if status.CancelOk? {
        CancelTaken(i, request);
        return true;
      }
      if status.CancelAbsent? {
        CancelMissed(i, request);
        return true;
      }
      CancelRefused(i, request, status.CancelError?);
      return false;
    }
  }
}
