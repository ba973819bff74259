/**
 What each call on the fence means for the life of the generations: when it succeeds, what becomes of
 every generation, which counter moves, and what a refusal says.
 */
module FenceCalls {
  import opened Basics
  import opened DomainFence

  /** A generation's life: not attached yet, staged, current, draining, over. */
  datatype Phase = Ahead | Waiting | Serving | Leaving | Past

  function PhaseOf(s: Fence, g: nat): Phase {
    if g > s.latest then Ahead
    else if g == s.staged then Waiting
    else if g == s.current then Serving
    else if g == s.draining then Leaving
    else Past
  }

  /** The callback is there and answers yes. */
  predicate Agrees(call: Callback) { call.Callback? && call.answer }

  /** When an owner's call succeeds. */
  ghost predicate Succeeds(s: Fence, op: Op) {
    match op
    case Attach(g) =>
      && !s.closed && PhaseOf(s, g) == Ahead
      && (forall h :: h != 0 ==> PhaseOf(s, h) !in {Waiting, Leaving})
      && (s.epoch < U64_MAX || exists h :: h != 0 && PhaseOf(s, h) == Serving)
    case Activate(g) =>
      && g != 0 && !s.closed && PhaseOf(s, g) == Waiting && s.epoch < U64_MAX
    case TrySubmit(g, submit) =>
      g != 0 && !s.closed && PhaseOf(s, g) == Serving && Agrees(submit)
    case Retire(g, probe) =>
      && g != 0 && (Agrees(probe) || (probe.Null? && PhaseOf(s, g) == Waiting))
      && (PhaseOf(s, g) in {Waiting, Leaving} || (PhaseOf(s, g) == Serving && s.closed))
    case Close => !s.closed
    case Destroy => s.closed && forall h :: h != 0 ==> PhaseOf(s, h) in {Ahead, Past}
  }

  /** What becomes of generation `h` when the call succeeds. */
  ghost predicate Becomes(s: Fence, op: Op, h: nat, now: Phase) {
    match op
    case Attach(g) =>
      if h == g then now == if exists k :: k != 0 && PhaseOf(s, k) == Serving then Waiting else Serving
      else if PhaseOf(s, h) == Ahead && h < g then now == Past
      else now == PhaseOf(s, h)
    case Activate(g) =>
      if h == g then now == Serving
      else if PhaseOf(s, h) == Serving then now == Leaving
      else now == PhaseOf(s, h)
    case Retire(g, _) => if h == g then now == Past else now == PhaseOf(s, h)
    case TrySubmit(_, _) => now == PhaseOf(s, h)
    case Close => now == PhaseOf(s, h)
    case Destroy => now == PhaseOf(s, h)
  }

  lemma Attached(s: Fence, h: nat)
    requires Inv(s) && h != 0
    ensures PhaseOf(s, h) == Serving <==> h == s.current
    ensures PhaseOf(s, h) == Waiting <==> h == s.staged
    ensures PhaseOf(s, h) == Leaving <==> h == s.draining
  {
  }

  /** A call succeeds exactly when it may. */
  lemma {:induction false} CallSucceeds(s: Fence, owner: bool, op: Op)
    requires Inv(s) && !s.destroyed
    ensures Run(s, owner, op).1.Ok? <==> owner && Succeeds(s, op)
  {
    forall h | h != 0 { Attached(s, h); }
    if op.Retire? && op.probe.Callback? { InsideIs(s, op.probe); }
    var _ := PhaseOf(s, s.current);
    var _ := PhaseOf(s, s.staged);
    var _ := PhaseOf(s, s.draining);
  }

  /** A call that succeeds lets every generation live on as it says; one that is refused leaves the life of
      every generation alone. */
  lemma {:induction false} LivesMove(s: Fence, owner: bool, op: Op)
    requires Inv(s) && !s.destroyed
    ensures var r := Run(s, owner, op);
      && (r.1.Ok? ==> forall h :: h != 0 ==> Becomes(s, op, h, PhaseOf(r.0, h)))
      && (!r.1.Ok? ==> r.0 == s.(rejected := r.0.rejected, failed := r.0.failed))
      && (r.0.closed <==> s.closed || (owner && op.Close?))
      && (r.0.destroyed <==> r.1.Ok? && op.Destroy?)
  {
    if op.TrySubmit? && op.submit.Callback? { InsideIs(s, op.submit); }
    if op.Retire? && op.probe.Callback? { InsideIs(s, op.probe); }
    var _ := PhaseOf(s, s.current);
  }

  /** Each counter moves by one on its own occasion and on no other. */
  lemma {:induction false} CountersMove(s: Fence, owner: bool, op: Op)
    requires Inv(s) && !s.destroyed
    ensures var r := Run(s, owner, op);
      && r.0.accepted == s.accepted + (if op.TrySubmit? && r.1.Ok? then 1 else 0)
      && r.0.admitted == s.admitted + (if op.TrySubmit? && r.1.Ok? then [op.g] else [])
      && r.0.rejected == s.rejected + (if r.1.Denied? then 1 else 0)
      && r.0.failed == s.failed + (if r.1.Failed? then 1 else 0)
      && r.0.switches == s.switches + (if op.Activate? && r.1.Ok? then 1 else 0)
      && r.0.retired == s.retired + (if op.Retire? && r.1.Ok? then 1 else 0)
      && r.0.attaches == s.attaches + (if op.Attach? && r.1.Ok? then 1 else 0)
      && r.0.epoch == s.epoch + (if r.1.Ok? && (op.Activate? || (op.Attach? && PhaseOf(r.0, op.g) == Serving)) then 1 else 0)
  {
    if op.TrySubmit? && op.submit.Callback? { InsideIs(s, op.submit); }
    if op.Retire? && op.probe.Callback? { InsideIs(s, op.probe); }
  }

  /** Work offered to an open fence: admitted when its generation serves and the callback accepts, failed when
      the callback does not, turned away otherwise. */
  lemma {:induction false} OfferedWork(s: Fence, g: nat, submit: Callback)
    requires Inv(s) && !s.destroyed && g != 0 && submit.Callback?
    ensures var status := Run(s, true, TrySubmit(g, submit)).1;
      && (status.Ok? <==> !s.closed && PhaseOf(s, g) == Serving && submit.answer)
      && (status.Failed? <==> !s.closed && PhaseOf(s, g) == Serving && !submit.answer)
      && (status.Denied? <==> !s.closed && PhaseOf(s, g) != Serving)
      && (status.Shutdown? <==> s.closed)
      && status in {Ok, Failed, Denied, Shutdown}
  {
    InsideIs(s, submit);
  }

  /** The generation a call names, and its callback. */
  function Named(op: Op): Option<nat> {
    match op
    case Attach(g) => Some(g)
    case Activate(g) => Some(g)
    case TrySubmit(g, _) => Some(g)
    case Retire(g, _) => Some(g)
    case Close => None
    case Destroy => None
  }

  /** What a refusal says is so. */
  ghost predicate Reason(s: Fence, owner: bool, op: Op, status: Status) {
    match status
    case Ok => false
    case Invalid =>
      || !owner || Named(op) == Some(0) || (op.TrySubmit? && op.submit.Null?)
      || (op.Retire? && op.probe.Null? && PhaseOf(s, op.g) != Waiting)
    case Shutdown => s.closed && (op.Attach? || op.Activate? || op.TrySubmit?)
    case Already => (op.Close? && s.closed) || (op.Attach? && PhaseOf(s, op.g) != Ahead)
    case Range => op.Attach? && s.epoch == U64_MAX
    case Protocol => op.Activate? && s.epoch == U64_MAX
    case NotFound =>
      || (op.Activate? && PhaseOf(s, op.g) != Waiting)
      || (op.Retire? && PhaseOf(s, op.g) in {Ahead, Past})
    case Denied => op.TrySubmit? && PhaseOf(s, op.g) != Serving
    case Failed => op.TrySubmit? && PhaseOf(s, op.g) == Serving && op.submit.Callback? && !op.submit.answer
    case Busy =>
      || ((op.Attach? || op.Activate?) && exists h :: h != 0 && PhaseOf(s, h) in {Waiting, Leaving})
      || (op.Retire? && PhaseOf(s, op.g) == Serving && !s.closed)
      || (op.Retire? && op.probe.Callback? && !op.probe.answer)
      || (op.Destroy? && !s.closed)
      || (op.Destroy? && exists h :: h != 0 && PhaseOf(s, h) in {Waiting, Serving, Leaving})
  }

  /** A refusal never claims what is not so. */
  lemma {:induction false} RefusalsAreTrue(s: Fence, owner: bool, op: Op)
    requires Inv(s) && !s.destroyed
    ensures var status := Run(s, owner, op).1; !status.Ok? ==> Reason(s, owner, op, status)
  {
    forall h | h != 0 { Attached(s, h); }
    if op.TrySubmit? && op.submit.Callback? { InsideIs(s, op.submit); }
    if op.Retire? && op.probe.Callback? { InsideIs(s, op.probe); }
    var _ := PhaseOf(s, s.current);
    var _ := PhaseOf(s, s.staged);
    var _ := PhaseOf(s, s.draining);
  }
}
