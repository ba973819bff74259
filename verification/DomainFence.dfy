/**
 The generation fence: which generation of a network domain may admit work. Callbacks run inside
 try_submit and retire may call back into the fence, so an operation carries the script its
 callback will run.
 */
module DomainFence {
  import opened Basics

  datatype Status = Ok | Invalid | Busy | Shutdown | Already | Range | NotFound | Protocol | Denied | Failed

  datatype Op =
    | Attach(g: nat) | Activate(g: nat) | TrySubmit(g: nat, submit: Callback) | Retire(g: nat, probe: Callback)
    | Close | Destroy

  /** A callback: the calls it makes on the same fence, and what it answers. */
  datatype Callback = Null | Callback(script: Script, answer: bool)

  /** Calls in order; `owner` says whether the owning thread makes the call. */
  datatype Script = End | Then(before: Script, owner: bool, op: Op)

  /** The last three fields are history: attaches that succeeded, generations of admitted work, end of life. */
  datatype Fence = Fence(current: nat, staged: nat, draining: nat, latest: nat, epoch: nat,
                         accepted: nat, rejected: nat, switches: nat, retired: nat, failed: nat,
                         closed: bool, submitting: bool,
                         attaches: nat, admitted: seq<nat>, destroyed: bool)
  {
    function Attached(): nat {
      (if current != 0 then 1 else 0) + (if staged != 0 then 1 else 0) + (if draining != 0 then 1 else 0)
    }
  }

  const NEW: Fence := Fence(0, 0, 0, 0, 0, 0, 0, 0, 0, 0, false, false, 0, [], false)

  // ----- one operation -----------------------------------------------------

  function DoAttach(s: Fence, g: nat): (Fence, Status) {
    if g == 0 then (s, Invalid)
    else if s.submitting then (s, Busy)
    else if s.closed then (s, Shutdown)
    else if g <= s.latest then (s, Already)
    else if s.Attached() == 2 || s.draining != 0 || s.staged != 0 then (s, Busy)
    else if s.current != 0 then (s.(staged := g, latest := g, attaches := s.attaches + 1), Ok)
    else if s.epoch == U64_MAX then (s, Range)
    else (s.(current := g, epoch := s.epoch + 1, latest := g, attaches := s.attaches + 1), Ok)
  }

  function DoActivate(s: Fence, g: nat): (Fence, Status) {
    if g == 0 then (s, Invalid)
    else if s.submitting || s.draining != 0 then (s, Busy)
    else if s.closed then (s, Shutdown)
    else if s.staged != g then (s, NotFound)
    else if s.current == 0 || s.epoch == U64_MAX then (s, Protocol)
    else (s.(draining := s.current, current := s.staged, staged := 0, epoch := s.epoch + 1, switches := s.switches + 1), Ok)
  }

  /** Runs a callback with the fence marked busy. */
  function Inside(s: Fence, call: Callback): Fence
    requires call.Callback?
    decreases call, 1
  {
    RunAll(s.(submitting := true), call.script).(submitting := false)
  }

  function DoTrySubmit(s: Fence, g: nat, submit: Callback): (Fence, Status)
    decreases submit, 2
  {
    if g == 0 || submit.Null? then (s, Invalid)
    else if s.submitting then (s, Busy)
    else if s.closed then (s, Shutdown)
    else if g != s.current then (s.(rejected := s.rejected + 1), Denied)
    else
      var t := Inside(s, submit);
      if submit.answer then (t.(accepted := t.accepted + 1, admitted := t.admitted + [g]), Ok)
      else (t.(failed := t.failed + 1), Failed)
  }

  datatype Place = Draining | Staged | Current | Nowhere

  function PlaceOf(s: Fence, g: nat): Place {
    if g == s.draining then Draining else if g == s.staged then Staged else if g == s.current then Current else Nowhere
  }

  function Clear(s: Fence, p: Place): Fence {
    match p
    case Draining => s.(draining := 0, retired := s.retired + 1)
    case Staged => s.(staged := 0, retired := s.retired + 1)
    case Current => s.(current := 0, retired := s.retired + 1)
    case Nowhere => s
  }

  function DoRetire(s: Fence, g: nat, probe: Callback): (Fence, Status)
    decreases probe, 2
  {
    if g == 0 then (s, Invalid)
    else if s.submitting then (s, Busy)
    else
      var p := PlaceOf(s, g);
      if p.Current? && !s.closed then (s, Busy)
      else if p.Nowhere? then (s, NotFound)
      else if probe.Null? then if p.Staged? then (Clear(s, p), Ok) else (s, Invalid)
      else
        var t := Inside(s, probe);
        if probe.answer then (Clear(t, p), Ok) else (t, Busy)
  }

  function DoClose(s: Fence): (Fence, Status) {
    if s.submitting then (s, Busy) else if s.closed then (s, Already) else (s.(closed := true), Ok)
  }

  function DoDestroy(s: Fence): (Fence, Status) {
    if s.submitting || !s.closed || s.Attached() != 0 then (s, Busy) else (s.(destroyed := true), Ok)
  }

  function Run(s: Fence, owner: bool, op: Op): (Fence, Status)
    decreases op, 3
  {
    if s.destroyed then (s, if op.Destroy? then Ok else Invalid)
    else if !owner then (s, Invalid)
    else
      match op
      case Attach(g) => DoAttach(s, g)
      case Activate(g) => DoActivate(s, g)
      case TrySubmit(g, submit) => DoTrySubmit(s, g, submit)
      case Retire(g, probe) => DoRetire(s, g, probe)
      case Close => DoClose(s)
      case Destroy => DoDestroy(s)
  }

  function RunAll(s: Fence, script: Script): Fence
    decreases script, 0
  {
    match script
    case End => s
    case Then(before, owner, op) => Run(RunAll(s, before), owner, op).0
  }

  // ----- re-entrant calls --------------------------------------------------

  /** While a callback runs, every call on the fence is refused and changes nothing. */
  lemma {:induction false} Refused(s: Fence, owner: bool, op: Op)
    requires s.submitting && !s.destroyed
    ensures Run(s, owner, op).0 == s && !Run(s, owner, op).1.Ok?
  {
  }

  lemma {:induction false} ScriptRefused(s: Fence, script: Script)
    requires s.submitting && !s.destroyed
    ensures RunAll(s, script) == s
  {
    if script.Then? {
      ScriptRefused(s, script.before);
      Refused(s, script.owner, script.op);
    }
  }

  /** A callback leaves no trace of its own. */
  lemma {:induction false} InsideIs(s: Fence, call: Callback)
    requires !s.submitting && !s.destroyed && call.Callback?
    ensures Inside(s, call) == s
  {
    ScriptRefused(s.(submitting := true), call.script);
  }

  // ----- the invariant -----------------------------------------------------

  predicate Sorted(xs: seq<nat>) { forall i, j :: 0 <= i < j < |xs| ==> xs[i] <= xs[j] }

  predicate Inv(s: Fence) {
    && !s.submitting
    && (s.draining != 0 && s.current != 0 ==> s.draining < s.current)
    && (s.staged != 0 ==> s.draining == 0)
    && (s.current != 0 && s.staged != 0 ==> s.current < s.staged)
    && s.current <= s.latest && s.staged <= s.latest && s.draining <= s.latest
    && (s.current == 0 ==> s.closed || s.latest == 0)
    && s.attaches == s.Attached() + s.retired
    && s.epoch == s.switches + (if s.latest != 0 then 1 else 0) && s.epoch <= U64_MAX
    && s.accepted == |s.admitted| && Sorted(s.admitted)
    && (forall i :: 0 <= i < |s.admitted| ==> s.admitted[i] <= if s.current != 0 then s.current else s.latest)
    && (s.destroyed ==> s.closed && s.Attached() == 0)
  }

  lemma {:induction false} StepInv(s: Fence, owner: bool, op: Op)
    requires Inv(s)
    ensures Inv(Run(s, owner, op).0)
  {
    if !s.destroyed {
      if op.TrySubmit? && op.submit.Callback? { InsideIs(s, op.submit); }
      if op.Retire? && op.probe.Callback? { InsideIs(s, op.probe); }
    }
  }

  lemma {:induction false} RunInv(script: Script)
    ensures Inv(RunAll(NEW, script))
  {
    if script.Then? {
      RunInv(script.before);
      StepInv(RunAll(NEW, script.before), script.owner, script.op);
    }
  }

  /** Fences some script of calls leads to. */
  ghost predicate Reached(s: Fence) { exists script :: RunAll(NEW, script) == s }

  lemma ReachedInv(s: Fence)
    requires Reached(s)
    ensures Inv(s)
  {
    var script :| RunAll(NEW, script) == s;
    RunInv(script);
  }

  /** After every run: generations in order, at most two attached, attaches accounted for,
      work admitted in generation order. */
  lemma FenceOrder(s: Fence)
    requires Reached(s)
    ensures s.draining != 0 && s.current != 0 ==> s.draining < s.current
    ensures s.current != 0 && s.staged != 0 ==> s.current < s.staged
    ensures s.draining != 0 && s.staged != 0 ==> s.draining < s.staged
    ensures s.current <= s.latest && s.staged <= s.latest && s.draining <= s.latest
    ensures s.Attached() <= 2 && s.attaches == s.Attached() + s.retired
    ensures s.accepted == |s.admitted| && Sorted(s.admitted)
  {
    ReachedInv(s);
  }

  // ----- generations that are gone -----------------------------------------

  /** A generation that was passed over or retired: not newer than the latest, neither current nor staged. */
  predicate Gone(s: Fence, g: nat) { g != 0 && g <= s.latest && g != s.current && g != s.staged }

  lemma {:induction false} GoneStep(s: Fence, owner: bool, op: Op, g: nat)
    requires Inv(s) && Gone(s, g)
    ensures var r := Run(s, owner, op);
      && Gone(r.0, g) && |s.admitted| <= |r.0.admitted|
      && r.0.admitted[..|s.admitted|] == s.admitted
      && (forall i :: |s.admitted| <= i < |r.0.admitted| ==> r.0.admitted[i] != g)
      && (op.TrySubmit? && op.g == g ==> !r.1.Ok?)
  {
    if !s.destroyed {
      if op.TrySubmit? && op.submit.Callback? { InsideIs(s, op.submit); }
      if op.Retire? && op.probe.Callback? { InsideIs(s, op.probe); }
    }
  }

  /** A superseded or retired generation never admits again, whatever follows. */
  lemma {:induction false} GoneForever(s: Fence, more: Script, g: nat)
    requires Inv(s) && Gone(s, g)
    ensures var t := RunAll(s, more);
      && Inv(t) && Gone(t, g) && |s.admitted| <= |t.admitted| && t.admitted[..|s.admitted|] == s.admitted
      && forall i :: |s.admitted| <= i < |t.admitted| ==> t.admitted[i] != g
  {
    if more.Then? {
      GoneForever(s, more.before, g);
      var u := RunAll(s, more.before);
      StepInv(u, more.owner, more.op);
      GoneStep(u, more.owner, more.op, g);
      var t := Run(u, more.owner, more.op).0;
      assert t.admitted[..|s.admitted|] == t.admitted[..|u.admitted|][..|s.admitted|];
      forall i | |s.admitted| <= i < |t.admitted| ensures t.admitted[i] != g {
        if i < |u.admitted| { assert t.admitted[i] == t.admitted[..|u.admitted|][i]; }
      }
    }
  }

  /** Activation supersedes the current generation; its protocol check fails only at the last epoch. */
  lemma ActivateSupersedes(s: Fence, g: nat)
    requires Inv(s)
    ensures var r := DoActivate(s, g);
      && (r.1.Ok? ==> s.current != 0 && Gone(r.0, s.current) && r.0.current == g && r.0.draining == s.current)
      && (r.1.Protocol? ==> s.epoch == U64_MAX)
  {
  }

  /** Retirement removes a generation for good. */
  lemma {:induction false} RetireRemoves(s: Fence, g: nat, probe: Callback)
    requires Inv(s) && !s.destroyed
    ensures var r := DoRetire(s, g, probe);
      r.1.Ok? ==> Gone(r.0, g) && g != r.0.draining && r.0.Attached() == s.Attached() - 1
  {
    if probe.Callback? { InsideIs(s, probe); }
  }

  // ----- the fence as an object --------------------------------------------

  class FenceObject {
    var current: nat
    var staged: nat
    var draining: nat
    var latest: nat
    var epoch: nat
    var accepted: nat
    var rejected: nat
    var switches: nat
    var retired: nat
    var failed: nat
    var closed: bool
    var submitting: bool
    ghost var attaches: nat
    ghost var admitted: seq<nat>
    var destroyed: bool

    ghost function Value(): Fence
      reads this
    {
      Fence(current, staged, draining, latest, epoch, accepted, rejected, switches, retired, failed,
            closed, submitting, attaches, admitted, destroyed)
    }

    constructor ()
      ensures Value() == NEW
    {
      current, staged, draining, latest, epoch := 0, 0, 0, 0, 0;
      accepted, rejected, switches, retired, failed := 0, 0, 0, 0, 0;
      closed, submitting, destroyed := false, false, false;
      attaches, admitted := 0, [];
    }

    method Attach(g: nat) returns (status: Status)
      modifies this
      ensures (Value(), status) == DoAttach(old(Value()), g)
    {
      if g == 0 { return Invalid; }
      if submitting { return Busy; }
      if closed { return Shutdown; }
      if g <= latest { return Already; }
      if draining != 0 || staged != 0 { return Busy; }
      if current == 0 {
        if epoch == U64_MAX { return Range; }
        current := g;
        epoch := epoch + 1;
      } else {
        staged := g;
      }
      latest := g;
      attaches := attaches + 1;
      return Ok;
    }

    method Activate(g: nat) returns (status: Status)
      modifies this
      ensures (Value(), status) == DoActivate(old(Value()), g)
    {
      if g == 0 { return Invalid; }
      if submitting || draining != 0 { return Busy; }
      if closed { return Shutdown; }
      if staged != g { return NotFound; }
      if current == 0 || epoch == U64_MAX { return Protocol; }
      draining := current;
      current := staged;
      staged := 0;
      epoch := epoch + 1;
      switches := switches + 1;
      return Ok;
    }

    method TrySubmit(g: nat, submit: Callback) returns (status: Status)
      modifies this
      ensures (Value(), status) == DoTrySubmit(old(Value()), g, submit)
      decreases submit, 2
    {
      if g == 0 || submit.Null? { return Invalid; }
      if submitting { return Busy; }
      if closed { return Shutdown; }
      if g != current {
        rejected := rejected + 1;
        return Denied;
      }
      submitting := true;
      Play(submit.script);
      submitting := false;
      if submit.answer {
        accepted := accepted + 1;
        admitted := admitted + [g];
        return Ok;
      }
      failed := failed + 1;
      return Failed;
    }

    method Retire(g: nat, probe: Callback) returns (status: Status)
      modifies this
      ensures (Value(), status) == DoRetire(old(Value()), g, probe)
      decreases probe, 2
    {
      if g == 0 { return Invalid; }
      if submitting { return Busy; }
      var place := Nowhere;
      if g == draining {
        place := Draining;
      } else if g == staged {
        place := Staged;
      } else if g == current {
        if !closed { return Busy; }
        place := Current;
      }
      if place.Nowhere? { return NotFound; }
      if probe.Null? {
        if !place.Staged? { return Invalid; }
      } else {
        submitting := true;
        Play(probe.script);
        submitting := false;
        if !probe.answer { return Busy; }
      }
      match place {
        case Draining => draining := 0;
        case Staged => staged := 0;
        case Current => current := 0;
      }
      retired := retired + 1;
      return Ok;
    }

    /** Any call, by any thread. */
    method Call(owner: bool, op: Op) returns (status: Status)
      modifies this
      ensures (Value(), status) == Run(old(Value()), owner, op)
      decreases op, 3
    {
      if destroyed { return if op.Destroy? then Ok else Invalid; }
      if !owner { return Invalid; }
      match op {
        case Attach(g) => status := Attach(g);
        case Activate(g) => status := Activate(g);
        case TrySubmit(g, submit) => status := TrySubmit(g, submit);
        case Retire(g, probe) => status := Retire(g, probe);
        case Close =>
          if submitting { return Busy; }
          if closed { return Already; }
          closed := true;
          return Ok;
        case Destroy =>
          if submitting || !closed || current != 0 || staged != 0 || draining != 0 { return Busy; }
          destroyed := true;
          return Ok;
      }
    }

    /** The calls a callback makes, in order. */
    method Play(script: Script)
      modifies this
      ensures Value() == RunAll(old(Value()), script)
      decreases script, 0
    {
      if script.Then? {
        Play(script.before);
        var status := Call(script.owner, script.op);
      }
    }
  }
}
