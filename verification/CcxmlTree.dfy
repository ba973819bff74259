/**
 A CCXML transition as its header and a parsed tree of executable content, the admission
 pass that measures both, and the static counts the compiled program is sized by.
 */
module CcxmlTree {
  import opened Basics

  datatype Status =
    | Ok
    | InvalidStructure
    | UnsupportedFeature
    | LimitExceeded
    | InvalidContract
    | InvalidEvent
    | AdapterError
    | AllocationFailed
    | InvalidArgument
    | Closed

  /** Where a generated identifier comes from: the session's own send counter,
      or the provider that accepted the request. */
  datatype IdSource = SessionToken | Provider

  /** A leaf action. `Generating` covers send with a sendid, createconference,
      dialogprepare and dialogstart: one provider effect plus one data-model write. */
  datatype LeafAction =
    | Exit
    | Plain(op: string)
    | Generating(op: string, location: string, source: IdSource)

  /** Element tree. As in the document, `ElseIf` and `Else` are empty markers
      among the children of an `If`. `bytes` is what the node retains as text. */
  datatype Node =
    | Leaf(action: LeafAction, bytes: nat)
    | If(cond: string, bytes: nat, kids: Nodes)
    | ElseIf(cond: string, bytes: nat)
    | Else
    | Foreach(loop: string, bytes: nat, kids: Nodes)
  {
    predicate Marker() { ElseIf? || Else? }
  }

  datatype Nodes = Nil | Cons(head: Node, tail: Nodes)

  // ----- headers -----------------------------------------------------------

  /** A condition's text, and its size once entities are decoded if they can be. */
  datatype Condition = Condition(text: string, decoded: Option<nat>)

  /** The attributes of a transition. */
  datatype Header = Header(event: Option<string>, states: Option<string>, condition: Option<Condition>)
  {
    function Pattern(): string { if event.Some? then event.value else "*" }
  }

  datatype Transition = Transition(header: Header, kids: Nodes)

  predicate Blank(c: char) { c == ' ' || c == '\t' || c == '\r' || c == '\n' }

  predicate AnyBlank(s: string) { exists i :: 0 <= i < |s| && Blank(s[i]) }
  predicate AllBlank(s: string) { forall i :: 0 <= i < |s| ==> Blank(s[i]) }

  /** A state list needs the document's state variable; a condition must decode to something. */
  predicate HeaderAdmitted(h: Header, stateVariable: bool) {
    && (h.event.Some? ==> h.event.value != []) && !AnyBlank(h.Pattern())
    && (h.states.Some? ==> stateVariable && !AllBlank(h.states.value))
    && (h.condition.Some? ==>
          var c := h.condition.value; !AllBlank(c.text) && c.decoded.Some? && c.decoded.value != 0)
  }

  /** Bytes of text a header keeps, each text with its terminator. */
  function HeaderRetained(h: Header): nat {
    |h.Pattern()| + 1 + (if h.states.Some? then |h.states.value| + 1 else 0)
    + if h.condition.Some? && h.condition.value.decoded.Some? then h.condition.value.decoded.value + 1 else 0
  }

  // ----- admission ---------------------------------------------------------

  predicate HasForeach(n: Node) {
    match n
    case Foreach(_, _, _) => true
    case If(_, _, kids) => AnyForeach(kids)
    case _ => false
  }

  predicate AnyForeach(kids: Nodes) {
    kids.Cons? && (HasForeach(kids.head) || AnyForeach(kids.tail))
  }

  predicate Admitted(n: Node) {
    match n
    case Leaf(_, _) => true
    case If(_, _, kids) => BranchesAdmitted(kids, false)
    case ElseIf(_, _) => false
    case Else => false
    case Foreach(_, _, kids) => BlockAdmitted(kids) && !AnyForeach(kids)
  }

  /** Children of an if: markers are allowed, but none may follow an else marker. */
  predicate BranchesAdmitted(kids: Nodes, seenElse: bool) {
    match kids
    case Nil => true
    case Cons(ElseIf(_, _), tail) => !seenElse && BranchesAdmitted(tail, false)
    case Cons(Else, tail) => !seenElse && BranchesAdmitted(tail, true)
    case Cons(head, tail) => Admitted(head) && BranchesAdmitted(tail, seenElse)
  }

  predicate BlockAdmitted(kids: Nodes) {
    kids.Nil? || (Admitted(kids.head) && BlockAdmitted(kids.tail))
  }

  // ----- static counts -----------------------------------------------------

  /** Action rows a node lowers to. */
  function Size(n: Node): (s: nat)
    ensures 0 < s
  {
    match n
    case If(_, _, kids) => 2 + SizeAll(kids)
    case Foreach(_, _, kids) => 2 + SizeAll(kids)
    case _ => 1
  }

  function SizeAll(kids: Nodes): nat {
    match kids
    case Nil => 0
    case Cons(head, tail) => Size(head) + SizeAll(tail)
  }

  function LeafEffects(a: LeafAction): nat {
    if a.Generating? then 2 else 1
  }

  /** Tickets a node is charged for; a foreach body is charged once per allowed iteration. */
  function Effects(n: Node, iterations: nat): nat {
    match n
    case Leaf(a, _) => LeafEffects(a)
    case If(_, _, kids) => EffectsAll(kids, iterations)
    case Foreach(_, _, kids) => EffectsAll(kids, iterations) * iterations
    case _ => 0
  }

  function EffectsAll(kids: Nodes, iterations: nat): nat {
    match kids
    case Nil => 0
    case Cons(head, tail) => Effects(head, iterations) + EffectsAll(tail, iterations)
  }

  /** Bytes of text a node keeps. */
  function Retained(n: Node): nat {
    match n
    case Leaf(_, b) => b
    case If(_, b, kids) => b + RetainedAll(kids)
    case ElseIf(_, b) => b
    case Else => 0
    case Foreach(_, b, kids) => b + RetainedAll(kids)
  }

  function RetainedAll(kids: Nodes): nat {
    match kids
    case Nil => 0
    case Cons(head, tail) => Retained(head) + RetainedAll(tail)
  }

  // ----- the admission pass ------------------------------------------------

  datatype Limits = Limits(maxTransitions: nat, maxActions: nat, maxNameBytes: nat, maxIterations: nat)
  {
    /** Limits are size_t values and compilation refuses zero ones. */
    predicate Valid() {
      && 0 < maxTransitions <= SIZE_MAX && 0 < maxActions <= SIZE_MAX
      && 0 < maxNameBytes <= SIZE_MAX && 0 < maxIterations <= SIZE_MAX
    }
  }

  class Measurement {
    var transitionCount: nat
    var actionCount: nat
    var nameBytes: nat
    var maxTransitionActions: nat
    var maxTransitionEffects: nat

    constructor ()
      ensures transitionCount == actionCount == nameBytes == maxTransitionActions == maxTransitionEffects == 0
    {
      transitionCount, actionCount, nameBytes, maxTransitionActions, maxTransitionEffects := 0, 0, 0, 0, 0;
    }

    /** Whether `rows` more rows and `bytes` more text still fit the document limits. */
    predicate Room(limits: Limits, rows: nat, bytes: nat)
      reads this
    {
      actionCount + rows <= limits.maxActions && nameBytes + bytes <= limits.maxNameBytes
    }

    /** Control or leaf rows with their retained text. */
    method CountRows(limits: Limits, rows: nat, bytes: nat) returns (status: Status)
      requires limits.Valid() && actionCount <= limits.maxActions && nameBytes <= limits.maxNameBytes
      modifies `actionCount, `nameBytes
      ensures status.Ok? <==> old(Room(limits, rows, bytes))
      ensures status.Ok? ==> actionCount == old(actionCount) + rows && nameBytes == old(nameBytes) + bytes
    {
      if limits.maxActions < rows || actionCount > limits.maxActions - rows {
        return LimitExceeded;
      }
      if bytes > SIZE_MAX - nameBytes || nameBytes + bytes > limits.maxNameBytes {
        return LimitExceeded;
      }
      actionCount, nameBytes := actionCount + rows, nameBytes + bytes;
      return Ok;
    }

    method ValidateExecutable(n: Node, limits: Limits, localActions: nat, localEffects: nat)
      returns (status: Status, actions: nat, effects: nat)
      requires limits.Valid() && localActions <= actionCount && localEffects <= SIZE_MAX
      requires actionCount <= limits.maxActions && nameBytes <= limits.maxNameBytes
      modifies `actionCount, `nameBytes
      ensures status.Ok? <==> Admitted(n) && old(Room(limits, Size(n), Retained(n)))
                              && localEffects + Effects(n, limits.maxIterations) <= SIZE_MAX
      ensures status.Ok? ==> && actionCount == old(actionCount) + Size(n)
                             && nameBytes == old(nameBytes) + Retained(n)
                             && actions == localActions + Size(n)
                             && effects == localEffects + Effects(n, limits.maxIterations)
      decreases n, 1
    {
      actions, effects := localActions, localEffects;
      match n {
        case If(_, _, _) =>
          status, actions, effects := ValidateIf(n, limits, localActions, localEffects);
        case Foreach(_, _, _) =>
          status, actions, effects := ValidateForeach(n, limits, localActions, localEffects);
        case ElseIf(_, _) => return InvalidStructure, actions, effects;
        case Else => return InvalidStructure, actions, effects;
        case Leaf(a, bytes) =>
          status := CountRows(limits, 1, bytes);
          if !status.Ok? { return; }
          actions := actions + 1;
          if effects > SIZE_MAX - LeafEffects(a) {
            return LimitExceeded, actions, effects;
          }
          effects := effects + LeafEffects(a);
      }
    }

    method ValidateIf(n: Node, limits: Limits, localActions: nat, localEffects: nat)
      returns (status: Status, actions: nat, effects: nat)
      requires n.If?
      requires limits.Valid() && localActions <= actionCount && localEffects <= SIZE_MAX
      requires actionCount <= limits.maxActions && nameBytes <= limits.maxNameBytes
      modifies `actionCount, `nameBytes
      ensures status.Ok? <==> Admitted(n) && old(Room(limits, Size(n), Retained(n)))
                              && localEffects + Effects(n, limits.maxIterations) <= SIZE_MAX
      ensures status.Ok? ==> && actionCount == old(actionCount) + Size(n)
                             && nameBytes == old(nameBytes) + Retained(n)
                             && actions == localActions + Size(n)
                             && effects == localEffects + Effects(n, limits.maxIterations)
      decreases n, 0
    {
      actions, effects := localActions, localEffects;
      status := CountRows(limits, 1, n.bytes);
      if !status.Ok? { return; }
      actions := actions + 1;
      var seenElse := false;
      var rest := n.kids;
      while rest.Cons?
        invariant status.Ok? && (rest.Cons? ==> rest < n)
        invariant Admitted(n) == BranchesAdmitted(rest, seenElse)
        invariant old(actionCount) + Size(n) == actionCount + SizeAll(rest) + 1
        invariant old(nameBytes) + Retained(n) == nameBytes + RetainedAll(rest)
        invariant localActions + Size(n) == actions + SizeAll(rest) + 1
        invariant localEffects + Effects(n, limits.maxIterations) == effects + EffectsAll(rest, limits.maxIterations)
        invariant actions <= actionCount <= limits.maxActions && nameBytes <= limits.maxNameBytes && effects <= SIZE_MAX
        decreases rest
      {
        var kid := rest.head;
        if kid.ElseIf? {
          if seenElse { return InvalidStructure, actions, effects; }
          status := CountRows(limits, 1, kid.bytes);
          if !status.Ok? { return; }
          actions := actions + 1;
        } else if kid.Else? {
          if seenElse { return InvalidStructure, actions, effects; }
          seenElse := true;
          status := CountRows(limits, 1, 0);
          if !status.Ok? { return; }
          actions := actions + 1;
        } else {
          status, actions, effects := ValidateExecutable(kid, limits, actions, effects);
          if !status.Ok? { return; }
        }
        rest := rest.tail;
      }
      status := CountRows(limits, 1, 0);
      if !status.Ok? { return; }
      actions := actions + 1;
    }

    method ValidateForeach(n: Node, limits: Limits, localActions: nat, localEffects: nat)
      returns (status: Status, actions: nat, effects: nat)
      requires n.Foreach?
      requires limits.Valid() && localActions <= actionCount && localEffects <= SIZE_MAX
      requires actionCount <= limits.maxActions && nameBytes <= limits.maxNameBytes
      modifies `actionCount, `nameBytes
      ensures status.Ok? <==> Admitted(n) && old(Room(limits, Size(n), Retained(n)))
                              && localEffects + Effects(n, limits.maxIterations) <= SIZE_MAX
      ensures status.Ok? ==> && actionCount == old(actionCount) + Size(n)
                             && nameBytes == old(nameBytes) + Retained(n)
                             && actions == localActions + Size(n)
                             && effects == localEffects + Effects(n, limits.maxIterations)
      decreases n, 0
    {
      actions, effects := localActions, localEffects;
      status := CountRows(limits, 2, n.bytes);
      if !status.Ok? { return; }
      actions := actions + 2;
      ghost var total := EffectsAll(n.kids, limits.maxIterations);
      assert total <= Effects(n, limits.maxIterations) by { Scaled(total, limits.maxIterations); }
      var bodyActions, bodyEffects;
      status, bodyActions, bodyEffects := ValidateBody(n.kids, limits);
      if !status.Ok? { return; }
      actions := actions + bodyActions;
      var fits, expanded := CheckedScale(bodyEffects, limits.maxIterations);
      if !fits || effects > SIZE_MAX - expanded {
        return LimitExceeded, actions, effects;
      }
      effects := effects + expanded;
    }

    /** A foreach body, counted from zero; any further foreach inside it is refused. */
    method ValidateBody(kids: Nodes, limits: Limits)
      returns (status: Status, actions: nat, effects: nat)
      requires limits.Valid()
      requires actionCount <= limits.maxActions && nameBytes <= limits.maxNameBytes
      modifies `actionCount, `nameBytes
      ensures status.Ok? <==> BlockAdmitted(kids) && !AnyForeach(kids)
                              && old(Room(limits, SizeAll(kids), RetainedAll(kids)))
                              && EffectsAll(kids, limits.maxIterations) <= SIZE_MAX
      ensures status.Ok? ==> && actionCount == old(actionCount) + SizeAll(kids)
                             && nameBytes == old(nameBytes) + RetainedAll(kids)
                             && actions == SizeAll(kids)
                             && effects == EffectsAll(kids, limits.maxIterations)
      decreases kids, 0
    {
      status, actions, effects := Ok, 0, 0;
      var rest := kids;
      while rest.Cons?
        invariant status.Ok? && (rest == kids || rest < kids)
        invariant (BlockAdmitted(kids) && !AnyForeach(kids)) == (BlockAdmitted(rest) && !AnyForeach(rest))
        invariant old(actionCount) + SizeAll(kids) == actionCount + SizeAll(rest)
        invariant old(nameBytes) + RetainedAll(kids) == nameBytes + RetainedAll(rest)
        invariant SizeAll(kids) == actions + SizeAll(rest)
        invariant EffectsAll(kids, limits.maxIterations) == effects + EffectsAll(rest, limits.maxIterations)
        invariant actions <= actionCount <= limits.maxActions && nameBytes <= limits.maxNameBytes && effects <= SIZE_MAX
        decreases rest
      {
        if HasForeach(rest.head) { return UnsupportedFeature, actions, effects; }
        status, actions, effects := ValidateExecutable(rest.head, limits, actions, effects);
        if !status.Ok? { return; }
        rest := rest.tail;
      }
    }

    /** A transition's attributes, and its place among the transitions. */
    method ValidateHeader(h: Header, stateVariable: bool, limits: Limits) returns (status: Status)
      requires limits.Valid() && transitionCount <= limits.maxTransitions && nameBytes <= limits.maxNameBytes
      modifies `transitionCount, `nameBytes
      ensures status.Ok? || status.LimitExceeded? <==> HeaderAdmitted(h, stateVariable)
      ensures status.Ok? <==> && HeaderAdmitted(h, stateVariable) && old(transitionCount) < limits.maxTransitions
                              && old(nameBytes) + HeaderRetained(h) <= limits.maxNameBytes
      ensures status.Ok? ==> && transitionCount == old(transitionCount) + 1
                             && nameBytes == old(nameBytes) + HeaderRetained(h)
    {
      if h.event.Some? && h.event.value == [] { return InvalidStructure; }
      var space := ViewHasSpace(h.Pattern());
      if space { return UnsupportedFeature; }
      if h.states.Some? {
        if !stateVariable { return InvalidStructure; }
        var text := ViewHasNonspace(h.states.value);
        if !text { return InvalidStructure; }
      }
      if h.condition.Some? {
        var text := ViewHasNonspace(h.condition.value.text);
        if !text || h.condition.value.decoded.None? || h.condition.value.decoded.value == 0 { return InvalidStructure; }
      }
      if transitionCount >= limits.maxTransitions { return LimitExceeded; }
      if HeaderRetained(h) > SIZE_MAX - nameBytes || nameBytes + HeaderRetained(h) > limits.maxNameBytes {
        return LimitExceeded;
      }
      transitionCount, nameBytes := transitionCount + 1, nameBytes + HeaderRetained(h);
      return Ok;
    }

    /** One transition: its header, its direct children, then the running maxima. */
    method ValidateTransition(t: Transition, stateVariable: bool, limits: Limits) returns (status: Status)
      requires limits.Valid() && transitionCount <= limits.maxTransitions
      requires actionCount <= limits.maxActions && nameBytes <= limits.maxNameBytes
      modifies this
      ensures status.Ok? <==> && HeaderAdmitted(t.header, stateVariable) && old(transitionCount) < limits.maxTransitions
                              && BlockAdmitted(t.kids)
                              && old(Room(limits, SizeAll(t.kids), HeaderRetained(t.header) + RetainedAll(t.kids)))
                              && EffectsAll(t.kids, limits.maxIterations) <= SIZE_MAX
      ensures status.Ok? ==> && transitionCount == old(transitionCount) + 1
                             && actionCount == old(actionCount) + SizeAll(t.kids)
                             && nameBytes == old(nameBytes) + HeaderRetained(t.header) + RetainedAll(t.kids)
                             && maxTransitionActions == Max(old(maxTransitionActions), SizeAll(t.kids))
                             && maxTransitionEffects
                                == Max(old(maxTransitionEffects), EffectsAll(t.kids, limits.maxIterations))
    {
      status := ValidateHeader(t.header, stateVariable, limits);
      if !status.Ok? { return; }
      status := ValidateContent(t.kids, limits);
    }

    method ValidateContent(kids: Nodes, limits: Limits) returns (status: Status)
      requires limits.Valid()
      requires actionCount <= limits.maxActions && nameBytes <= limits.maxNameBytes
      modifies `actionCount, `nameBytes, `maxTransitionActions, `maxTransitionEffects
      ensures status.Ok? <==> BlockAdmitted(kids) && old(Room(limits, SizeAll(kids), RetainedAll(kids)))
                              && EffectsAll(kids, limits.maxIterations) <= SIZE_MAX
      ensures status.Ok? ==> && actionCount == old(actionCount) + SizeAll(kids)
                             && nameBytes == old(nameBytes) + RetainedAll(kids)
                             && maxTransitionActions == Max(old(maxTransitionActions), SizeAll(kids))
                             && maxTransitionEffects
                                == Max(old(maxTransitionEffects), EffectsAll(kids, limits.maxIterations))
    {
      status := Ok;
      var actions: nat, effects: nat := 0, 0;
      var rest := kids;
      while rest.Cons?
        invariant status.Ok?
        invariant BlockAdmitted(kids) == BlockAdmitted(rest)
        invariant old(actionCount) + SizeAll(kids) == actionCount + SizeAll(rest)
        invariant old(nameBytes) + RetainedAll(kids) == nameBytes + RetainedAll(rest)
        invariant SizeAll(kids) == actions + SizeAll(rest)
        invariant EffectsAll(kids, limits.maxIterations) == effects + EffectsAll(rest, limits.maxIterations)
        invariant actions <= actionCount <= limits.maxActions && nameBytes <= limits.maxNameBytes && effects <= SIZE_MAX
        invariant maxTransitionActions == old(maxTransitionActions) && maxTransitionEffects == old(maxTransitionEffects)
        decreases rest
      {
        status, actions, effects := ValidateExecutable(rest.head, limits, actions, effects);
        if !status.Ok? { return; }
        rest := rest.tail;
      }
      if actions > maxTransitionActions { maxTransitionActions := actions; }
      if effects > maxTransitionEffects { maxTransitionEffects := effects; }
    }
  }

  /** view_has_space */
  method ViewHasSpace(view: string) returns (found: bool)
    ensures found <==> AnyBlank(view)
  {
    for index := 0 to |view|
      invariant forall i :: 0 <= i < index ==> !Blank(view[i])
    {
      if Blank(view[index]) { return true; }
    }
    return false;
  }

  /** view_has_nonspace */
  method ViewHasNonspace(view: string) returns (found: bool)
    ensures found <==> !AllBlank(view)
  {
    for index := 0 to |view|
      invariant forall i :: 0 <= i < index ==> Blank(view[i])
    {
      if !Blank(view[index]) { return true; }
    }
    return false;
  }

  function Max(a: nat, b: nat): nat { if a < b then b else a }

  lemma Scaled(x: nat, k: nat)
    requires 0 < k
    ensures x <= x * k
  {
  }

  method CheckedScale(x: nat, k: nat) returns (fits: bool, product: nat)
    requires 0 < k
    ensures fits <==> x * k <= SIZE_MAX
    ensures fits ==> product == x * k
  {
    product := 0;
    fits := x <= SIZE_MAX / k;
    if fits {
      assert x * k <= (SIZE_MAX / k) * k;
      product := x * k;
    } else {
      assert x * k >= (SIZE_MAX / k + 1) * k;
    }
  }
}
