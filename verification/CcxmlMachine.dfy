/**
 Two readings of a transition's executable content: a structural interpreter of the
 tree, and one step of the row machine with its frame stack, foreach frame, scope
 views and ticket journal.
 */
module CcxmlMachine {
  import opened Basics
  import opened CcxmlTree
  import opened CcxmlCompile

  // ----- the outside -------------------------------------------------------

  type Scope = map<string, int>
  type Error = s: Status | !s.Ok? witness LimitExceeded

  datatype Answer<T> = Value(value: T) | Fault(error: Error)

  datatype Id = SendId(token: nat) | Named(text: string)

  /** Where an effect's identifier is to be written, if anywhere. */
  datatype Place = Nowhere | Into(location: string)

  datatype Request =
    | Provide(op: string, text: string, token: nat, place: Place)
    | Write(location: string, value: Id)

  datatype Reply = Refused | Accepted(hasCommit: bool, hasDiscard: bool, generated: string)

  /** A ticket is identified by the moment it was handed out. */
  datatype Ticket = Ticket(id: nat, request: Request)

  /** What the adapters and the scope allocator saw, in order. A ticket without a
      discard operation is `Broken`: nothing can settle it. */
  datatype Entry =
    | Copied(ok: bool)
    | Declined(request: Request)
    | Broken(ticket: Ticket)
    | Prepared(ticket: Ticket)
    | Committed(ticket: Ticket)
    | Discarded(ticket: Ticket)

  /** Event and data model are fixed while a transition runs, so evaluation is a function
      of the expression and the visible foreach scope; adapters may answer by their history. */
  datatype World = World(
    cond: (string, Scope) -> Answer<bool>,
    build: (string, Scope) -> Answer<string>,
    open: (string, Scope) -> Answer<seq<int>>,
    init: string -> Answer<()>,
    bind: (string, seq<int>, nat, Scope) -> (Scope, Answer<()>),
    copies: seq<Entry> -> bool,
    prepare: (seq<Entry>, Request) -> Reply)

  const TOKEN_MAX: nat := U64_MAX

  predicate ValidText(s: string) { s != "" && '\0' !in s }

  // ----- transactions ------------------------------------------------------

  /** Progress of a transition: visible scope, whether staging has begun, adapter
      history, retained tickets and the next send token (0 once exhausted). */
  datatype Run = Run(scope: Scope, staged: bool, log: seq<Entry>, journal: seq<Ticket>, token: nat)

  datatype Result = Normal(run: Run) | Exited(run: Run) | Failed(error: Error, run: Run)

  function DiscardAll(journal: seq<Ticket>): seq<Entry> {
    if journal == [] then []
    else [Discarded(journal[|journal| - 1])] + DiscardAll(journal[..|journal| - 1])
  }

  function Fail(r: Run, e: Error): Result {
    Failed(e, r.(log := r.log + DiscardAll(r.journal), journal := []))
  }

  datatype Capacity = Unbounded | Bounded(tickets: nat)
  {
    predicate Full(n: nat) { Bounded? && tickets <= n }
  }

  /** Ask for a ticket and keep it, or discard everything kept so far. */
  function Retain(w: World, capacity: Capacity, r: Run, request: Request): (res: Result)
    ensures !res.Exited?
    ensures res.Normal? ==> w.prepare(r.log, request).Accepted?
    ensures res.Normal? ==> res.run.journal == r.journal + [Ticket(|r.log|, request)]
  {
    var ticket := Ticket(|r.log|, request);
    match w.prepare(r.log, request)
    case Refused => Fail(r.(log := r.log + [Declined(request)]), AdapterError)
    case Accepted(hasCommit, hasDiscard, _) =>
      if !hasDiscard then Fail(r.(log := r.log + [Broken(ticket)]), InvalidContract)
      else if !hasCommit then Fail(r.(log := r.log + [Prepared(ticket), Discarded(ticket)]), InvalidContract)
      else if capacity.Full(|r.journal|) then
        Fail(r.(log := r.log + [Prepared(ticket), Discarded(ticket)]), LimitExceeded)
      else Normal(r.(log := r.log + [Prepared(ticket)], journal := r.journal + [ticket]))
  }

  function SwapLast(journal: seq<Ticket>): seq<Ticket>
    requires 2 <= |journal|
  {
    var n := |journal|;
    journal[..n - 2] + [journal[n - 1], journal[n - 2]]
  }

  /** Provider effect first, then the write of the generated identifier; the journal keeps
      the write before the effect. A zero token asks the provider for the identifier. */
  function ExecPair(w: World, capacity: Capacity, r: Run, op: string, text: string, token: nat, location: string)
    : (res: Result)
    ensures !res.Exited?
    ensures res.Normal? ==> |res.run.journal| == |r.journal| + 2
  {
    var request := Provide(op, text, token, Into(location));
    match Retain(w, capacity, r, request)
    case Normal(r1) =>
      var generated := w.prepare(r.log, request).generated;
      if token == 0 && !ValidText(generated) then Fail(r1, InvalidContract)
      else
        (match Retain(w, capacity, r1, Write(location, if token == 0 then Named(generated) else SendId(token)))
         case Normal(r2) => Normal(r2.(journal := SwapLast(r2.journal)))
         case other => other)
    case other => other
  }

  function NextToken(token: nat): nat { if TOKEN_MAX <= token then 0 else token + 1 }

  function ExecLeaf(w: World, capacity: Capacity, a: LeafAction, r: Run): (res: Result)
    ensures res.Exited? <==> a.Exit?
    ensures !res.Failed? && !a.Exit? ==> |res.run.journal| == |r.journal| + LeafEffects(a)
    ensures a.Exit? ==> res.run == r
  {
    match a
    case Exit => Exited(r)
    case Plain(op) =>
      (match w.build(op, r.scope)
       case Fault(e) => Fail(r, e)
       case Value(text) => Retain(w, capacity, r, Provide(op, text, 0, Nowhere)))
    case Generating(op, location, source) =>
      (match w.build(op, r.scope)
       case Fault(e) => Fail(r, e)
       case Value(text) =>
         if source.Provider? then ExecPair(w, capacity, r, op, text, 0, location)
         else if r.token == 0 then Fail(r, LimitExceeded)
         else ExecPair(w, capacity, r.(token := NextToken(r.token)), op, text, r.token, location))
  }

  lemma RoomForTicket(w: World, tickets: nat, r: Run, q: Request)
    requires |r.journal| < tickets
    ensures Retain(w, Bounded(tickets), r, q) == Retain(w, Unbounded, r, q)
  {
  }

  /** A journal with room for a leaf's declared effects never refuses one. */
  lemma RoomForLeaf(w: World, tickets: nat, a: LeafAction, r: Run)
    requires |r.journal| + LeafEffects(a) <= tickets
    ensures ExecLeaf(w, Bounded(tickets), a, r) == ExecLeaf(w, Unbounded, a, r)
  {
    match a
    case Exit =>
    case Plain(op) =>
    case Generating(op, location, source) =>
      var text := w.build(op, r.scope);
      if text.Value? {
        if source.Provider? {
          RoomForPair(w, tickets, r, op, text.value, 0, location);
        } else {
          RoomForPair(w, tickets, r.(token := NextToken(r.token)), op, text.value, r.token, location);
        }
      }
  }

  lemma RoomForPair(w: World, tickets: nat, r: Run, op: string, text: string, token: nat, location: string)
    requires |r.journal| + 2 <= tickets
    ensures ExecPair(w, Bounded(tickets), r, op, text, token, location)
         == ExecPair(w, Unbounded, r, op, text, token, location)
  {
    var q := Provide(op, text, token, Into(location));
    RoomForTicket(w, tickets, r, q);
    var first := Retain(w, Unbounded, r, q);
    if first.Normal? {
      var generated := w.prepare(r.log, q).generated;
      RoomForTicket(w, tickets, first.run, Write(location, if token == 0 then Named(generated) else SendId(token)));
    }
  }

  // ----- the structural interpreter ----------------------------------------

  /** The allocator copies the scope once when staging begins and once per block. */
  function BeginBlock(w: World, r: Run): (bool, Run) {
    var first := r.log + [Copied(w.copies(r.log))];
    if r.staged then (w.copies(r.log), r.(log := first))
    else if !w.copies(r.log) then (false, r.(log := first))
    else (w.copies(first), r.(staged := true, log := first + [Copied(w.copies(first))]))
  }

  /** Runs one node. `most` is the iteration limit of the program. */
  function ExecNode(w: World, most: nat, n: Node, r: Run): Result
    decreases n, 0
  {
    match n
    case Leaf(a, _) => ExecLeaf(w, Unbounded, a, r)
    case If(c, _, kids) => ExecIf(w, most, c, kids, r)
    case Foreach(l, _, kids) => ExecForeach(w, most, l, kids, r)
    case _ => Normal(r)
  }

  /** Runs children in order up to the first branch marker. */
  function ExecRun(w: World, most: nat, kids: Nodes, r: Run): Result
    decreases kids, 0
  {
    if kids.Nil? || kids.head.Marker() then Normal(r)
    else
      match ExecNode(w, most, kids.head, r)
      case Normal(r1) => ExecRun(w, most, kids.tail, r1)
      case other => other
  }

  /** `kids` are the children after a condition; a false one moves on to the next marker. */
  function ExecIf(w: World, most: nat, cond: string, kids: Nodes, r: Run): Result
    decreases kids, 2
  {
    match w.cond(cond, r.scope)
    case Fault(e) => Fail(r, e)
    case Value(holds) => if holds then ExecRun(w, most, kids, r) else ExecElse(w, most, kids, r)
  }

  function ExecElse(w: World, most: nat, kids: Nodes, r: Run): Result
    decreases kids, 1
  {
    match kids
    case Nil => Normal(r)
    case Cons(ElseIf(c, _), tail) => ExecIf(w, most, c, tail, r)
    case Cons(Else, tail) => ExecRun(w, most, tail, r)
    case Cons(_, tail) => ExecElse(w, most, tail, r)
  }

  function ExecForeach(w: World, most: nat, loop: string, kids: Nodes, r: Run): Result
    decreases kids, 2
  {
    var (begun, r1) := BeginBlock(w, r);
    if !begun then Fail(r1, InvalidContract)
    else
      match w.open(loop, r1.scope)
      case Fault(e) => Fail(r1, e)
      case Value(elements) =>
        if most < |elements| then Fail(r1, LimitExceeded)
        else
          match w.init(loop)
          case Fault(e) => Fail(r1, e)
          case Value(_) => Iterations(w, most, loop, elements, 0, kids, r1)
  }

  /** Binds element `i`, runs the body, goes on with the next element. */
  function Iterations(w: World, most: nat, loop: string, elements: seq<int>, i: nat, kids: Nodes, r: Run): Result
    requires i <= |elements|
    decreases kids, 1, |elements| - i
  {
    if i == |elements| then Normal(r)
    else
      var (scope, bound) := w.bind(loop, elements, i, r.scope);
      var r1 := r.(scope := scope);
      match bound
      case Fault(e) => Fail(r1, e)
      case Value(_) =>
        match ExecRun(w, most, kids, r1)
        case Normal(r2) => Iterations(w, most, loop, elements, i + 1, kids, r2)
        case other => other
  }

  // ----- bindings change only in blocks ------------------------------------

  /** What begins staged stays staged; a run that has staged nothing shows the bindings it began with. */
  ghost predicate Stages(r: Run, res: Result) {
    (r.staged ==> res.run.staged) && (!res.run.staged ==> res.run.scope == r.scope)
  }

  lemma LeafStages(w: World, a: LeafAction, r: Run)
    ensures Stages(r, ExecLeaf(w, Unbounded, a, r))
  {
  }

  lemma {:induction false} NodeStages(w: World, most: nat, n: Node, r: Run)
    ensures Stages(r, ExecNode(w, most, n, r))
    decreases n, 0
  {
    match n
    case Leaf(a, _) => LeafStages(w, a, r);
    case If(c, _, kids) => RunStages(w, most, kids, r); ElseStages(w, most, kids, r);
    case Foreach(l, _, kids) => ForeachStages(w, most, l, kids, r);
    case _ =>
  }

  lemma {:induction false} ForeachStages(w: World, most: nat, loop: string, kids: Nodes, r: Run)
    ensures Stages(r, ExecForeach(w, most, loop, kids, r))
    decreases kids, 2
  {
    var (begun, r1) := BeginBlock(w, r);
    var elements := w.open(loop, r1.scope);
    if begun && elements.Value? { LoopStages(w, most, loop, elements.value, 0, kids, r1); }
  }

  lemma {:induction false} RunStages(w: World, most: nat, kids: Nodes, r: Run)
    ensures Stages(r, ExecRun(w, most, kids, r))
    decreases kids, 0
  {
    if kids.Cons? && !kids.head.Marker() {
      NodeStages(w, most, kids.head, r);
      var res := ExecNode(w, most, kids.head, r);
      if res.Normal? { RunStages(w, most, kids.tail, res.run); }
    }
  }

  lemma {:induction false} ElseStages(w: World, most: nat, kids: Nodes, r: Run)
    ensures Stages(r, ExecElse(w, most, kids, r))
    decreases kids, 1
  {
    if kids.Cons? {
      ElseStages(w, most, kids.tail, r);
      RunStages(w, most, kids.tail, r);
    }
  }

  lemma {:induction false} LoopStages(
    w: World, most: nat, loop: string, elements: seq<int>, i: nat, kids: Nodes, r: Run)
    requires i <= |elements| && r.staged
    ensures Stages(r, Iterations(w, most, loop, elements, i, kids, r))
    decreases kids, 1, |elements| - i
  {
    if i < |elements| {
      var r1 := r.(scope := w.bind(loop, elements, i, r.scope).0);
      RunStages(w, most, kids, r1);
      var res := ExecRun(w, most, kids, r1);
      if res.Normal? { LoopStages(w, most, loop, elements, i + 1, kids, res.run); }
    }
  }

  // ----- the row machine ---------------------------------------------------

  /** A scope view: which of the three allocations it points at, and the bindings there. */
  datatype View = View(buffer: nat, content: Scope)

  datatype Scopes = Scopes(committed: View, staging: View, checkpoint: View, pending: bool, checkpointLive: bool)
  {
    function Visible(): Scope { if pending then staging.content else committed.content }

    /** Closes a block: keep the staged bindings, or swap the checkpoint back in. */
    function Settle(succeeded: bool): Scopes {
      if !checkpointLive then this
      else if succeeded then this.(checkpoint := checkpoint.(content := map[]), checkpointLive := false)
      else this.(staging := checkpoint, checkpoint := staging.(content := map[]), checkpointLive := false)
    }

    function Commit(): Scopes {
      if !pending then this
      else this.(committed := staging, staging := committed.(content := map[]), pending := false)
    }

    function Discard(): Scopes {
      if !pending then this
      else this.(checkpoint := checkpoint.(content := map[]), staging := staging.(content := map[]),
                 checkpointLive := false, pending := false)
    }
  }

  datatype Frame = Frame(end: nat, taken: bool)
  datatype Loop = Idle | Live(row: nat, iteration: nat, elements: seq<int>)
  datatype Halt = Running | Finished(exit: bool) | Faulted(error: Error)

  datatype Config = Config(w: World, rows: seq<Row>, first: nat, count: nat,
                           frameCapacity: nat, ticketCapacity: nat, mostIterations: nat)
  {
    predicate Valid() { first + count <= |rows| }
    function Limit(): nat { first + count }
  }

  datatype Machine = Machine(pc: nat, frames: seq<Frame>, loop: Loop, scopes: Scopes,
                             log: seq<Entry>, journal: seq<Ticket>, token: nat, halt: Halt)
  {
    function Progress(): Run { Run(scopes.Visible(), scopes.pending, log, journal, token) }

    function Fault(e: Error): Machine {
      this.(log := log + DiscardAll(journal), journal := [], halt := Faulted(e))
    }

    function Goto(target: nat): Machine { this.(pc := target) }
    function Settled(succeeded: bool): Machine { this.(scopes := scopes.Settle(succeeded), loop := Idle) }
  }

  /** begin_foreach_block: the staging copy if this is the first block, then the checkpoint copy. */
  function BeginScopes(w: World, m: Machine): (bool, Machine) {
    if m.scopes.checkpointLive then (false, m)
    else if m.scopes.pending then Checkpoint(w, m)
    else
      var m1 := m.(log := m.log + [Copied(w.copies(m.log))]);
      if !w.copies(m.log) then (false, m1)
      else
        var s := m.scopes;
        Checkpoint(w, m1.(scopes := s.(staging := s.staging.(content := s.committed.content), pending := true)))
  }

  function Checkpoint(w: World, m: Machine): (bool, Machine) {
    var m1 := m.(log := m.log + [Copied(w.copies(m.log))]);
    var s := m.scopes;
    if !w.copies(m.log) then (false, m1)
    else (true, m1.(scopes := s.(checkpoint := s.checkpoint.(content := s.staging.content), checkpointLive := true)))
  }

  function BindElement(w: World, m: Machine, loop: string, elements: seq<int>, i: nat): (Machine, Answer<()>) {
    var (scope, bound) := w.bind(loop, elements, i, m.scopes.staging.content);
    (m.(scopes := m.scopes.(staging := m.scopes.staging.(content := scope))), bound)
  }

  function StepForeach(c: Config, m: Machine, row: Row): Machine
    requires row.ForeachRow?
  {
    if m.loop.Live? || row.next != m.pc + 1 || row.end <= row.next || c.Limit() < row.end then
      m.Fault(InvalidContract)
    else
      var (begun, m1) := BeginScopes(c.w, m);
      if !begun then m1.Fault(InvalidContract)
      else
        match c.w.open(row.loop, m1.scopes.staging.content)
        case Fault(e) => m1.Settled(false).Fault(e)
        case Value(elements) =>
          if c.mostIterations < |elements| then m1.Settled(false).Fault(LimitExceeded)
          else
            match c.w.init(row.loop)
            case Fault(e) => m1.Settled(false).Fault(e)
            case Value(_) =>
              if elements == [] then m1.Settled(true).Goto(row.end)
              else
                var (m2, bound) := BindElement(c.w, m1.(loop := Live(m.pc, 0, elements)), row.loop, elements, 0);
                match bound
                case Fault(e) => m2.Settled(false).Fault(e)
                case Value(_) => m2.Goto(m.pc + 1)
  }

  function StepEndForeach(c: Config, m: Machine, row: Row): Machine
    requires c.Valid() && row.EndForeachRow?
  {
    if !m.loop.Live? || row.next != m.loop.row || |c.rows| <= m.loop.row || !c.rows[m.loop.row].ForeachRow? then
      m.Fault(InvalidContract)
    else
      var opening := c.rows[m.loop.row];
      var i := m.loop.iteration + 1;
      if i < |m.loop.elements| then
        var (m1, bound) :=
          BindElement(c.w, m.(loop := m.loop.(iteration := i)), opening.loop, m.loop.elements, i);
        match bound
        case Fault(e) => m1.Settled(false).Fault(e)
        case Value(_) => m1.Goto(opening.next)
      else m.Settled(true).Goto(m.pc + 1)
  }

  predicate LinksOk(c: Config, row: Row)
    requires row.IfRow? || row.ElseIfRow?
  {
    c.first <= row.next < c.Limit() && row.next <= row.end < c.Limit()
  }

  function Test(c: Config, m: Machine, row: Row): Machine
    requires (row.IfRow? || row.ElseIfRow?) && m.frames != []
  {
    match c.w.cond(row.cond, m.scopes.Visible())
    case Fault(e) => m.Fault(e)
    case Value(holds) =>
      m.(frames := m.frames[..|m.frames| - 1] + [Frame(row.end, holds)])
       .Goto(if holds then m.pc + 1 else row.next)
  }

  function StepIf(c: Config, m: Machine, row: Row): Machine
    requires row.IfRow?
  {
    if !LinksOk(c, row) then m.Fault(InvalidContract)
    else if c.frameCapacity <= |m.frames| then m.Fault(LimitExceeded)
    else Test(c, m.(frames := m.frames + [Frame(row.end, false)]), row)
  }

  /** The innermost conditional frame belongs to the block ending at `end`. */
  predicate OwnsTop(m: Machine, end: nat) { m.frames != [] && m.frames[|m.frames| - 1].end == end }

  function Pop(m: Machine, target: nat): Machine
    requires m.frames != []
  {
    m.(frames := m.frames[..|m.frames| - 1]).Goto(target)
  }

  function StepElseIf(c: Config, m: Machine, row: Row): Machine
    requires row.ElseIfRow?
  {
    if !LinksOk(c, row) || !OwnsTop(m, row.end) then m.Fault(InvalidContract)
    else if m.frames[|m.frames| - 1].taken then Pop(m, row.end + 1)
    else Test(c, m, row)
  }

  function StepElse(m: Machine, row: Row): Machine
    requires row.ElseRow?
  {
    if !OwnsTop(m, row.end) || row.next != row.end then m.Fault(InvalidContract)
    else if m.frames[|m.frames| - 1].taken then Pop(m, row.end + 1)
    else m.(frames := m.frames[..|m.frames| - 1] + [Frame(row.end, true)]).Goto(m.pc + 1)
  }

  function StepEndIf(m: Machine): Machine {
    if !OwnsTop(m, m.pc) then m.Fault(InvalidContract) else Pop(m, m.pc + 1)
  }

  function StepLeaf(c: Config, m: Machine, a: LeafAction): Machine {
    match ExecLeaf(c.w, Bounded(c.ticketCapacity), a, m.Progress())
    case Normal(r) => m.(log := r.log, journal := r.journal, token := r.token).Goto(m.pc + 1)
    case Exited(_) => m.(halt := Finished(true))
    case Failed(e, r) => m.(log := r.log, journal := r.journal, token := r.token, halt := Faulted(e))
  }

  function StepRow(c: Config, m: Machine, row: Row): Machine
    requires c.Valid()
  {
    match row
    case ForeachRow(_, _, _) => StepForeach(c, m, row)
    case EndForeachRow(_) => StepEndForeach(c, m, row)
    case IfRow(_, _, _) => StepIf(c, m, row)
    case ElseIfRow(_, _, _) => StepElseIf(c, m, row)
    case ElseRow(_, _) => StepElse(m, row)
    case EndIfRow => StepEndIf(m)
    case LeafRow(a) => StepLeaf(c, m, a)
  }

  /** One turn of the dispatch loop; leaving the transition with an open block is refused. */
  function Step(c: Config, m: Machine): Machine
    requires c.Valid()
  {
    if !m.halt.Running? then m
    else if c.Limit() <= m.pc then
      (if m.frames == [] then m.(halt := Finished(false)) else m.Fault(InvalidContract))
    else StepRow(c, m, c.rows[m.pc])
  }

  /** The checks the machine makes of a row and of its own arrays, whatever the outside answers:
      links, frames, the foreach frame and checkpoint, and room in the journal. */
  predicate RowChecked(c: Config, m: Machine, row: Row) {
    match row
    case ForeachRow(_, next, end) =>
      m.loop.Idle? && next == m.pc + 1 && next < end <= c.Limit() && !m.scopes.checkpointLive
    case EndForeachRow(next) =>
      m.loop.Live? && next == m.loop.row && m.loop.row < |c.rows| && c.rows[m.loop.row].ForeachRow?
    case IfRow(_, _, _) => LinksOk(c, row) && |m.frames| < c.frameCapacity
    case ElseIfRow(_, _, end) => LinksOk(c, row) && OwnsTop(m, end)
    case ElseRow(next, end) => OwnsTop(m, end) && next == end
    case EndIfRow => OwnsTop(m, m.pc)
    case LeafRow(a) => |m.journal| + LeafEffects(a) <= c.ticketCapacity
  }

  /** The next step fails no check of the machine's own. */
  predicate Checked(c: Config, m: Machine)
    requires c.Valid()
  {
    m.halt.Running? ==> if c.Limit() <= m.pc then m.frames == [] else RowChecked(c, m, c.rows[m.pc])
  }

  /** The outside refuses what the row under control asks of it. */
  predicate Refuses(c: Config, m: Machine, row: Row) {
    match row
    case IfRow(cond, _, _) => c.w.cond(cond, m.scopes.Visible()).Fault?
    case ElseIfRow(cond, _, _) =>
      m.frames != [] && !m.frames[|m.frames| - 1].taken && c.w.cond(cond, m.scopes.Visible()).Fault?
    case ElseRow(_, _) => false
    case EndIfRow => false
    case LeafRow(a) => ExecLeaf(c.w, Unbounded, a, m.Progress()).Failed?
    case ForeachRow(loop, _, _) =>
      var (copied, m1) := BeginScopes(c.w, m);
      var elements := c.w.open(loop, m1.scopes.staging.content);
      !copied || elements.Fault? || c.mostIterations < |elements.value| || c.w.init(loop).Fault?
      || (elements.value != [] && c.w.bind(loop, elements.value, 0, m1.scopes.staging.content).1.Fault?)
    case EndForeachRow(_) =>
      m.loop.Live? && m.loop.row < |c.rows| && c.rows[m.loop.row].ForeachRow?
      && m.loop.iteration + 1 < |m.loop.elements|
      && c.w.bind(c.rows[m.loop.row].loop, m.loop.elements, m.loop.iteration + 1, m.scopes.staging.content).1.Fault?
  }

  function Iterate(c: Config, m: Machine, k: nat): Machine
    requires c.Valid()
    decreases k
  {
    if k == 0 then m else Iterate(c, Step(c, m), k - 1)
  }
}
