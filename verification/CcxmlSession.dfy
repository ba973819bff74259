/**
 The session that runs compiled rows: fixed ticket and frame arrays, three scope
 views, one foreach frame, and the effect journal that is settled as a unit.
 */
module CcxmlSession {
  import opened Basics
  import opened CcxmlTree
  import opened CcxmlCompile
  import opened CcxmlMachine
  import opened CcxmlSimulation

  const BLANK := Ticket(0, Write("", Named("")))

  class Session {
    /** What the outside answers; it may differ from event to event. */
    var w: World
    const rows: seq<Row>
    const mostIterations: nat
    const tickets: array<Ticket>
    const frames: array<Frame>
    var committed: View
    var staging: View
    var checkpoint: View
    var pending: bool
    var checkpointLive: bool
    var loop: Loop
    var log: seq<Entry>
    var token: nat
    var preparedCount: nat

    constructor (w: World, rows: seq<Row>, mostIterations: nat, maxEffects: nat, maxActions: nat, token: nat)
      ensures Fresh() && fresh(tickets) && fresh(frames)
      ensures this.w == w && this.rows == rows && this.mostIterations == mostIterations && this.token == token
      ensures tickets.Length == maxEffects && frames.Length == maxActions
      ensures log == [] && committed.content == map[]
    {
      this.w, this.rows, this.mostIterations := w, rows, mostIterations;
      tickets := new Ticket[maxEffects](_ => BLANK);
      frames := new Frame[maxActions](_ => Frame(0, false));
      committed, staging, checkpoint := View(0, map[]), View(1, map[]), View(2, map[]);
      pending, checkpointLive, loop := false, false, Idle;
      log, preparedCount := [], 0;
      this.token := token;
    }

    /** Between dispatches nothing is staged and the views hold the three allocations. */
    ghost predicate Fresh()
      reads this
    {
      !pending && !checkpointLive && loop.Idle? && preparedCount == 0 && Buffers(Views())
    }

    ghost function Views(): Scopes
      reads this
    {
      Scopes(committed, staging, checkpoint, pending, checkpointLive)
    }

    ghost function State(pc: nat, depth: nat, prepared: nat, halt: Halt): Machine
      requires depth <= frames.Length && prepared <= tickets.Length
      reads this, tickets, frames
    {
      Machine(pc, frames[..depth], loop, Views(), log, tickets[..prepared], token, halt)
    }

    ghost function Progress(prepared: nat): Run
      requires prepared <= tickets.Length
      reads this, tickets
    {
      Run(Views().Visible(), pending, log, tickets[..prepared], token)
    }

    ghost function Cfg(first: nat, count: nat): Config
      reads this
    {
      Config(w, rows, first, count, frames.Length, tickets.Length, mostIterations)
    }

    // ----- scope views -----------------------------------------------------

    method BeginForeachBlock() returns (ok: bool)
      modifies `staging, `checkpoint, `pending, `checkpointLive, `log
      ensures forall m: Machine :: m.scopes == old(Views()) && m.log == old(log) ==>
                var (begun, m') := BeginScopes(w, m); ok == begun && Views() == m'.scopes && log == m'.log
    {
      if checkpointLive { return false; }
      if !pending {
        var copied := w.copies(log);
        log := log + [Copied(copied)];
        if !copied { return false; }
        staging := staging.(content := committed.content);
        pending := true;
      }
      var copied := w.copies(log);
      log := log + [Copied(copied)];
      if !copied { return false; }
      checkpoint := checkpoint.(content := staging.content);
      checkpointLive := true;
      return true;
    }

    method SettleForeachBlock(succeeded: bool)
      modifies `staging, `checkpoint, `checkpointLive
      ensures Views() == old(Views()).Settle(succeeded)
    {
      if !checkpointLive { return; }
      if succeeded {
        checkpoint := checkpoint.(content := map[]);
      } else {
        staging := staging.(content := map[]);
        staging, checkpoint := checkpoint, staging;
      }
      checkpointLive := false;
    }

    method CommitForeachScope()
      modifies `committed, `staging, `pending
      ensures Views() == old(Views()).Commit()
    {
      if !pending { return; }
      committed, staging := staging, committed;
      staging := staging.(content := map[]);
      pending := false;
    }

    method DiscardForeachScope()
      modifies `staging, `checkpoint, `pending, `checkpointLive
      ensures Views() == old(Views()).Discard()
    {
      if !pending { return; }
      checkpoint := checkpoint.(content := map[]);
      staging := staging.(content := map[]);
      checkpointLive := false;
      pending := false;
    }

    // ----- tickets ---------------------------------------------------------

    method DiscardTickets(count: nat)
      requires count <= tickets.Length
      modifies `log, tickets
      ensures log == old(log) + DiscardAll(old(tickets[..count]))
    {
      var n := count;
      while n != 0
        invariant 0 <= n <= count
        invariant tickets[..n] == old(tickets[..n])
        invariant log + DiscardAll(tickets[..n]) == old(log) + DiscardAll(old(tickets[..count]))
      {
        ghost var whole := tickets[..n];
        n := n - 1;
        assert whole[..n] == tickets[..n];
        assert log + DiscardAll(whole) == log + [Discarded(whole[n])] + DiscardAll(tickets[..n]);
        log := log + [Discarded(tickets[n])];
        tickets[n] := BLANK;
      }
    }

    method RetainTicket(request: Request, prepared: nat) returns (status: Status, kept: nat, generated: string)
      requires prepared <= tickets.Length
      modifies `log, tickets
      ensures kept <= tickets.Length
      ensures Answers(Retain(w, Bounded(tickets.Length), old(Progress(prepared)), request), status, kept)
      ensures status.Ok? ==> generated == w.prepare(old(log), request).generated
    {
      generated, kept := "", 0;
      var ticket := Ticket(|log|, request);
      match w.prepare(log, request) {
        case Refused =>
          log := log + [Declined(request)];
          DiscardTickets(prepared);
          status := AdapterError;
        case Accepted(hasCommit, hasDiscard, id) =>
          if !hasCommit || !hasDiscard {
            if hasDiscard { log := log + [Prepared(ticket), Discarded(ticket)]; } else { log := log + [Broken(ticket)]; }
            DiscardTickets(prepared);
            status := InvalidContract;
          } else if prepared >= tickets.Length {
            log := log + [Prepared(ticket), Discarded(ticket)];
            DiscardTickets(prepared);
            status := LimitExceeded;
          } else {
            log := log + [Prepared(ticket)];
            tickets[prepared] := ticket;
            assert tickets[..prepared + 1] == old(tickets[..prepared]) + [ticket];
            kept, generated, status := prepared + 1, id, Ok;
          }
      }
    }

    /** What a method reports about `res`: its error, or the retained tickets. */
    ghost predicate Answers(res: Result, status: Status, kept: nat)
      requires kept <= tickets.Length
      reads this, tickets
    {
      match res
      case Failed(e, r) => status == e && Progress(kept) == r
      case _ => status.Ok? && Progress(kept) == res.run
    }

    method FailWith(e: Error, prepared: nat)
      requires prepared <= tickets.Length
      modifies `log, tickets
      ensures Progress(0) == Fail(old(Progress(prepared)), e).run
    {
      DiscardTickets(prepared);
    }

    // ----- leaf actions ----------------------------------------------------

    method RunPair(op: string, text: string, sendToken: nat, location: string, prepared: nat)
      returns (status: Status, kept: nat)
      requires prepared <= tickets.Length
      modifies `log, tickets
      ensures kept <= tickets.Length
      ensures Answers(ExecPair(w, Bounded(tickets.Length), old(Progress(prepared)), op, text, sendToken, location),
                      status, kept)
    {
      var generated, ignored;
      status, kept, generated := RetainTicket(Provide(op, text, sendToken, Into(location)), prepared);
      if !status.Ok? { return; }
      if sendToken == 0 && !ValidText(generated) {
        FailWith(InvalidContract, kept);
        return InvalidContract, 0;
      }
      var id := if sendToken == 0 then Named(generated) else SendId(sendToken);
      status, kept, ignored := RetainTicket(Write(location, id), kept);
      if !status.Ok? { return; }
      ghost var before := tickets[..kept];
      tickets[kept - 2], tickets[kept - 1] := tickets[kept - 1], tickets[kept - 2];
      assert tickets[..kept] == SwapLast(before);
    }

    method RunLeaf(a: LeafAction, prepared: nat) returns (status: Status, kept: nat)
      requires prepared <= tickets.Length && !a.Exit?
      modifies `log, `token, tickets
      ensures kept <= tickets.Length
      ensures Answers(ExecLeaf(w, Bounded(tickets.Length), a, old(Progress(prepared))), status, kept)
    {
      var answer := w.build(a.op, if pending then staging.content else committed.content);
      if answer.Fault? {
        FailWith(answer.error, prepared);
        return answer.error, 0;
      }
      if a.Plain? {
        var generated;
        status, kept, generated := RetainTicket(Provide(a.op, answer.value, 0, Nowhere), prepared);
      } else if a.source.Provider? {
        status, kept := RunPair(a.op, answer.value, 0, a.location, prepared);
      } else if token == 0 {
        FailWith(LimitExceeded, prepared);
        return LimitExceeded, 0;
      } else {
        var mine := token;
        token := if token >= TOKEN_MAX then 0 else token + 1;
        status, kept := RunPair(a.op, answer.value, mine, a.location, prepared);
      }
    }

    // ----- control rows ----------------------------------------------------

    method Refuse(prepared: nat)
      requires prepared <= tickets.Length
      modifies `log, tickets
      ensures log == old(log) + DiscardAll(old(tickets[..prepared]))
    {
      DiscardTickets(prepared);
    }

    method Bind(name: string, elements: seq<int>, i: nat) returns (bound: Answer<()>)
      modifies `staging
      ensures var (scope, answer) := w.bind(name, elements, i, old(staging.content));
              staging == old(staging).(content := scope) && bound == answer
    {
      var (scope, answer) := w.bind(name, elements, i, staging.content);
      staging := staging.(content := scope);
      bound := answer;
    }

    method CloseLoop(succeeded: bool)
      modifies `loop, `staging, `checkpoint, `checkpointLive
      ensures loop.Idle? && Views() == old(Views()).Settle(succeeded)
    {
      loop := Idle;
      SettleForeachBlock(succeeded);
    }

    method OpenForeach(first: nat, count: nat, pc: nat, depth: nat, prepared: nat)
      returns (next: nat, kept: nat, halt: Halt)
      requires depth <= frames.Length && prepared <= tickets.Length
      requires pc < |rows| && rows[pc].ForeachRow?
      modifies `staging, `checkpoint, `pending, `checkpointLive, `log, `loop, tickets
      ensures kept <= tickets.Length
      ensures State(next, depth, kept, halt)
           == StepForeach(Cfg(first, count), old(State(pc, depth, prepared, Running)), rows[pc])
    {
      var row := rows[pc];
      next, kept := pc, 0;
      if loop.Live? || row.next != pc + 1 || row.end <= row.next || first + count < row.end {
        Refuse(prepared);
        return pc, 0, Faulted(InvalidContract);
      }
      ghost var m := State(pc, depth, prepared, Running);
      var begun := BeginForeachBlock();
      assert begun == BeginScopes(w, m).0;
      assert State(pc, depth, prepared, Running) == BeginScopes(w, m).1;
      if !begun {
        Refuse(prepared);
        return pc, 0, Faulted(InvalidContract);
      }
      next, kept, halt := StartLoop(row, pc, depth, prepared);
    }

    /** What follows a begun block: open the sequence and bind its first element. */
    static function StartSpec(w: World, mostIterations: nat, m: Machine, row: Row): Machine
      requires row.ForeachRow?
    {
      match Opened(w, mostIterations, w.open(row.loop, m.scopes.staging.content), row.loop)
      case Some(e) => m.Settled(false).Fault(e)
      case None =>
        var elements := w.open(row.loop, m.scopes.staging.content).value;
        if elements == [] then m.Settled(true).Goto(row.end)
        else
          var (m2, bound) := BindElement(w, m.(loop := Live(m.pc, 0, elements)), row.loop, elements, 0);
          match bound
          case Fault(e) => m2.Settled(false).Fault(e)
          case Value(_) => m2.Goto(m.pc + 1)
    }

    method StartLoop(row: Row, pc: nat, depth: nat, prepared: nat) returns (next: nat, kept: nat, halt: Halt)
      requires depth <= frames.Length && prepared <= tickets.Length && row.ForeachRow?
      modifies `staging, `checkpoint, `checkpointLive, `log, `loop, tickets
      ensures kept <= tickets.Length
      ensures State(next, depth, kept, halt)
           == StartSpec(w, mostIterations, old(State(pc, depth, prepared, Running)), row)
    {
      var answer := w.open(row.loop, staging.content);
      var failure := Opened(w, mostIterations, answer, row.loop);
      if failure.Some? {
        CloseLoop(false);
        Refuse(prepared);
        return pc, 0, Faulted(failure.value);
      }
      var elements := answer.value;
      if elements == [] {
        CloseLoop(true);
        return row.end, prepared, Running;
      }
      loop := Live(pc, 0, elements);
      var bound := Bind(row.loop, elements, 0);
      if bound.Fault? {
        CloseLoop(false);
        Refuse(prepared);
        return pc, 0, Faulted(bound.error);
      }
      return pc + 1, prepared, Running;
    }

    /** The first reason an opened sequence cannot be iterated. */
    static function Opened(w: World, mostIterations: nat, answer: Answer<seq<int>>, name: string): (f: Option<Error>)
      ensures f.None? ==> answer.Value?
    {
      match answer
      case Fault(e) => Option<Error>.Some(e)
      case Value(elements) =>
        if mostIterations < |elements| then Option<Error>.Some(LimitExceeded)
        else match w.init(name) case Fault(e) => Option<Error>.Some(e) case Value(_) => None
    }

    method EndForeach(first: nat, count: nat, pc: nat, depth: nat, prepared: nat)
      returns (next: nat, kept: nat, halt: Halt)
      requires depth <= frames.Length && prepared <= tickets.Length && Cfg(first, count).Valid()
      requires pc < |rows| && rows[pc].EndForeachRow?
      modifies `staging, `checkpoint, `checkpointLive, `log, `loop, tickets
      ensures kept <= tickets.Length
      ensures State(next, depth, kept, halt)
           == StepEndForeach(Cfg(first, count), old(State(pc, depth, prepared, Running)), rows[pc])
    {
      if !loop.Live? || rows[pc].next != loop.row || |rows| <= loop.row || !rows[loop.row].ForeachRow? {
        Refuse(prepared);
        return pc, 0, Faulted(InvalidContract);
      }
      var opening, elements := rows[loop.row], loop.elements;
      var i := loop.iteration + 1;
      if i < |elements| {
        loop := loop.(iteration := i);
        var bound := Bind(opening.loop, elements, i);
        if bound.Fault? {
          CloseLoop(false);
          Refuse(prepared);
          return pc, 0, Faulted(bound.error);
        }
        return opening.next, prepared, Running;
      }
      CloseLoop(true);
      return pc + 1, prepared, Running;
    }

    method Condition(first: nat, count: nat, pc: nat, depth: nat, prepared: nat)
      returns (next: nat, kept: nat, halt: Halt)
      requires 0 < depth <= frames.Length && prepared <= tickets.Length
      requires pc < |rows| && (rows[pc].IfRow? || rows[pc].ElseIfRow?)
      requires frames[depth - 1].end == rows[pc].end
      modifies `log, tickets, frames
      ensures kept <= tickets.Length
      ensures State(next, depth, kept, halt)
           == Test(Cfg(first, count), old(State(pc, depth, prepared, Running)), rows[pc])
    {
      var row := rows[pc];
      var answer := w.cond(row.cond, if pending then staging.content else committed.content);
      if answer.Fault? {
        Refuse(prepared);
        return pc, 0, Faulted(answer.error);
      }
      ghost var before := frames[..depth];
      frames[depth - 1] := frames[depth - 1].(taken := answer.value);
      assert frames[..depth] == before[..depth - 1] + [Frame(row.end, answer.value)];
      return if answer.value then pc + 1 else row.next, prepared, Running;
    }

    method IfRowAt(first: nat, count: nat, pc: nat, depth: nat, prepared: nat)
      returns (next: nat, deep: nat, kept: nat, halt: Halt)
      requires depth <= frames.Length && prepared <= tickets.Length
      requires pc < |rows| && rows[pc].IfRow?
      modifies `log, tickets, frames
      ensures deep <= frames.Length && kept <= tickets.Length
      ensures State(next, deep, kept, halt)
           == StepIf(Cfg(first, count), old(State(pc, depth, prepared, Running)), rows[pc])
    {
      var row := rows[pc];
      if !(first <= row.next < first + count && row.next <= row.end < first + count) {
        Refuse(prepared);
        return pc, depth, 0, Faulted(InvalidContract);
      }
      if depth >= frames.Length {
        Refuse(prepared);
        return pc, depth, 0, Faulted(LimitExceeded);
      }
      ghost var before := frames[..depth];
      frames[depth] := Frame(row.end, false);
      deep := depth + 1;
      assert frames[..deep] == before + [Frame(row.end, false)];
      next, kept, halt := Condition(first, count, pc, deep, prepared);
    }

    method ElseIfRowAt(first: nat, count: nat, pc: nat, depth: nat, prepared: nat)
      returns (next: nat, deep: nat, kept: nat, halt: Halt)
      requires depth <= frames.Length && prepared <= tickets.Length
      requires pc < |rows| && rows[pc].ElseIfRow?
      modifies `log, tickets, frames
      ensures deep <= frames.Length && kept <= tickets.Length
      ensures State(next, deep, kept, halt)
           == StepElseIf(Cfg(first, count), old(State(pc, depth, prepared, Running)), rows[pc])
    {
      var row := rows[pc];
      if !(first <= row.next < first + count && row.next <= row.end < first + count)
         || depth == 0 || frames[depth - 1].end != row.end
      {
        Refuse(prepared);
        return pc, depth, 0, Faulted(InvalidContract);
      }
      if frames[depth - 1].taken {
        assert frames[..depth][..depth - 1] == frames[..depth - 1];
        return row.end + 1, depth - 1, prepared, Running;
      }
      deep := depth;
      next, kept, halt := Condition(first, count, pc, depth, prepared);
    }

    method ElseRowAt(pc: nat, depth: nat, prepared: nat)
      returns (next: nat, deep: nat, kept: nat, halt: Halt)
      requires depth <= frames.Length && prepared <= tickets.Length
      requires pc < |rows| && rows[pc].ElseRow?
      modifies `log, tickets, frames
      ensures deep <= frames.Length && kept <= tickets.Length
      ensures State(next, deep, kept, halt) == StepElse(old(State(pc, depth, prepared, Running)), rows[pc])
    {
      var row := rows[pc];
      if depth == 0 || frames[depth - 1].end != row.end || row.next != row.end {
        Refuse(prepared);
        return pc, depth, 0, Faulted(InvalidContract);
      }
      ghost var before := frames[..depth];
      if frames[depth - 1].taken {
        assert before[..depth - 1] == frames[..depth - 1];
        return row.end + 1, depth - 1, prepared, Running;
      }
      frames[depth - 1] := frames[depth - 1].(taken := true);
      assert frames[..depth] == before[..depth - 1] + [Frame(row.end, true)];
      return pc + 1, depth, prepared, Running;
    }

    method EndIfRowAt(pc: nat, depth: nat, prepared: nat)
      returns (next: nat, deep: nat, kept: nat, halt: Halt)
      requires depth <= frames.Length && prepared <= tickets.Length
      modifies `log, tickets
      ensures deep <= frames.Length && kept <= tickets.Length
      ensures State(next, deep, kept, halt) == StepEndIf(old(State(pc, depth, prepared, Running)))
    {
      if depth == 0 || frames[depth - 1].end != pc {
        Refuse(prepared);
        return pc, depth, 0, Faulted(InvalidContract);
      }
      assert frames[..depth][..depth - 1] == frames[..depth - 1];
      return pc + 1, depth - 1, prepared, Running;
    }

    method LeafRowAt(first: nat, count: nat, pc: nat, depth: nat, prepared: nat)
      returns (next: nat, kept: nat, halt: Halt)
      requires depth <= frames.Length && prepared <= tickets.Length
      requires pc < |rows| && rows[pc].LeafRow?
      modifies `log, `token, tickets
      ensures kept <= tickets.Length
      ensures State(next, depth, kept, halt)
           == StepLeaf(Cfg(first, count), old(State(pc, depth, prepared, Running)), rows[pc].action)
    {
      var a := rows[pc].action;
      if a.Exit? { return pc, prepared, Finished(true); }
      assert Progress(prepared) == State(pc, depth, prepared, Running).Progress();
      var status;
      status, kept := RunLeaf(a, prepared);
      if status.Ok? { return pc + 1, kept, Running; }
      return pc, kept, Faulted(status);
    }

    method RowAt(first: nat, count: nat, pc: nat, depth: nat, prepared: nat)
      returns (next: nat, deep: nat, kept: nat, halt: Halt)
      requires depth <= frames.Length && prepared <= tickets.Length && Cfg(first, count).Valid()
      requires pc < |rows|
      modifies `staging, `checkpoint, `pending, `checkpointLive, `log, `loop, `token, tickets, frames
      ensures deep <= frames.Length && kept <= tickets.Length
      ensures State(next, deep, kept, halt)
           == StepRow(Cfg(first, count), old(State(pc, depth, prepared, Running)), rows[pc])
    {
      deep := depth;
      match rows[pc] {
        case ForeachRow(_, _, _) => next, kept, halt := OpenForeach(first, count, pc, depth, prepared);
        case EndForeachRow(_) => next, kept, halt := EndForeach(first, count, pc, depth, prepared);
        case IfRow(_, _, _) => next, deep, kept, halt := IfRowAt(first, count, pc, depth, prepared);
        case ElseIfRow(_, _, _) => next, deep, kept, halt := ElseIfRowAt(first, count, pc, depth, prepared);
        case ElseRow(_, _) => next, deep, kept, halt := ElseRowAt(pc, depth, prepared);
        case EndIfRow => next, deep, kept, halt := EndIfRowAt(pc, depth, prepared);
        case LeafRow(_) => next, kept, halt := LeafRowAt(first, count, pc, depth, prepared);
      }
    }

    // ----- a whole transition ----------------------------------------------

    /** One turn of the dispatch loop inside the transition. */
    method Turn(first: nat, count: nat, pc: nat, depth: nat, prepared: nat, ghost trace: seq<Machine>, ghost i: nat)
      returns (next: nat, deep: nat, kept: nat, halt: Halt)
      requires depth <= frames.Length && prepared <= tickets.Length && Cfg(first, count).Valid()
      requires pc < first + count && Buffers(Views())
      requires Linked(Cfg(first, count), trace) && i + 1 < |trace| && State(pc, depth, prepared, Running) == trace[i]
      modifies `staging, `checkpoint, `pending, `checkpointLive, `log, `loop, `token, tickets, frames
      ensures deep <= frames.Length && kept <= tickets.Length && Buffers(Views())
      ensures State(next, deep, kept, halt) == trace[i + 1]
    {
      StepBuffers(Cfg(first, count), State(pc, depth, prepared, Running));
      assert trace[i + 1] == Step(Cfg(first, count), trace[i]);
      next, deep, kept, halt := RowAt(first, count, pc, depth, prepared);
    }

    /** Control has run off the end of the transition. */
    method Leave(first: nat, count: nat, pc: nat, depth: nat, prepared: nat, ghost trace: seq<Machine>, ghost i: nat)
      returns (kept: nat, halt: Halt)
      requires depth <= frames.Length && prepared <= tickets.Length && Cfg(first, count).Valid()
      requires first + count <= pc
      requires Linked(Cfg(first, count), trace) && i + 1 < |trace| && State(pc, depth, prepared, Running) == trace[i]
      modifies `log, tickets
      ensures kept <= tickets.Length && !halt.Running? && State(pc, depth, kept, halt) == trace[i + 1]
    {
      assert trace[i + 1] == Step(Cfg(first, count), trace[i]);
      if depth != 0 {
        Refuse(prepared);
        return 0, Faulted(InvalidContract);
      }
      return prepared, Finished(false);
    }

    /** The dispatch loop: follows the machine's states until it has halted. */
    method RunRows(first: nat, count: nat, ghost trace: seq<Machine>)
      returns (pc: nat, depth: nat, prepared: nat, halt: Halt)
      requires Cfg(first, count).Valid() && Buffers(Views()) && trace != []
      requires Linked(Cfg(first, count), trace) && !trace[|trace| - 1].halt.Running?
      requires State(first, 0, 0, Running) == trace[0]
      modifies `staging, `checkpoint, `pending, `checkpointLive, `log, `loop, `token, tickets, frames
      ensures depth <= frames.Length && prepared <= tickets.Length && Buffers(Views())
      ensures State(pc, depth, prepared, halt) == trace[|trace| - 1]
    {
      pc, depth, prepared, halt := first, 0, 0, Running;
      ghost var i: nat := 0;
      while halt.Running? && pc < first + count
        invariant depth <= frames.Length && prepared <= tickets.Length && i < |trace|
        invariant State(pc, depth, prepared, halt) == trace[i]
        invariant Buffers(Views())
        decreases |trace| - i
      {
        pc, depth, prepared, halt := Turn(first, count, pc, depth, prepared, trace, i);
        i := i + 1;
      }
      if halt.Running? {
        prepared, halt := Leave(first, count, pc, depth, prepared, trace, i);
        i := i + 1;
      }
      Halted(Cfg(first, count), trace, i);
    }

    method ExecuteTransition(first: nat, count: nat, ghost kids: Nodes)
      returns (status: Status, prepared: nat, exit: bool)
      requires Fresh() && Compiled(Cfg(first, count), kids)
      modifies `staging, `checkpoint, `pending, `checkpointLive, `log, `loop, `token, tickets, frames
      ensures prepared <= tickets.Length && Buffers(Views())
      ensures Concludes(ExecRun(w, mostIterations, kids, old(Progress(0))), status, prepared, exit)
    {
      ghost var m := State(first, 0, 0, Running);
      assert m.Progress() == Progress(0);
      ghost var goal, k := CompiledRunsLikeTree(Cfg(first, count), kids, m);
      var pc, depth, halt;
      ghost var trace := TraceOf(Cfg(first, count), m, k);
      pc, depth, prepared, halt := RunRows(first, count, trace);
      assert goal.Progress() == Progress(prepared);
      exit := halt == Finished(true);
      status := if halt.Faulted? then halt.error else Ok;
    }

    ghost predicate Concludes(res: Result, status: Status, prepared: nat, exit: bool)
      requires prepared <= tickets.Length
      reads this, tickets
    {
      if res.Failed? then status == res.error && !exit && log == res.run.log && token == res.run.token
      else status.Ok? && exit == res.Exited? && Progress(prepared) == res.run && LiveTogether()
    }

    /** A live foreach frame goes with a live checkpoint of a pending transaction. */
    ghost predicate LiveTogether()
      reads this
    {
      loop.Live? == checkpointLive && (checkpointLive ==> pending)
    }

    // ----- the journal as a unit -------------------------------------------

    method CommitPreparedTickets()
      requires preparedCount <= tickets.Length
      modifies `preparedCount, `log, `committed, `staging, `pending, tickets
      ensures preparedCount == 0 && log == old(log) + CommitAll(old(tickets[..preparedCount]))
      ensures Views() == old(Views()).Commit()
    {
      var count := preparedCount;
      preparedCount := 0;
      ghost var all := tickets[..count];
      var i := 0;
      assert all[..0] == [];
      while i < count
        invariant 0 <= i <= count <= tickets.Length
        invariant log == old(log) + CommitAll(all[..i])
        invariant forall j :: i <= j < count ==> tickets[j] == all[j]
        invariant Views() == old(Views()) && preparedCount == 0
      {
        assert all[..i + 1][..i] == all[..i];
        log := log + [Committed(tickets[i])];
        tickets[i] := BLANK;
        i := i + 1;
      }
      assert all[..count] == all;
      CommitForeachScope();
    }

    method DiscardPreparedTickets()
      requires preparedCount <= tickets.Length
      modifies `preparedCount, `log, `staging, `checkpoint, `pending, `checkpointLive, tickets
      ensures preparedCount == 0 && log == old(log) + DiscardAll(old(tickets[..preparedCount]))
      ensures Views() == old(Views()).Discard()
    {
      var count := preparedCount;
      preparedCount := 0;
      DiscardTickets(count);
      DiscardForeachScope();
    }

    ghost function Store_(): Store
      reads this
    {
      Store(committed.content, log, token)
    }

    /** One dispatch of a selected transition, from execution to the settled journal. The
        statechart accepts or refuses the staged aggregate and settles an accepted one once. */
    method Dispatch(first: nat, count: nat, verdict: Verdict, ghost kids: Nodes)
      returns (status: Status, exit: bool)
      requires Fresh() && Compiled(Cfg(first, count), kids)
      modifies this, tickets, frames
      ensures Fresh() && w == old(w)
      ensures (Store_(), status, exit) == DispatchTree(w, mostIterations, kids, old(Store_()), verdict)
      ensures var res := ExecRun(w, mostIterations, kids, old(Progress(0)));
              committed.content == if !res.Failed? && verdict.Keep? then res.run.scope else old(committed.content)
    {
      var prepared;
      ghost var res := ExecRun(w, mostIterations, kids, Progress(0));
      RunStages(w, mostIterations, kids, Progress(0));
      assert Progress(0) == Run(committed.content, false, log, [], token);
      status, prepared, exit := ExecuteTransition(first, count, kids);
      if !status.Ok? {
        CloseLoop(false);
        DiscardForeachScope();
        return status, exit;
      }
      if loop.Live? { CloseLoop(true); }
      status := SettleJournal(prepared, verdict, res.run);
    }

    method SettleJournal(prepared: nat, verdict: Verdict, ghost r: Run) returns (status: Status)
      requires prepared <= tickets.Length && Progress(prepared) == r && preparedCount == 0
      requires loop.Idle? && !checkpointLive && Buffers(Views())
      modifies `preparedCount, `log, `committed, `staging, `checkpoint, `pending, `checkpointLive, tickets
      ensures Fresh()
      ensures (Store_(), status) == SettleTree(r, old(committed.content), verdict)
    {
      status := Ok;
      if prepared != 0 || pending {
        preparedCount := prepared;
        match verdict {
          case Refused => DiscardPreparedTickets(); status := LimitExceeded;
          case Keep => CommitPreparedTickets();
          case Drop => DiscardPreparedTickets();
        }
      }
    }
  }

  // ----- dispatch on the tree ----------------------------------------------

  /** What a session keeps between dispatches. */
  datatype Store = Store(committed: Scope, log: seq<Entry>, token: nat)

  /** The statechart's answer to a staged aggregate: not staged, committed, or discarded. */
  datatype Verdict = Refused | Keep | Drop

  function CommitAll(journal: seq<Ticket>): seq<Entry> {
    if journal == [] then []
    else CommitAll(journal[..|journal| - 1]) + [Committed(journal[|journal| - 1])]
  }

  /** Settling a finished run: everything, or nothing. */
  function SettleTree(r: Run, committed: Scope, verdict: Verdict): (Store, Status) {
    if r.journal == [] && !r.staged then (Store(committed, r.log, r.token), Ok)
    else
      match verdict
      case Refused => (Store(committed, r.log + DiscardAll(r.journal), r.token), LimitExceeded)
      case Keep => (Store(if r.staged then r.scope else committed, r.log + CommitAll(r.journal), r.token), Ok)
      case Drop => (Store(committed, r.log + DiscardAll(r.journal), r.token), Ok)
  }

  /** A dispatch read off the tree. */
  function DispatchTree(w: World, most: nat, kids: Nodes, s: Store, verdict: Verdict): (Store, Status, bool) {
    var res := ExecRun(w, most, kids, Run(s.committed, false, s.log, [], s.token));
    if res.Failed? then (Store(s.committed, res.run.log, res.run.token), res.error, false)
    else
      var (store, status) := SettleTree(res.run, s.committed, verdict);
      (store, status, res.Exited?)
  }

  /** Consecutive states of a machine. */
  ghost predicate Linked(c: Config, trace: seq<Machine>)
    requires c.Valid()
  {
    forall i {:trigger Step(c, trace[i])} :: 0 <= i < |trace| - 1 ==> trace[i + 1] == Step(c, trace[i])
  }

  lemma {:induction false} TraceOf(c: Config, m: Machine, k: nat) returns (trace: seq<Machine>)
    requires c.Valid()
    ensures |trace| == k + 1 && trace[0] == m && trace[k] == Iterate(c, m, k) && Linked(c, trace)
    decreases k
  {
    if k == 0 {
      trace := [m];
    } else {
      var rest := TraceOf(c, Step(c, m), k - 1);
      trace := [m] + rest;
      forall i | 0 <= i < |trace| - 1 ensures trace[i + 1] == Step(c, trace[i]) {
        if i > 0 { assert trace[i + 1] == rest[i] && trace[i] == rest[i - 1]; }
      }
    }
  }

  lemma {:induction false} Halted(c: Config, trace: seq<Machine>, i: nat)
    requires c.Valid() && Linked(c, trace) && i < |trace| && !trace[i].halt.Running?
    ensures trace[|trace| - 1] == trace[i]
    decreases |trace| - i
  {
    if i + 1 < |trace| {
      assert trace[i + 1] == Step(c, trace[i]);
      Halted(c, trace, i + 1);
    }
  }

  /** Every step leaves each view on its own allocation. */
  lemma StepBuffers(c: Config, m: Machine)
    requires c.Valid() && Buffers(m.scopes)
    ensures Buffers(Step(c, m).scopes)
  {
    if m.halt.Running? && m.pc < c.Limit() {
      var row := c.rows[m.pc];
      match row
      case ForeachRow(_, _, _) => ForeachBuffers(c, m, row);
      case EndForeachRow(_) =>
      case LeafRow(a) =>
      case _ => BranchScopes(c, m, row);
    }
  }

  lemma ForeachBuffers(c: Config, m: Machine, row: Row)
    requires row.ForeachRow? && Buffers(m.scopes)
    ensures Buffers(StepForeach(c, m, row).scopes)
  {
    BeginBuffers(c.w, m);
  }

  lemma BeginBuffers(w: World, m: Machine)
    requires Buffers(m.scopes)
    ensures Buffers(BeginScopes(w, m).1.scopes)
  {
  }

  lemma BranchScopes(c: Config, m: Machine, row: Row)
    requires c.Valid() && !row.ForeachRow? && !row.EndForeachRow? && !row.LeafRow?
    ensures StepRow(c, m, row).scopes == m.scopes
  {
  }

  /** The three views point at the three allocations, one each. */
  ghost predicate Buffers(s: Scopes) {
    var (a, b, c) := (s.committed.buffer, s.staging.buffer, s.checkpoint.buffer);
    a < 3 && b < 3 && c < 3 && a != b && b != c && a != c
  }
}
