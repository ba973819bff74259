/**
 From a document to its dispatches: compiled once, then run by a session, each event by the
 transition it selects.
 */
module CcxmlDocument {
  import opened CcxmlTree
  import opened CcxmlCompile
  import opened CcxmlMachine
  import opened CcxmlMatcher
  import opened CcxmlSimulation
  import opened CcxmlProgram
  import opened CcxmlSession
  import opened CcxmlTransaction
  import opened CcxmlSelection

  function Headers(ts: seq<Transition>): (hs: seq<Header>)
    ensures |hs| == |ts|
  {
    seq(|ts|, i requires 0 <= i < |ts| => ts[i].header)
  }

  /** What one dispatch meets: the outside, the event, the statechart's answer to a staged aggregate and
      whether it reports an error afterwards; or an event the statechart does not take at all. */
  datatype Occasion =
    | Taken(w: World, event: Event, verdict: Verdict, errored: bool)
    | Unsent(error: Error)

  // ----- one dispatch ------------------------------------------------------

  /** What a dispatch to an open session leaves, answers, and whether it ends the session. A failure of
      the selection or the transition wins over the statechart's error report, and only OK ends. */
  ghost function Answer(most: nat, ts: seq<Transition>, o: Occasion, s: Store): (Store, Status, bool) {
    match o
    case Unsent(error) => (s, error, false)
    case Taken(w, event, verdict, errored) =>
      if event.name == [] then (s, InvalidArgument, false)
      else
        match ChoiceOf(Headers(ts), event, s.committed)
        case Broke(error) => (s, error, false)
        case Unmatched => (s, Told(Ok, errored), !errored && EndsUnhandled(event.name))
        case Chosen(i) =>
          var (after, result, exit) := DispatchTree(w, most, ts[i].kids, s, verdict);
          (after, Told(result, errored), Told(result, errored).Ok? && exit)
  }

  function Told(status: Status, errored: bool): Status { if status.Ok? && errored then InvalidContract else status }

  /** The transition it runs, if it gets to run one. */
  ghost function Ran(ts: seq<Transition>, o: Occasion, committed: Scope): seq<Job> {
    if o.Unsent? || o.event.name == [] then []
    else
      match ChoiceOf(Headers(ts), o.event, committed)
      case Chosen(i) => [Job(o.w, ts[i].kids, o.verdict)]
      case _ => []
  }

  /** Guard `i` answers this, and every guard before it stays closed. */
  ghost predicate Decides(ts: seq<Transition>, event: Event, committed: Scope, i: nat, guard: CcxmlMachine.Answer<bool>) {
    && i < |ts| && Guard(ts[i].header, event, i, committed) == guard
    && forall j :: 0 <= j < i ==> Guard(ts[j].header, event, j, committed) == Value(false)
  }

  /** What a dispatch answers, guard by guard. An event that is not taken or has no name changes nothing. If a
      guard fails before any opens, its error is the answer and nothing changes. If none opens, nothing changes,
      and an unhandled error or kill ends the session unless the statechart reports an error. If one opens, its
      transition runs: its failure is the answer, then the statechart's report, and OK ends it on an exit. */
  lemma AnswerMeans(most: nat, ts: seq<Transition>, o: Occasion, s: Store)
    ensures o.Unsent? ==> Answer(most, ts, o, s) == (s, o.error, false)
    ensures o.Taken? && o.event.name == [] ==> Answer(most, ts, o, s) == (s, InvalidArgument, false)
    ensures forall i: nat, error :: o.Taken? && o.event.name != [] && Decides(ts, o.event, s.committed, i, Fault(error)) ==>
      Answer(most, ts, o, s) == (s, error, false)
    ensures o.Taken? && o.event.name != [] && (forall i :: 0 <= i < |ts| ==> Guard(ts[i].header, o.event, i, s.committed) == Value(false)) ==>
      Answer(most, ts, o, s) == if o.errored then (s, InvalidContract, false) else (s, Ok, EndsUnhandled(o.event.name))
    ensures forall i: nat :: o.Taken? && o.event.name != [] && Decides(ts, o.event, s.committed, i, Value(true)) ==>
      var ran, r := DispatchTree(o.w, most, ts[i].kids, s, o.verdict), Answer(most, ts, o, s);
      && r.0 == ran.0
      && r.1 == (if ran.1 != Ok then ran.1 else if o.errored then InvalidContract else Ok)
      && (r.2 <==> r.1 == Ok && ran.2)
  {
    if o.Taken? {
      var hs := Headers(ts);
      forall i: nat, guard | Decides(ts, o.event, s.committed, i, guard)
        ensures ClosedBefore(hs, o.event, s.committed, i) && Guard(hs[i], o.event, i, s.committed) == guard {}
      forall i: nat, error | Decides(ts, o.event, s.committed, i, Fault(error)) ensures ChoiceOf(hs, o.event, s.committed) == Broke(error) {
        assert Selects(hs, o.event, s.committed, Broke(error));
      }
      forall i: nat | Decides(ts, o.event, s.committed, i, Value(true)) ensures ChoiceOf(hs, o.event, s.committed) == Chosen(i) {
        assert Selects(hs, o.event, s.committed, Chosen(i));
      }
      if forall i :: 0 <= i < |ts| ==> Guard(ts[i].header, o.event, i, s.committed) == Value(false) {
        assert Selects(hs, o.event, s.committed, Unmatched);
      }
    }
  }

  // ----- a life ------------------------------------------------------------

  /** A session between dispatches: what it keeps, whether it has ended, what it has answered and which
      transitions it has run. */
  datatype Standing = Standing(store: Store, ended: bool, answers: seq<Status>, jobs: seq<Job>)

  /** One occasion after the other; a session that has ended answers CLOSED to all the rest. */
  ghost function LiveOn(most: nat, ts: seq<Transition>, occasions: seq<Occasion>, s: Store): Standing {
    if occasions == [] then Standing(s, false, [], [])
    else
      var n := |occasions| - 1;
      Next(most, ts, occasions[n], LiveOn(most, ts, occasions[..n], s))
  }

  ghost function Next(most: nat, ts: seq<Transition>, o: Occasion, before: Standing): Standing {
    if before.ended then before.(answers := before.answers + [Closed])
    else
      var (store, answer, ends) := Answer(most, ts, o, before.store);
      Standing(store, ends, before.answers + [answer], before.jobs + Ran(ts, o, before.store.committed))
  }

  lemma {:induction false} LifeSnoc(most: nat, jobs: seq<Job>, s: Store)
    requires jobs != []
    ensures var n := |jobs| - 1; var before := Life(most, jobs[..n], s);
      Life(most, jobs, s) == DispatchTree(jobs[n].w, most, jobs[n].kids, before, jobs[n].verdict).0
  {
    var n := |jobs| - 1;
    if n == 0 {
      assert jobs[..0] == [] && jobs[1..] == [];
    } else {
      var next := DispatchTree(jobs[0].w, most, jobs[0].kids, s, jobs[0].verdict).0;
      LifeSnoc(most, jobs[1..], next);
      assert jobs[1..][..n - 1] == jobs[..n][1..];
    }
  }

  /** So what is proved of every sequence of dispatches holds of it: what it keeps is what the
      transitions it ran leave behind, one after the other. */
  lemma {:induction false} LivedIsLife(most: nat, ts: seq<Transition>, occasions: seq<Occasion>, s: Store)
    ensures var after := LiveOn(most, ts, occasions, s);
            after.store == Life(most, after.jobs, s) && |after.jobs| <= |after.answers| == |occasions|
  {
    if occasions != [] {
      var n := |occasions| - 1;
      LivedIsLife(most, ts, occasions[..n], s);
      var before := LiveOn(most, ts, occasions[..n], s);
      var ran := Ran(ts, occasions[n], before.store.committed);
      if !before.ended && ran != [] {
        assert (before.jobs + ran)[..|before.jobs|] == before.jobs;
        LifeSnoc(most, before.jobs + ran, s);
      } else if !before.ended {
        assert before.jobs + ran == before.jobs;
      }
    }
  }

  /** A session ends once: from there on it answers CLOSED, runs nothing and keeps what it kept. */
  lemma {:induction false} EndIsFinal(
    most: nat, ts: seq<Transition>, occasions: seq<Occasion>, later: seq<Occasion>, s: Store)
    requires LiveOn(most, ts, occasions, s).ended
    ensures LiveOn(most, ts, occasions + later, s)
         == LiveOn(most, ts, occasions, s).(
              answers := LiveOn(most, ts, occasions, s).answers + seq(|later|, _ => Closed))
  {
    if later == [] {
      assert occasions + later == occasions;
    } else {
      var n := |later| - 1;
      EndIsFinal(most, ts, occasions, later[..n], s);
      assert (occasions + later)[..|occasions + later| - 1] == occasions + later[..n];
      assert seq(|later|, _ => Closed) == seq(n, _ => Closed) + [Closed];
    }
  }

  /** What ends a session: status OK with an exit of the transition that ran, or with an error or kill
      event that selected none. */
  ghost predicate Ends(most: nat, ts: seq<Transition>, o: Occasion, s: Store) {
    && o.Taken? && o.event.name != [] && !o.errored
    && match ChoiceOf(Headers(ts), o.event, s.committed)
       case Broke(_) => false
       case Unmatched => EndsUnhandled(o.event.name)
       case Chosen(i) =>
         var (_, status, exit) := DispatchTree(o.w, most, ts[i].kids, s, o.verdict);
         status.Ok? && exit
  }

  /** The `n`th occasion ends it. */
  ghost predicate EndsAt(most: nat, ts: seq<Transition>, occasions: seq<Occasion>, s: Store, n: nat) {
    && n < |occasions| && !LiveOn(most, ts, occasions[..n], s).ended
    && Ends(most, ts, occasions[n], LiveOn(most, ts, occasions[..n], s).store)
  }

  lemma EndsAtLast(most: nat, ts: seq<Transition>, occasions: seq<Occasion>, s: Store)
    requires occasions != [] && !LiveOn(most, ts, occasions[..|occasions| - 1], s).ended
    ensures LiveOn(most, ts, occasions, s).ended <==> EndsAt(most, ts, occasions, s, |occasions| - 1)
  {
  }

  lemma EndsAtFront(most: nat, ts: seq<Transition>, occasions: seq<Occasion>, s: Store, m: nat, n: nat)
    requires m < n <= |occasions|
    ensures EndsAt(most, ts, occasions[..n], s, m) <==> EndsAt(most, ts, occasions, s, m)
  {
    assert occasions[..n][..m] == occasions[..m];
  }

  /** A session has ended exactly if some occasion ended it. */
  lemma {:induction false} EndedBy(most: nat, ts: seq<Transition>, occasions: seq<Occasion>, s: Store)
    ensures LiveOn(most, ts, occasions, s).ended <==> exists n :: 0 <= n < |occasions| && EndsAt(most, ts, occasions, s, n)
  {
    if occasions != [] {
      var n := |occasions| - 1;
      EndedBy(most, ts, occasions[..n], s);
      forall m | 0 <= m < n ensures EndsAt(most, ts, occasions[..n], s, m) <==> EndsAt(most, ts, occasions, s, m) {
        EndsAtFront(most, ts, occasions, s, m, n);
      }
      if !LiveOn(most, ts, occasions[..n], s).ended { EndsAtLast(most, ts, occasions, s); }
    }
  }

  /** The session was made for this program. */
  ghost predicate MadeFor(s: Session, p: Program, limits: Limits) {
    && s.rows == p.rows && s.mostIterations == limits.maxIterations
    && s.tickets.Length == p.maxTransitionEffects && s.frames.Length == p.maxTransitionActions
  }

  /** One event: the selected transition, run from its compiled rows, does what its tree says. */
  method Occur(s: Session, p: Program, limits: Limits, w: World, first: nat, kids: Nodes, verdict: Verdict)
    returns (status: Status, exit: bool)
    requires s.Fresh() && MadeFor(s, p, limits) && Placed(p, kids, first, limits)
    modifies s, s.tickets, s.frames
    ensures s.Fresh() && (s.Store_(), status, exit) == DispatchTree(w, limits.maxIterations, kids, old(s.Store_()), verdict)
  {
    s.w := w;
    PlacedIsCompiled(p, kids, first, limits, w);
    assert s.Cfg(first, SizeAll(kids))
        == Config(w, p.rows, first, SizeAll(kids), p.maxTransitionActions, p.maxTransitionEffects, limits.maxIterations);
    status, exit := s.Dispatch(first, SizeAll(kids), verdict, kids);
  }

  /** ccxml_session_dispatch on a session that is open. */
  method Meet(s: Session, p: Program, limits: Limits, ts: seq<Transition>, o: Occasion)
    returns (status: Status, ends: bool)
    requires s.Fresh() && MadeFor(s, p, limits) && |p.firsts| == |ts|
    requires forall i :: 0 <= i < |ts| ==> Placed(p, ts[i].kids, p.firsts[i], limits)
    modifies s, s.tickets, s.frames
    ensures s.Fresh() && MadeFor(s, p, limits)
    ensures (s.Store_(), status, ends) == Answer(limits.maxIterations, ts, o, old(s.Store_()))
  {
    if o.Unsent? { return o.error, false; }
    if o.event.name == [] { return InvalidArgument, false; }
    var hs := Headers(ts);
    var c := Select(hs, o.event, s.committed.content);
    status, ends := Ok, false;
    match c {
      case Broke(error) => status := error;
      case Unmatched =>
      case Chosen(i) => status, ends := Occur(s, p, limits, o.w, p.firsts[i], ts[i].kids, o.verdict);
    }
    if status.Ok? && o.errored { status := InvalidContract; }
    if status.Ok? && c.Unmatched? { ends := UnhandledIsFatal(o.event.name); }
    ends := ends && status.Ok?;
  }

  /** Any document, any events, any outside: compilation succeeds exactly on admissible documents, and a
      session running the compiled rows is then, dispatch by dispatch, where the trees say. */
  method RunDocument(
    ts: seq<Transition>, stateVariable: bool, limits: Limits, idle: World, occasions: seq<Occasion>)
    returns (status: Status, session: Session?, terminated: bool, answers: seq<Status>)
    requires limits.Valid()
    ensures status.Ok? <==> Admissible(ts, stateVariable, limits)
    ensures status.Ok? ==> session != null && session.Fresh()
    ensures session != null ==>
      var lived := LiveOn(limits.maxIterations, ts, occasions, Store(map[], [], 1));
      session.Store_() == lived.store && terminated == lived.ended && answers == lived.answers
  {
    session, terminated, answers := null, false, [];
    var p;
    status, p := Compile(ts, stateVariable, limits);
    if !status.Ok? { return; }
    var s := new Session(idle, p.rows, limits.maxIterations, p.maxTransitionEffects, p.maxTransitionActions, 1);
    ghost var most, start := limits.maxIterations, Store(map[], [], 1);
    assert occasions[..0] == [];
    for n := 0 to |occasions|
      invariant s.Fresh() && MadeFor(s, p, limits) && fresh(s) && fresh(s.tickets) && fresh(s.frames)
      invariant s.Store_() == LiveOn(most, ts, occasions[..n], start).store
      invariant terminated == LiveOn(most, ts, occasions[..n], start).ended
      invariant answers == LiveOn(most, ts, occasions[..n], start).answers
    {
      assert occasions[..n + 1][..n] == occasions[..n];
      var answer := Closed;
      if !terminated { answer, terminated := Meet(s, p, limits, ts, occasions[n]); }
      answers := answers + [answer];
    }
    assert occasions[..|occasions|] == occasions;
    session := s;
  }
}
