/**
 Sleeping on the processor's one condition variable. A thread that finds its condition false may
 go to sleep; from then on only a broadcast is sure to wake it.
 */
module StopWaiting {
  import opened Basics
  import opened StopHandshake

  /** The start call, the active stop call, and the worker. */
  datatype Sleeper = OfStart | OfStop | OfWorker

  datatype Hall = Hall(s: Sys, asleep: set<Sleeper>)

  /** What lets a thread sleep: the condition it waits for does not hold. */
  predicate Waits(s: Sys, who: Sleeper) {
    match who
    case OfStart => s.starting && !s.workerReady
    case OfStop => s.caller.Awaiting? && !s.attemptComplete && !s.workerExited
    case OfWorker => (s.worker.Parked? && s.generation == s.worker.gen) || (s.worker.Looping? && !s.requested)
  }

  /** `Rouse` is any wake-up that is not a broadcast: a signal, a time limit, or none at all. */
  datatype Move = Act(step: Step) | Sleep(who: Sleeper) | Rouse(who: Sleeper)

  /** The thread that would take the step is asleep. */
  predicate Dormant(h: Hall, step: Step) {
    || (OfStart in h.asleep && step.DoStartEnd?)
    || (OfStop in h.asleep && (step.DoAwait? || step.DoTimeout?))
    || (OfWorker in h.asleep && (step.DoPoll? || step.DoWake?))
  }

  /** The regions that end with a broadcast. */
  predicate Broadcasts(s: Sys, step: Step) {
    || step.DoWorkerInit?
    || (step.DoRequest? && !s.workerExited)
    || (step.DoReport? && s.worker.Reporting? && (s.worker.status == OK || s.generation == s.worker.gen))
  }

  predicate Possible(h: Hall, m: Move) {
    match m
    case Act(step) => Enabled(h.s, step) && !Dormant(h, step)
    case Sleep(who) => Waits(h.s, who)
    case Rouse(who) => who in h.asleep
  }

  function Next(h: Hall, m: Move): Hall
    requires Possible(h, m)
  {
    match m
    case Act(step) => Hall(Apply(h.s, step), if Broadcasts(h.s, step) then {} else h.asleep)
    case Sleep(who) => h.(asleep := h.asleep + {who})
    case Rouse(who) => h.(asleep := h.asleep - {who})
  }

  // ----- no sleeper is forgotten -------------------------------------------

  ghost predicate Rested(h: Hall) { forall who :: who in h.asleep ==> Waits(h.s, who) }

  /** A step that wakes nobody makes nobody's condition true but that of a thread that is awake. */
  lemma QuietStep(h: Hall, step: Step, who: Sleeper)
    requires Inv(h.s) && Possible(h, Act(step)) && !Broadcasts(h.s, step) && who in h.asleep && Waits(h.s, who)
    ensures Waits(Apply(h.s, step), who)
  {
    match step
    case DoStopServer(r) => ServerStep(h.s, r);
    case DoReport => LateReport(h.s);
    case _ =>
  }

  /** Stopping the server concerns nobody who sleeps. */
  predicate Aside(s: Sys, s': Sys) {
    && s'.starting == s.starting && s'.workerReady == s.workerReady && s'.worker == s.worker
    && s'.generation == s.generation && s'.requested == s.requested
  }

  lemma AfterServerAside(s: Sys, first: Status)
    ensures Aside(s, AfterServer(s, first))
  {
  }

  lemma ServerGivesUp(s: Sys, r: ServerResult)
    requires s.serverStarted && !s.serverStopped && (r.ServerTimeout? || r.StillRunning?)
    ensures Aside(s, StopServerStep(s, r))
  {
  }

  lemma ServerStops(s: Sys, r: ServerResult)
    requires s.serverStarted && !s.serverStopped && (r.ServerOk? || r.TerminalError?)
    ensures Aside(s, StopServerStep(s, r))
  {
    var kept := if s.terminal == OK && r.TerminalError? then r.status else s.terminal;
    AfterServerAside(s.(serverStopped := true), OK);
    AfterServerAside(s.(serverStopped := true, terminal := kept), kept);
  }

  lemma ServerStep(s: Sys, r: ServerResult)
    ensures Aside(s, StopServerStep(s, r))
  {
    if !s.serverStarted || s.serverStopped {
      AfterServerAside(s, OK);
    } else if r.ServerOk? || r.TerminalError? {
      ServerStops(s, r);
    } else {
      ServerGivesUp(s, r);
    }
  }

  /** A failure reported for a request that has been replaced is not published. */
  lemma LateReport(s: Sys)
    requires s.worker.Reporting? && s.worker.status != OK && s.generation != s.worker.gen
    ensures var s' := Report(s);
      && s'.starting == s.starting && s'.workerReady == s.workerReady && s'.caller == s.caller
      && s'.attemptComplete == s.attemptComplete && s'.workerExited == s.workerExited
  {
  }

  lemma MoveRested(h: Hall, m: Move)
    requires Inv(h.s) && Rested(h) && Possible(h, m)
    ensures Inv(Next(h, m).s) && Rested(Next(h, m))
  {
    if m.Act? {
      StepInv(h.s, m.step);
      if !Broadcasts(h.s, m.step) {
        forall who | who in h.asleep ensures Waits(Apply(h.s, m.step), who) { QuietStep(h, m.step, who); }
      }
    }
  }

  datatype Moves = Start | More(before: Moves, move: Move)

  predicate Plays(t: Moves)
    decreases t, 0
  {
    t.More? ==> Plays(t.before) && Possible(Played(t.before), t.move)
  }

  function Played(t: Moves): Hall
    requires Plays(t)
    decreases t, 1
  {
    match t
    case Start => Hall(NEW, {})
    case More(before, move) => Next(Played(before), move)
  }

  lemma {:induction false} PlayRested(t: Moves)
    requires Plays(t)
    ensures Inv(Played(t).s) && Rested(Played(t))
  {
    if t.More? {
      PlayRested(t.before);
      MoveRested(Played(t.before), t.move);
    }
  }

  /** No wake-up is lost: whatever happens, a thread that is asleep waits for something that is not yet
      true. Signals, time limits and spurious wake-ups are not needed for that. */
  lemma NoLostWakeUp(t: Moves, who: Sleeper)
    requires Plays(t) && who in Played(t).asleep
    ensures Waits(Played(t).s, who)
  {
    PlayRested(t);
  }

  // ----- the waiting caller is answered ------------------------------------

  /** A step of the worker. */
  predicate ByWorker(step: Step) { step.DoPoll? || step.DoAttempt? || step.DoReport? || step.DoWake? }

  /** The worker's next step, when it has one. */
  function NextOf(s: Sys): Step {
    match s.worker
    case Attempting(_, _, _, _) => DoAttempt(OK, OK)
    case Reporting(_, _, _, _, _) => DoReport
    case Parked(_) => DoWake
    case _ => DoPoll
  }

  lemma WorkerMoves(s: Sys)
    requires Inv(s) && Waits(s, OfStop) && s.requests <= U64_MAX
    ensures Enabled(s, NextOf(s)) && (NextOf(s).DoPoll? || NextOf(s).DoWake? ==> !Waits(s, OfWorker))
  {
  }

  /** While the stop caller has no answer, the worker is awake and has a step to take; once it has one,
      the caller is awake. No time limit is needed. */
  lemma SomeoneMoves(t: Moves)
    requires Plays(t) && Played(t).s.caller.Awaiting? && Played(t).s.requests <= U64_MAX
    ensures var h := Played(t);
      if Waits(h.s, OfStop) then ByWorker(NextOf(h.s)) && Possible(h, Act(NextOf(h.s))) else Possible(h, Act(DoAwait))
  {
    PlayRested(t);
    var h := Played(t);
    if Waits(h.s, OfStop) { WorkerMoves(h.s); }
    assert OfWorker in h.asleep ==> Waits(h.s, OfWorker);
    assert OfStop in h.asleep ==> Waits(h.s, OfStop);
  }

  lemma StarterSteps(s: Sys, ok: bool)
    requires Inv(s) && s.starting
    ensures Enabled(s, if Waits(s, OfStart) then DoWorkerInit(ok) else DoStartEnd(false, ok))
  {
  }

  /** So it is for the start call: the new worker reports its client, or the caller is awake. */
  lemma StarterMoves(t: Moves, ok: bool)
    requires Plays(t) && Played(t).s.starting
    ensures var h := Played(t);
      Possible(h, Act(if Waits(h.s, OfStart) then DoWorkerInit(ok) else DoStartEnd(false, ok)))
  {
    PlayRested(t);
    var h := Played(t);
    StarterSteps(h.s, ok);
    assert OfStart in h.asleep ==> Waits(h.s, OfStart);
  }

  /** How many steps the worker needs at most to answer the latest request. */
  function Rank(s: Sys): nat {
    match s.worker
    case Reporting(gen, _, _, _, _) => if gen == s.generation then 1 else 4
    case Attempting(gen, _, _, _) => if gen == s.generation then 2 else 5
    case Looping => 3
    case Parked(_) => 4
    case _ => 0
  }

  /** While the caller has no answer, each step of the worker brings the answer closer, or is it; no other
      step puts it off. So the caller is answered after at most five steps of the worker. */
  lemma AnswerComes(s: Sys, step: Step)
    requires Reached(s) && s.requests <= U64_MAX && Waits(s, OfStop) && Enabled(s, step)
    ensures var s' := Apply(s, step); Waits(s', OfStop) ==> Rank(s') <= Rank(s) <= 5 && (ByWorker(step) ==> Rank(s') < Rank(s))
  {
    ReachedInv(s);
    match step
    case DoPoll => PollRank(s);
    case DoAttempt(stop, destroy) => AttemptRest(s, stop, destroy);
    case DoReport => ReportRank(s);
    case _ =>
  }

  lemma PollRank(s: Sys)
    requires s.worker.Looping? && s.requested
    ensures Poll(s).generation == s.generation && Poll(s).worker.Attempting? && Poll(s).worker.gen == s.generation
  {
  }

  lemma ReportRank(s: Sys)
    requires s.worker.Reporting? && !s.workerExited && !s.attemptComplete
    ensures Waits(Report(s), OfStop) ==> s.generation != s.worker.gen && Report(s).worker.Looping?
    ensures Report(s).generation == s.generation
  {
  }
}
