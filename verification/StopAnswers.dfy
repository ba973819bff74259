/**
 What stop answers, told by the steps of the run alone: which foreign call answered what, and when.
 */
module StopAnswers {
  import opened StopHandshake

  // ----- what the steps of a run say ---------------------------------------

  /** A step of the stop caller. */
  predicate OfCaller(step: Step) {
    step.DoStopBegin? || step.DoStopServer? || step.DoRequest? || step.DoAwait? || step.DoTimeout? || step.DoJoin? || step.DoFinish?
  }

  /** The run up to the caller's last step. */
  function UpToCall(t: Trace): Trace { if t.Nil? || OfCaller(t.step) then t else UpToCall(t.before) }

  /** A client was made. */
  predicate ClientMade(t: Trace) { t.Then? && (t.step == DoWorkerInit(true) || ClientMade(t.before)) }

  /** The server has answered that it stopped, to a start that failed or to a stop, well or in terminal error. */
  predicate ServerEnded(t: Trace) { t.Then? && (ServerEnded(t.before) || EndsServer(t.step, ClientMade(t.before))) }

  predicate EndsServer(step: Step, made: bool) {
    || step == DoStartBegin(WorkerFails(true))
    || (step.DoStartEnd? && step.serverOk && !made)
    || (step.DoStopServer? && (step.server.ServerOk? || step.server.TerminalError?))
  }

  /** The first terminal error of the server; one that has ended is not asked again. */
  function Terminal(t: Trace): Status {
    if t.Nil? then OK
    else if t.step.DoStopServer? && t.step.server.TerminalError? && !ServerEnded(t.before) then t.step.server.status
    else Terminal(t.before)
  }

  /** The client has answered that it stopped. */
  predicate ClientStopped(t: Trace) { t.Then? && ((t.step.DoAttempt? && t.step.stop == OK) || ClientStopped(t.before)) }

  /** How the worker's last attempt ended: with the failure to stop, or with what destroying answered; a client
      that has stopped is not asked to again. */
  function Attempted(t: Trace): Status {
    if t.Nil? then OK
    else if t.step.DoAttempt? then if t.step.stop != OK && !ClientStopped(t.before) then t.step.stop else t.step.destroy
    else Attempted(t.before)
  }

  /** What stop has to return: the answer of the stage that failed, and if none did, the server's terminal error. */
  function Due(t: Trace): Status {
    var u := UpToCall(t);
    if u.Nil? then OK
    else
      match u.step
      case DoTimeout => TIMED_OUT
      case DoAwait => Attempted(u.before)
      case DoJoin(status) => if status != OK then status else Terminal(u)
      case DoStopServer(r) =>
        if ServerEnded(u.before) then Terminal(u)
        else if r.ServerTimeout? then TIMED_OUT
        else if r.StillRunning? then r.status
        else Terminal(u)
      case _ => OK
  }

  // ----- the state says the same -------------------------------------------

  /** A terminal error stays, and a call that goes on has met no other. */
  predicate Kept(s: Sys) {
    && (s.terminal != OK ==> s.serverStopped)
    && (s.caller.AtWorker? || s.caller.Awaiting? || s.caller.Joining? ==> s.caller.first == OK || s.caller.first == s.terminal)
  }

  /** Stopping the server touches the server and the caller. */
  predicate Beside(s: Sys, s': Sys) { s' == s.(serverStopped := s'.serverStopped, terminal := s'.terminal, caller := s'.caller) }

  lemma AfterServerShape(s: Sys, first: Status)
    ensures var s' := AfterServer(s, first);
      && Beside(s, s') && s'.serverStopped == s.serverStopped && s'.terminal == s.terminal
      && s'.caller == if s.workerStarted then AtWorker(first) else Finishing(first)
  {
  }

  lemma ServerGoesOn(s: Sys, r: ServerResult)
    requires s.serverStarted && !s.serverStopped && (r.ServerTimeout? || r.StillRunning?)
    ensures var s' := StopServerStep(s, r);
      && Beside(s, s') && s'.serverStopped == s.serverStopped && s'.terminal == s.terminal
      && s'.caller == Finishing(if r.ServerTimeout? then TIMED_OUT else r.status)
  {
  }

  lemma ServerHasEnded(s: Sys, r: ServerResult)
    requires s.serverStarted && !s.serverStopped && s.terminal == OK && (r.ServerOk? || r.TerminalError?)
    ensures var s' := StopServerStep(s, r); var error := if r.TerminalError? then r.status else OK;
      && Beside(s, s') && s'.serverStopped && s'.terminal == error
      && s'.caller == if s.workerStarted then AtWorker(error) else Finishing(error)
  {
    AfterServerShape(s.(serverStopped := true), OK);
    if r.TerminalError? { AfterServerShape(s.(serverStopped := true, terminal := r.status), r.status); }
  }

  /** What the server's answer does: it ends, and then the caller goes on to the worker if there is one; or the
      caller gives up. */
  predicate ServerAnswers(s: Sys, r: ServerResult, s': Sys) {
    && Beside(s, s') && Kept(s')
    && (s'.serverStopped <==> s.serverStopped || r.ServerOk? || r.TerminalError?)
    && s'.terminal == (if r.TerminalError? && !s.serverStopped then r.status else s.terminal)
    && if !s'.serverStopped then s'.caller == Finishing(if r.ServerTimeout? then TIMED_OUT else r.status)
       else
         var first := if s.serverStopped then OK else s'.terminal;
         s'.caller == if s.workerStarted then AtWorker(first) else Finishing(first)
  }

  lemma StopServerShape(s: Sys, r: ServerResult)
    requires s.serverStarted && Kept(s) && s.caller.AtServer?
    ensures ServerAnswers(s, r, StopServerStep(s, r))
  {
    if s.serverStopped {
      AfterServerShape(s, OK);
    } else if r.ServerOk? || r.TerminalError? {
      ServerHasEnded(s, r);
    } else {
      ServerGoesOn(s, r);
    }
  }

  /** What a step does to the server's side of the story. */
  predicate Follows(s: Sys, step: Step, s': Sys) {
    && (s'.serverStopped <==> s.serverStopped || EndsServer(step, s.client))
    && (s'.client <==> step == DoWorkerInit(true) || s.client)
    && s'.terminal == (if step.DoStopServer? && step.server.TerminalError? && !s.serverStopped then step.server.status else s.terminal)
    && Kept(s')
  }

  lemma {:induction false} ServerStep(s: Sys, step: Step)
    requires ThreadOk(s) && CallerOk(s) && Enabled(s, step) && Kept(s)
    ensures Follows(s, step, Apply(s, step))
  {
    if OfCaller(step) {
      StopStep(s, step);
    } else {
      match step
      case DoStartBegin(_) => StartBeginShape(s, step);
      case DoStartEnd(_, _) => StartEndShape(s, step);
      case DoAttempt(stop, destroy) => AttemptRest(s, stop, destroy);
      case DoReport => ReportShape(s);
      case _ =>
    }
  }

  lemma StopStep(s: Sys, step: Step)
    requires CallerOk(s) && Enabled(s, step) && Kept(s) && OfCaller(step)
    ensures Follows(s, step, Apply(s, step))
  {
    match step
    case DoStopServer(r) =>
      StopServerShape(s, r);
      AnswersFollow(s, r, StopServerStep(s, r));
    case DoRequest => RequestShape(s);
    case DoJoin(status) => JoinShape(s, status);
    case DoAwait => AwaitShape(s);
    case _ =>
  }

  lemma AnswersFollow(s: Sys, r: ServerResult, s': Sys)
    requires ServerAnswers(s, r, s')
    ensures Follows(s, DoStopServer(r), s')
  {
  }

  lemma JoinShape(s: Sys, status: Status)
    requires s.caller.Joining?
    ensures var s' := Join(s, status);
      s'.client == s.client && s'.terminal == s.terminal && s'.serverStopped == s.serverStopped && s'.caller.Finishing?
  {
    if status == OK {
      assert Join(s, status) == s.(workerStarted := false, caller := Finishing(s.caller.first));
    } else {
      assert Join(s, status) == s.(caller := Finishing(status));
    }
  }

  lemma AwaitShape(s: Sys)
    requires s.caller.Awaiting?
    ensures var s' := Await(s);
      && s'.client == s.client && s'.terminal == s.terminal && s'.serverStopped == s.serverStopped
      && (s'.caller.Finishing? || s'.caller == Joining(s.caller.first))
  {
    if s.workerExited || s.workerStatus == OK {
      assert Await(s) == s.(caller := Joining(s.caller.first));
    } else {
      assert Await(s) == s.(caller := Finishing(s.workerStatus));
    }
  }

  lemma ReportShape(s: Sys)
    requires s.worker.Reporting?
    ensures var s' := Report(s);
      && s'.client == s.client && s'.terminal == s.terminal && s'.serverStopped == s.serverStopped && s'.caller == s.caller
      && s'.workerStarted == s.workerStarted
  {
  }

  lemma RequestShape(s: Sys)
    requires s.caller.AtWorker?
    ensures var s' := Request(s);
      && s'.client == s.client && s'.terminal == s.terminal && s'.serverStopped == s.serverStopped
      && s'.caller.Awaiting? && s'.caller.first == s.caller.first
  {
  }

  lemma StartBeginShape(s: Sys, step: Step)
    requires step.DoStartBegin? && ThreadOk(s) && Enabled(s, step)
    ensures var s' := StartBegin(s, step.start);
      && s'.client == s.client && s'.terminal == s.terminal && s'.caller == s.caller && s.caller.NoCaller?
      && (s'.serverStopped <==> s.serverStopped || step.start == WorkerFails(true))
  {
  }

  lemma StartEndShape(s: Sys, step: Step)
    requires step.DoStartEnd? && ThreadOk(s) && CallerOk(s) && Enabled(s, step)
    ensures var s' := StartEnd(s, step.joinOk, step.serverOk);
      && s'.client == s.client && s'.terminal == s.terminal && s'.caller == s.caller && s.caller.NoCaller?
      && (s'.serverStopped <==> s.serverStopped || (step.serverOk && !s.client))
  {
  }

  lemma {:induction false} ServerTells(t: Trace)
    requires Runs(t)
    ensures After(t).serverStopped <==> ServerEnded(t)
    ensures After(t).terminal == Terminal(t)
    ensures After(t).client <==> ClientMade(t)
    ensures Kept(After(t))
  {
    if t.Then? {
      ServerTells(t.before);
      RunInv(t.before);
      ServerStep(After(t.before), t.step);
    }
  }

  /** The worker's report waits, published, for its caller. */
  predicate Published(s: Sys, status: Status) {
    && (s.worker.Reporting? ==> s.worker.status == status)
    && (s.attemptComplete && !s.workerExited ==>
          s.worker.Parked? && s.worker.gen == s.generation && s.workerStatus == status)
  }

  lemma {:induction false} WorkerTells(t: Trace)
    requires Runs(t)
    ensures After(t).stops == (if ClientStopped(t) then 1 else 0)
    ensures Published(After(t), Attempted(t))
  {
    if t.Then? {
      WorkerTells(t.before);
      RunInv(t.before);
      ServerTells(t.before);
      WorkerStep(After(t.before), t.step, Attempted(t.before), ClientStopped(t.before));
    }
  }

  lemma WorkerStep(s: Sys, step: Step, said: Status, stopped: bool)
    requires Inv(s) && Kept(s) && Enabled(s, step) && Published(s, said) && s.stops == if stopped then 1 else 0
    ensures Apply(s, step).stops == if stopped || (step.DoAttempt? && step.stop == OK) then 1 else 0
    ensures Published(Apply(s, step),
              if !step.DoAttempt? then said else if step.stop != OK && !stopped then step.stop else step.destroy)
  {
    if step.DoAttempt? {
      AttemptTells(s, step.stop, step.destroy);
    } else {
      PublishedStep(s, step, said);
    }
  }

  lemma {:induction false} PublishedStep(s: Sys, step: Step, status: Status)
    requires Inv(s) && Kept(s) && Enabled(s, step) && !step.DoAttempt? && Published(s, status)
    ensures Published(Apply(s, step), status) && Apply(s, step).stops == s.stops
  {
    match step
    case DoStopServer(r) => StopServerShape(s, r);
    case DoReport => ReportPublishes(s, status);
    case _ =>
  }

  lemma ReportPublishes(s: Sys, status: Status)
    requires s.worker.Reporting? && Published(s, status)
    ensures Published(Report(s), status) && Report(s).stops == s.stops
  {
  }

  lemma AttemptTells(s: Sys, stop: Status, destroy: Status)
    requires Inv(s) && s.worker.Attempting? && !(s.attemptComplete && !s.workerExited)
    ensures s.stops == (if s.worker.stopped then 1 else 0)
    ensures var s' := Attempt(s, stop, destroy);
      && s'.stops == (if s.worker.stopped || stop == OK then 1 else 0)
      && Published(s', if stop != OK && !s.worker.stopped then stop else destroy)
  {
  }

  lemma {:induction false} OthersStart(s: Sys, step: Step)
    requires Inv(s) && Enabled(s, step) && !OfCaller(step)
    ensures Apply(s, step).caller == s.caller
  {
    match step
    case DoStartBegin(_) => StartBeginShape(s, step);
    case DoStartEnd(_, _) => StartEndShape(s, step);
    case DoAttempt(stop, destroy) => AttemptRest(s, stop, destroy);
    case DoReport => ReportShape(s);
    case _ =>
  }

  /** While the caller is finishing, no step but its own changes what it returns. */
  lemma {:induction false} OthersKeep(s: Sys, step: Step)
    requires Inv(s) && Enabled(s, step) && !OfCaller(step) && s.caller.Finishing?
    ensures Returned(Apply(s, step)) == Returned(s)
  {
    OthersStart(s, step);
    match step
    case DoAttempt(stop, destroy) => AttemptRest(s, stop, destroy);
    case DoReport => ReportShape(s);
    case _ =>
  }

  /** What a caller's step brings it, with what the worker and the server have said before. */
  predicate Brings(s: Sys, step: Step, attempted: Status, status: Status) {
    match step
    case DoTimeout => status == TIMED_OUT
    case DoAwait => status == attempted
    case DoJoin(join) => status == if join != OK then join else s.terminal
    case DoStopServer(r) =>
      if s.serverStopped then status == s.terminal
      else if r.ServerTimeout? then status == TIMED_OUT
      else if r.StillRunning? then status == r.status
      else status == if r.TerminalError? then r.status else OK
    case _ => false
  }

  lemma {:induction false} CallerStep(s: Sys, step: Step, attempted: Status)
    requires Inv(s) && Enabled(s, step) && Published(s, attempted) && Kept(s)
    requires OfCaller(step) && Apply(s, step).caller.Finishing?
    ensures Brings(s, step, attempted, Returned(Apply(s, step)))
  {
    match step
    case DoStopServer(r) =>
      StopServerShape(s, r);
      ServerBrings(s, r, StopServerStep(s, r), attempted);
    case DoJoin(_) => JoinBrings(s, step, attempted);
    case _ =>
  }

  /** With the server ended and no worker there is nothing left to wait for. */
  lemma ServerBrings(s: Sys, r: ServerResult, s': Sys, attempted: Status)
    requires ClientOk(s) && ThreadOk(s) && Kept(s) && ServerAnswers(s, r, s') && s'.caller.Finishing?
    ensures Brings(s, DoStopServer(r), attempted, Returned(s'))
  {
  }

  lemma JoinBrings(s: Sys, step: Step, attempted: Status)
    requires ClientOk(s) && ThreadOk(s) && CallerOk(s) && Enabled(s, step) && step.DoJoin? && Kept(s)
    ensures Brings(s, step, attempted, Returned(Join(s, step.join)))
  {
  }

  lemma {:induction false} CallerTells(t: Trace)
    requires Runs(t) && t.Then? && OfCaller(t.step) && After(t).caller.Finishing?
    ensures Returned(After(t)) == Due(t)
  {
    RunInv(t.before);
    ServerTells(t.before);
    WorkerTells(t.before);
    CallerStep(After(t.before), t.step, Attempted(t.before));
  }

  /** Whatever happened, stop returns the answer of the stage that failed; if no stage of the call failed, the
      terminal error the server has ever answered; and otherwise OK. */
  lemma {:induction false} StopReturns(t: Trace)
    requires Runs(t) && After(t).caller.Finishing?
    ensures Returned(After(t)) == Due(t)
  {
    if t.Then? {
      if OfCaller(t.step) {
        CallerTells(t);
      } else {
        RunInv(t.before);
        OthersStart(After(t.before), t.step);
        OthersKeep(After(t.before), t.step);
        StopReturns(t.before);
      }
    }
  }

  /** Once the server has ended in a terminal error, no stop returns OK. */
  lemma TerminalIsReturned(t: Trace)
    requires Runs(t) && Terminal(t) != OK && After(t).caller.Finishing?
    ensures Returned(After(t)) != OK
    ensures Finish(After(t)).phase.Stopped? ==> Returned(After(t)) == Terminal(t)
  {
    RunInv(t);
    ServerTells(t);
  }

  // ----- when it has stopped ------------------------------------------------

  predicate AllEnded(s: Sys) { s.serverStopped && !s.workerStarted && s.clientDestroyed }

  /** Between calls a processor that was started is STOPPED exactly when all its parts have ended. */
  predicate StoppedExactly(s: Sys) {
    && (s.phase.Running? ==> s.workerStarted) && (s.phase.Initialized? ==> !s.serverStopped)
    && (!s.stopActive && !s.phase.Initialized? ==> (s.phase.Stopped? <==> AllEnded(s)))
  }

  lemma {:induction false} StoppedExactlyStep(s: Sys, step: Step)
    requires Inv(s) && Kept(s) && StoppedExactly(s) && Enabled(s, step)
    ensures StoppedExactly(Apply(s, step))
  {
    match step
    case DoStopServer(r) => StopServerShape(s, r);
    case DoReport => ReportEnds(s);
    case _ =>
  }

  /** A worker that ends has still to be joined. */
  lemma ReportEnds(s: Sys)
    requires ThreadOk(s) && CallerOk(s) && StoppedExactly(s) && s.worker.Reporting?
    ensures StoppedExactly(Report(s))
  {
  }

  lemma {:induction false} StoppedIffEnded(t: Trace)
    requires Runs(t)
    ensures StoppedExactly(After(t))
  {
    if t.Then? {
      RunInv(t.before);
      ServerTells(t.before);
      StoppedIffEnded(t.before);
      StoppedExactlyStep(After(t.before), t.step);
    }
  }
}
