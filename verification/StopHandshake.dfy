/**
 Starting and stopping the processor: callers of start and stop, and the worker thread that owns
 the client, meet under one lock. Each step is one region under the lock or one foreign call.
 */
module StopHandshake {
  import opened Basics

  datatype Phase = Initialized | Running | Stopping | Stopped

  /** 0 is success; any other number an error. */
  type Status = nat
  const OK: Status := 0
  const TIMED_OUT: Status := 1

  /** Where the worker thread is. `no` counts stop requests; it is history beside the generation. */
  datatype Worker =
    | Absent | Starting | Looping
    | Attempting(gen: nat, no: nat, stopped: bool, destroyed: bool)
    | Reporting(gen: nat, no: nat, stopped: bool, destroyed: bool, status: Status)
    | Parked(gen: nat)
    | Finished

  /** Where the active stop call is. `first` is the status it will return if all goes well. */
  datatype Caller =
    | NoCaller | AtServer
    | AtWorker(first: Status)
    | Awaiting(first: Status, gen: nat, no: nat)
    | Joining(first: Status)
    | Finishing(status: Status)

  /** The last five fields are history: client calls that succeeded, stop requests made, the request
      the worker's last reported failure belongs to, and whether a client was made. */
  datatype Sys = Sys(phase: Phase, stopActive: bool, starting: bool,
                     serverStarted: bool, serverStopped: bool, terminal: Status,
                     workerStarted: bool, workerReady: bool, initOk: bool, workerExited: bool,
                     requested: bool, generation: nat, attemptComplete: bool, workerStatus: Status,
                     clientStopped: bool, clientDestroyed: bool,
                     worker: Worker, caller: Caller,
                     stops: nat, destroys: nat, requests: nat, reported: nat, client: bool)

  const NEW: Sys := Sys(Initialized, false, false, false, false, OK, false, false, false, false,
                        false, 0, false, OK, true, true, Absent, NoCaller, 0, 0, 0, 0, false)

  function NextGeneration(g: nat): nat { if g >= U64_MAX then 1 else g + 1 }

  // ----- start -------------------------------------------------------------

  /** The common end of a start that failed. */
  function StopServer(s: Sys, serverOk: bool): Sys {
    s.(serverStopped := s.serverStopped || serverOk, starting := false,
       phase := if serverOk && s.clientDestroyed && !s.workerStarted then Stopped else Stopping)
  }

  datatype StartResult = ServerFails | WorkerFails(serverOk: bool) | WorkerCreated

  function StartBegin(s: Sys, r: StartResult): Sys {
    match r
    case ServerFails => s
    case WorkerFails(serverOk) => StopServer(s.(serverStarted := true), serverOk)
    case WorkerCreated => s.(serverStarted := true, starting := true, requested := false, workerExited := false,
                             workerStarted := true, worker := Starting)
  }

  /** The worker has tried to make its client and says so. */
  function WorkerInit(s: Sys, ok: bool): Sys {
    s.(initOk := ok, workerReady := true, clientStopped := !ok, clientDestroyed := !ok, workerExited := !ok,
       client := ok, worker := if ok then Looping else Finished)
  }

  function StartEnd(s: Sys, joinOk: bool, serverOk: bool): Sys {
    if s.initOk then s.(phase := Running, starting := false)
    else StopServer(s.(workerStarted := !joinOk), serverOk)
  }

  // ----- stop --------------------------------------------------------------

  function StopBegin(s: Sys): Sys { s.(stopActive := true, phase := Stopping, caller := AtServer) }

  datatype ServerResult = ServerTimeout | ServerOk | StillRunning(status: Status) | TerminalError(status: Status)

  function AfterServer(s: Sys, first: Status): Sys {
    s.(caller := if s.workerStarted then AtWorker(first) else Finishing(first))
  }

  function StopServerStep(s: Sys, r: ServerResult): Sys {
    if s.serverStarted && !s.serverStopped then
      match r
      case ServerTimeout => s.(caller := Finishing(TIMED_OUT))
      case StillRunning(status) => s.(caller := Finishing(status))
      case ServerOk => AfterServer(s.(serverStopped := true), OK)
      case TerminalError(status) =>
        var kept := if s.terminal == OK then status else s.terminal;
        AfterServer(s.(serverStopped := true, terminal := kept), kept)
    else AfterServer(s, OK)
  }

  function Request(s: Sys): Sys
    requires s.caller.AtWorker?
  {
    if s.workerExited then s.(caller := Awaiting(s.caller.first, s.generation, s.requests))
    else
      var g := NextGeneration(s.generation);
      s.(generation := g, requests := s.requests + 1, attemptComplete := false, requested := true,
         caller := Awaiting(s.caller.first, g, s.requests + 1))
  }

  function Await(s: Sys): Sys
    requires s.caller.Awaiting?
  {
    if s.workerExited then s.(caller := Joining(s.caller.first))
    else if s.workerStatus != OK then s.(caller := Finishing(s.workerStatus))
    else s.(caller := Joining(s.caller.first))
  }

  function Join(s: Sys, status: Status): Sys
    requires s.caller.Joining?
  {
    if status == OK then s.(workerStarted := false, caller := Finishing(s.caller.first))
    else s.(caller := Finishing(status))
  }

  function Finish(s: Sys): Sys {
    s.(stopActive := false, caller := NoCaller,
       phase := if s.serverStopped && !s.workerStarted && s.clientDestroyed then Stopped else s.phase)
  }

  /** What stop returns in its last region. */
  function Returned(s: Sys): Status
    requires s.caller.Finishing?
  {
    if s.serverStopped && !s.workerStarted && s.clientDestroyed && s.terminal != OK then s.terminal else s.caller.status
  }

  // ----- the worker --------------------------------------------------------

  function Poll(s: Sys): Sys {
    if s.requested then s.(worker := Attempting(s.generation, s.requests, s.clientStopped, s.clientDestroyed)) else s
  }

  /** Stopping and destroying the client, each only if not done before; `stop` and `destroy` are the answers. */
  function Attempt(s: Sys, stop: Status, destroy: Status): Sys
    requires s.worker.Attempting?
  {
    var w := s.worker;
    var stopped := w.stopped || stop == OK;
    var destroyed := w.destroyed || (stopped && destroy == OK);
    s.(stops := s.stops + (if !w.stopped && stopped then 1 else 0),
       destroys := s.destroys + (if !w.destroyed && destroyed then 1 else 0),
       worker := Reporting(w.gen, w.no, stopped, destroyed, if !stopped then stop else if destroyed then OK else destroy))
  }

  function Report(s: Sys): Sys
    requires s.worker.Reporting?
  {
    var w := s.worker;
    var exits := w.status == OK;
    var mine := !exits && s.generation == w.gen;
    s.(clientStopped := w.stopped, clientDestroyed := w.destroyed,
       workerStatus := if exits then OK else if mine then w.status else s.workerStatus,
       attemptComplete := exits || mine || s.attemptComplete, workerExited := exits || s.workerExited,
       reported := if mine then w.no else s.reported,
       worker := if exits then Finished else if mine then Parked(w.gen) else Looping)
  }

  // ----- steps -------------------------------------------------------------

  datatype Step =
    | DoStartBegin(start: StartResult) | DoWorkerInit(ok: bool) | DoStartEnd(joinOk: bool, serverOk: bool)
    | DoStopBegin | DoStopServer(server: ServerResult) | DoRequest | DoAwait | DoTimeout | DoJoin(join: Status) | DoFinish
    | DoPoll | DoAttempt(stop: Status, destroy: Status) | DoReport | DoWake

  /** A start join, like a stop join, can succeed only when the thread has finished. */
  predicate Enabled(s: Sys, step: Step) {
    match step
    case DoStartBegin(_) => s.phase.Initialized? && !s.workerStarted
    case DoWorkerInit(_) => s.worker.Starting?
    case DoStartEnd(joinOk, _) => s.starting && s.workerReady && (joinOk ==> s.worker.Finished?)
    case DoStopBegin => !s.stopActive && !s.phase.Initialized? && !s.phase.Stopped?
    case DoStopServer(r) =>
      s.caller.AtServer? && (r.StillRunning? ==> r.status != OK) && (r.TerminalError? ==> r.status != OK)
    case DoRequest => s.caller.AtWorker?
    case DoAwait => s.caller.Awaiting? && (s.attemptComplete || s.workerExited)
    case DoTimeout => s.caller.Awaiting? && !s.attemptComplete && !s.workerExited
    case DoJoin(status) => s.caller.Joining? && (status == OK ==> s.worker.Finished?)
    case DoFinish => s.caller.Finishing?
    case DoPoll => s.worker.Looping?
    case DoAttempt(_, _) => s.worker.Attempting?
    case DoReport => s.worker.Reporting?
    case DoWake => s.worker.Parked? && s.generation != s.worker.gen
  }

  function Apply(s: Sys, step: Step): Sys
    requires Enabled(s, step)
  {
    match step
    case DoStartBegin(r) => StartBegin(s, r)
    case DoWorkerInit(ok) => WorkerInit(s, ok)
    case DoStartEnd(joinOk, serverOk) => StartEnd(s, joinOk, serverOk)
    case DoStopBegin => StopBegin(s)
    case DoStopServer(r) => StopServerStep(s, r)
    case DoRequest => Request(s)
    case DoAwait => Await(s)
    case DoTimeout => s.(caller := Finishing(TIMED_OUT))
    case DoJoin(status) => Join(s, status)
    case DoFinish => Finish(s)
    case DoPoll => Poll(s)
    case DoAttempt(stop, destroy) => Attempt(s, stop, destroy)
    case DoReport => Report(s)
    case DoWake => s.(worker := Looping)
  }

  // ----- the invariant -----------------------------------------------------

  /** What the worker knows of its client, ahead of what it has published. */
  function StoppedNow(s: Sys): bool { if s.worker.Reporting? then s.worker.stopped else s.clientStopped }
  function DestroyedNow(s: Sys): bool { if s.worker.Reporting? then s.worker.destroyed else s.clientDestroyed }

  /** The client is stopped once and then destroyed once. */
  predicate ClientOk(s: Sys) {
    && s.stops == (if s.client && StoppedNow(s) then 1 else 0)
    && s.destroys == (if s.client && DestroyedNow(s) then 1 else 0)
    && (s.client && DestroyedNow(s) ==> StoppedNow(s))
    && (!s.client ==> s.clientStopped && s.clientDestroyed)
    && (s.worker.Attempting? ==> s.worker.stopped == s.clientStopped && s.worker.destroyed == s.clientDestroyed)
    && (s.worker.Attempting? || s.worker.Reporting? || s.worker.Looping? || s.worker.Parked? ==> s.client)
    && (s.worker.Reporting? ==> (s.worker.status == OK <==> s.worker.stopped && s.worker.destroyed))
    && (s.worker.Finished? ==> s.clientStopped && s.clientDestroyed)
    && (s.client && s.clientDestroyed ==> s.worker.Finished?)
  }

  predicate ThreadOk(s: Sys) {
    && (s.worker.Absent? ==> !s.workerStarted && !s.workerReady && !s.client)
    && (!s.workerStarted ==> s.worker.Absent? || s.worker.Finished?)
    && (s.worker.Finished? <==> s.workerExited)
    && (s.worker.Starting? ==> s.starting && !s.workerReady && !s.client)
    && (s.starting ==> s.phase.Initialized? && s.workerStarted && s.caller.NoCaller? && s.serverStarted && !s.requested)
    && (s.workerReady ==> (s.initOk <==> s.client))
    && (s.phase.Initialized? ==> s.caller.NoCaller? && !s.stopActive && !s.requested)
    && (s.phase.Initialized? && !s.starting ==> s.worker.Absent?)
    && (s.starting && s.workerReady && s.client ==> s.worker.Looping?)
    && (s.starting && s.workerReady && !s.client ==> s.worker.Finished?)
    && (s.starting && !s.workerReady ==> s.worker.Starting?)
  }

  predicate CallerOk(s: Sys) {
    && (s.stopActive <==> !s.caller.NoCaller?)
    && (s.stopActive ==> s.phase.Stopping?)
    && (s.caller.AtWorker? || s.caller.Awaiting? || s.caller.Joining? ==> s.workerStarted && !s.phase.Initialized?)
    && (s.caller.AtWorker? || s.caller.Awaiting? || s.caller.Joining? ==> s.serverStopped || !s.serverStarted)
    && (s.phase.Stopped? ==> s.serverStopped && s.clientDestroyed && !s.workerStarted)
    && (!s.phase.Initialized? ==> s.serverStarted)
    && (s.caller == Finishing(OK) ==> s.serverStopped && !s.workerStarted)
  }

  /** Generations number the requests until they wrap. */
  predicate RequestOk(s: Sys) {
    && (s.requests <= U64_MAX ==> s.generation == s.requests)
    && s.reported <= s.requests
    && (s.worker.Attempting? || s.worker.Reporting? ==> s.worker.no <= s.requests && (s.worker.no <= U64_MAX ==> s.worker.gen == s.worker.no))
    && (s.caller.Awaiting? ==> s.caller.no == s.requests && s.caller.gen == s.generation)
    && (s.attemptComplete && !s.workerExited ==> s.workerStatus != OK)
    && (s.attemptComplete && !s.workerExited && s.requests <= U64_MAX ==> s.reported == s.requests)
    && (s.caller.Awaiting? && !s.workerExited ==> s.requested)
    && (s.worker.Parked? && s.requests <= U64_MAX ==> s.worker.gen <= s.requests)
    && (s.worker.Parked? && s.requests <= U64_MAX && s.worker.gen == s.generation ==> s.attemptComplete)
  }

  predicate Inv(s: Sys) { ClientOk(s) && ThreadOk(s) && CallerOk(s) && RequestOk(s) }

  lemma StartInv(s: Sys, step: Step)
    requires Inv(s) && Enabled(s, step) && (step.DoStartBegin? || step.DoWorkerInit? || step.DoStartEnd?)
    ensures Inv(Apply(s, step))
  {
  }

  lemma StopBeginInv(s: Sys)
    requires Inv(s) && Enabled(s, DoStopBegin)
    ensures Inv(StopBegin(s))
  {
  }

  lemma AfterServerInv(s: Sys, s': Sys, first: Status)
    requires Inv(s) && s.caller.AtServer?
    requires s' == s.(serverStopped := s'.serverStopped, terminal := s'.terminal) && (s'.serverStopped || !s.serverStarted)
    ensures Inv(AfterServer(s', first))
  {
  }

  lemma GiveUpInv(s: Sys, status: Status)
    requires Inv(s) && s.caller.AtServer? && status != OK
    ensures Inv(s.(caller := Finishing(status)))
  {
  }

  lemma StopServerInv(s: Sys, r: ServerResult)
    requires Inv(s) && Enabled(s, DoStopServer(r))
    ensures Inv(StopServerStep(s, r))
  {
    if s.serverStarted && !s.serverStopped {
      match r
      case ServerTimeout => GiveUpInv(s, TIMED_OUT);
      case StillRunning(status) => GiveUpInv(s, status);
      case ServerOk => AfterServerInv(s, s.(serverStopped := true), OK);
      case TerminalError(status) =>
        var kept := if s.terminal == OK then status else s.terminal;
        AfterServerInv(s, s.(serverStopped := true, terminal := kept), kept);
    } else {
      AfterServerInv(s, s, OK);
    }
  }

  lemma FinishInv(s: Sys)
    requires Inv(s) && Enabled(s, DoFinish)
    ensures Inv(Finish(s))
  {
  }

  lemma CallerInv(s: Sys, step: Step)
    requires Inv(s) && Enabled(s, step) && (step.DoRequest? || step.DoAwait? || step.DoTimeout? || step.DoJoin?)
    ensures Inv(Apply(s, step))
  {
  }

  lemma PollInv(s: Sys)
    requires Inv(s) && s.worker.Looping?
    ensures Inv(Poll(s))
  {
  }

  lemma AttemptClient(s: Sys, stop: Status, destroy: Status)
    requires ClientOk(s) && s.worker.Attempting?
    ensures ClientOk(Attempt(s, stop, destroy))
  {
  }

  lemma AttemptRest(s: Sys, stop: Status, destroy: Status)
    requires s.worker.Attempting?
    ensures var s' := Attempt(s, stop, destroy);
      && s'.worker.Reporting? && s'.worker.gen == s.worker.gen && s'.worker.no == s.worker.no
      && s' == s.(worker := s'.worker, stops := s'.stops, destroys := s'.destroys)
  {
  }

  lemma AttemptInv(s: Sys, stop: Status, destroy: Status)
    requires Inv(s) && s.worker.Attempting?
    ensures Inv(Attempt(s, stop, destroy))
  {
    AttemptClient(s, stop, destroy);
    AttemptRest(s, stop, destroy);
  }

  lemma ReportClient(s: Sys)
    requires ClientOk(s) && s.worker.Reporting?
    ensures ClientOk(Report(s))
  {
  }

  lemma ReportThread(s: Sys)
    requires ClientOk(s) && ThreadOk(s) && CallerOk(s) && s.worker.Reporting?
    ensures ThreadOk(Report(s)) && CallerOk(Report(s))
  {
  }

  lemma ReportRequest(s: Sys)
    requires ThreadOk(s) && RequestOk(s) && s.worker.Reporting?
    ensures RequestOk(Report(s))
  {
  }

  lemma ReportInv(s: Sys)
    requires Inv(s) && s.worker.Reporting?
    ensures Inv(Report(s))
  {
    ReportClient(s);
    ReportThread(s);
    ReportRequest(s);
  }

  lemma StepInv(s: Sys, step: Step)
    requires Inv(s) && Enabled(s, step)
    ensures Inv(Apply(s, step))
  {
    match step
    case DoStartBegin(_) => StartInv(s, step);
    case DoWorkerInit(_) => StartInv(s, step);
    case DoStartEnd(_, _) => StartInv(s, step);
    case DoStopBegin => StopBeginInv(s);
    case DoStopServer(r) => StopServerInv(s, r);
    case DoFinish => FinishInv(s);
    case DoRequest => CallerInv(s, step);
    case DoAwait => CallerInv(s, step);
    case DoTimeout => CallerInv(s, step);
    case DoJoin(_) => CallerInv(s, step);
    case DoPoll => PollInv(s);
    case DoAttempt(stop, destroy) => AttemptInv(s, stop, destroy);
    case DoReport => ReportInv(s);
    case DoWake =>
  }

  // ----- over every run ----------------------------------------------------

  datatype Trace = Nil | Then(before: Trace, step: Step)

  predicate Runs(t: Trace)
    decreases t, 0
  {
    t.Then? ==> Runs(t.before) && Enabled(After(t.before), t.step)
  }

  function After(t: Trace): Sys
    requires Runs(t)
    decreases t, 1
  {
    match t
    case Nil => NEW
    case Then(before, step) => Apply(After(before), step)
  }

  ghost predicate Reached(s: Sys) { exists t :: Runs(t) && After(t) == s }

  lemma {:induction false} RunInv(t: Trace)
    requires Runs(t)
    ensures Inv(After(t))
  {
    if t.Then? {
      RunInv(t.before);
      StepInv(After(t.before), t.step);
    }
  }

  lemma ReachedInv(s: Sys)
    requires Reached(s)
    ensures Inv(s)
  {
    var t :| Runs(t) && After(t) == s;
    RunInv(t);
  }

  /** STOPPED means that the server is stopped, the client destroyed and the worker joined. */
  lemma StoppedMeansStopped(s: Sys)
    requires Reached(s) && s.phase.Stopped?
    ensures s.serverStopped && s.clientDestroyed && !s.workerStarted && (s.worker.Absent? || s.worker.Finished?)
  {
    ReachedInv(s);
  }

  /** And it is final: from STOPPED no step is possible. */
  lemma StoppedIsFinal(s: Sys, step: Step)
    requires Reached(s) && s.phase.Stopped?
    ensures !Enabled(s, step)
  {
    ReachedInv(s);
  }

  /** Stop returns success only from a processor that has stopped. */
  lemma SuccessMeansStopped(s: Sys)
    requires Reached(s) && s.caller.Finishing? && Returned(s) == OK
    ensures Finish(s).phase.Stopped?
  {
    ReachedInv(s);
  }

  /** A failure a caller takes from the worker was reported for that caller's own request. */
  lemma FailureIsOwn(s: Sys)
    requires Reached(s) && Enabled(s, DoAwait) && s.requests <= U64_MAX && !s.workerExited
    ensures Await(s).caller == Finishing(s.workerStatus) && s.workerStatus != OK && s.reported == s.caller.no
  {
    ReachedInv(s);
  }

  /** The client is stopped at most once, destroyed at most once, and only after it was stopped. */
  lemma ClientEndsOnce(s: Sys)
    requires Reached(s)
    ensures s.destroys <= s.stops <= 1
  {
    ReachedInv(s);
  }
}
