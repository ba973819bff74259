/**
 Two-pass compilation of a document's transitions: measure and admit everything,
 then emit into storage of exactly the measured size.
 */
module CcxmlProgram {
  import opened Basics
  import opened CcxmlTree
  import opened CcxmlCompile
  import opened CcxmlMachine
  import opened CcxmlSimulation

  datatype Program = Program(rows: seq<Row>, firsts: seq<nat>, maxTransitionActions: nat, maxTransitionEffects: nat)

  function TotalSize(ts: seq<Transition>): nat {
    if ts == [] then 0 else TotalSize(ts[..|ts| - 1]) + SizeAll(ts[|ts| - 1].kids)
  }

  function TotalRetained(ts: seq<Transition>): nat {
    if ts == [] then 0 else TotalRetained(ts[..|ts| - 1]) + HeaderRetained(ts[|ts| - 1].header) + RetainedAll(ts[|ts| - 1].kids)
  }

  lemma {:induction false} TotalsGrow(ts: seq<Transition>, i: nat)
    requires i <= |ts|
    ensures TotalSize(ts[..i]) <= TotalSize(ts) && TotalRetained(ts[..i]) <= TotalRetained(ts)
    decreases |ts| - i
  {
    if i < |ts| {
      assert ts[..i + 1][..i] == ts[..i];
      TotalsGrow(ts, i + 1);
    } else {
      assert ts[..i] == ts;
    }
  }

  /** What admission demands of a document. */
  ghost predicate Admissible(ts: seq<Transition>, stateVariable: bool, limits: Limits) {
    && (forall i :: 0 <= i < |ts| ==> TransitionAdmitted(ts[i], stateVariable, limits))
    && |ts| <= limits.maxTransitions && TotalSize(ts) <= limits.maxActions && TotalRetained(ts) <= limits.maxNameBytes
  }

  predicate TransitionAdmitted(t: Transition, stateVariable: bool, limits: Limits) {
    HeaderAdmitted(t.header, stateVariable) && BlockAdmitted(t.kids) && EffectsAll(t.kids, limits.maxIterations) <= SIZE_MAX
  }

  ghost predicate TransitionFits(t: Transition, stateVariable: bool, limits: Limits, count: nat, size: nat, retained: nat) {
    && TransitionAdmitted(t, stateVariable, limits) && count < limits.maxTransitions
    && size + SizeAll(t.kids) <= limits.maxActions
    && retained + HeaderRetained(t.header) + RetainedAll(t.kids) <= limits.maxNameBytes
  }

  lemma AdmissibleStep(ts: seq<Transition>, i: nat, stateVariable: bool, limits: Limits)
    requires i < |ts| && Admissible(ts[..i], stateVariable, limits)
    ensures Admissible(ts[..i + 1], stateVariable, limits)
       <==> TransitionFits(ts[i], stateVariable, limits, i, TotalSize(ts[..i]), TotalRetained(ts[..i]))
    ensures TotalSize(ts[..i + 1]) == TotalSize(ts[..i]) + SizeAll(ts[i].kids)
    ensures TotalRetained(ts[..i + 1])
         == TotalRetained(ts[..i]) + HeaderRetained(ts[i].header) + RetainedAll(ts[i].kids)
  {
    assert ts[..i + 1][..i] == ts[..i] && ts[..i + 1][i] == ts[i];
    assert forall j :: 0 <= j < i ==> ts[..i][j] == ts[..i + 1][j];
  }

  lemma AdmissiblePrefix(ts: seq<Transition>, i: nat, stateVariable: bool, limits: Limits)
    requires i <= |ts| && !Admissible(ts[..i], stateVariable, limits)
    ensures !Admissible(ts, stateVariable, limits)
  {
    TotalsGrow(ts, i);
    assert forall j :: 0 <= j < i ==> ts[..i][j] == ts[j];
  }

  /** The transition's rows start at `first` and its static counts are covered. */
  ghost predicate Placed(p: Program, kids: Nodes, first: nat, limits: Limits) {
    && BlockAdmitted(kids) && first + SizeAll(kids) <= |p.rows|
    && CodedAll(p.rows, kids, first, first, first)
    && SizeAll(kids) <= p.maxTransitionActions && EffectsAll(kids, limits.maxIterations) <= p.maxTransitionEffects
  }

  /** The maxima cover the first `n` transitions. */
  predicate Covered(ts: seq<Transition>, n: nat, limits: Limits, actions: nat, effects: nat) {
    && n <= |ts|
    && forall j :: 0 <= j < n ==> SizeAll(ts[j].kids) <= actions && EffectsAll(ts[j].kids, limits.maxIterations) <= effects
  }

  /** The counts after the first `n` transitions, all of them admissible so far. */
  ghost predicate Measured(ts: seq<Transition>, n: nat, stateVariable: bool, limits: Limits, count: nat, size: nat,
                           retained: nat, actions: nat, effects: nat) {
    && n <= |ts| && Admissible(ts[..n], stateVariable, limits)
    && count == n && size == TotalSize(ts[..n]) && retained == TotalRetained(ts[..n]) && Covered(ts, n, limits, actions, effects)
  }

  lemma MeasuredStep(ts: seq<Transition>, n: nat, stateVariable: bool, limits: Limits, count: nat, size: nat,
                     retained: nat, actions: nat, effects: nat)
    requires n < |ts| && Measured(ts, n, stateVariable, limits, count, size, retained, actions, effects)
    ensures var t := ts[n];
      if TransitionFits(t, stateVariable, limits, count, size, retained) then
        Measured(ts, n + 1, stateVariable, limits, count + 1, size + SizeAll(t.kids),
                 retained + HeaderRetained(t.header) + RetainedAll(t.kids),
                 Max(actions, SizeAll(t.kids)), Max(effects, EffectsAll(t.kids, limits.maxIterations)))
      else !Admissible(ts, stateVariable, limits)
  {
    AdmissibleStep(ts, n, stateVariable, limits);
    if !TransitionFits(ts[n], stateVariable, limits, count, size, retained) {
      AdmissiblePrefix(ts, n + 1, stateVariable, limits);
    }
  }

  method Measure(ts: seq<Transition>, stateVariable: bool, limits: Limits, m: Measurement) returns (status: Status)
    requires limits.Valid()
    requires m.transitionCount == m.actionCount == m.nameBytes == m.maxTransitionActions == m.maxTransitionEffects == 0
    modifies m
    ensures status.Ok? <==> Admissible(ts, stateVariable, limits)
    ensures status.Ok? ==> m.actionCount == TotalSize(ts)
    ensures status.Ok? ==> Covered(ts, |ts|, limits, m.maxTransitionActions, m.maxTransitionEffects)
  {
    status := Ok;
    var i := 0;
    while i < |ts|
      invariant 0 <= i <= |ts| && status.Ok?
      invariant Measured(ts, i, stateVariable, limits, m.transitionCount, m.actionCount, m.nameBytes,
                         m.maxTransitionActions, m.maxTransitionEffects)
    {
      MeasuredStep(ts, i, stateVariable, limits, m.transitionCount, m.actionCount, m.nameBytes,
                   m.maxTransitionActions, m.maxTransitionEffects);
      status := m.ValidateTransition(ts[i], stateVariable, limits);
      if !status.Ok? { return; }
      i := i + 1;
    }
    assert ts[..i] == ts;
  }

  /** Emits one transition at `first` and lowers its items in place. */
  method EmitTransition(emitter: Emitter, actions: array<Row>, kids: Nodes, first: nat) returns (status: Status)
    requires BlockAdmitted(kids) && first + SizeAll(kids) <= actions.Length && actions != emitter.items as object
    modifies emitter`count, emitter.items, actions
    ensures status.Ok? <==> SizeAll(kids) <= emitter.items.Length
    ensures forall j :: 0 <= j < first ==> actions[j] == old(actions[j])
    ensures status.Ok? ==> CodedAll(actions[..], kids, first, first, first)
  {
    emitter.count := 0;
    status := emitter.AppendBlock(kids, 0, 0);
    if !status.Ok? { return; }
    var i := 0;
    while i < emitter.count
      invariant 0 <= i <= emitter.count == SizeAll(kids)
      invariant forall j :: 0 <= j < first ==> actions[j] == old(actions[j])
      invariant forall j :: 0 <= j < SizeAll(kids) ==> emitter.items[j] == ItemAtAll(kids, 0, 0, 0, j)
      invariant forall j :: 0 <= j < i ==> actions[first + j] == LowerItem(ItemAtAll(kids, 0, 0, 0, j), first)
    {
      actions[first + i] := LowerItem(emitter.items[i], first);
      i := i + 1;
    }
    forall j | first <= j < first + SizeAll(kids)
      ensures actions[..][j] == LowerItem(ItemAtAll(kids, first, first, first, j), 0)
    {
      assert actions[first + (j - first)] == LowerItem(ItemAtAll(kids, 0, 0, 0, j - first), first);
      LowerShiftAll(kids, 0, 0, 0, first, j - first);
    }
  }

  lemma CodedPrefix(a: seq<Row>, b: seq<Row>, kids: Nodes, first: nat, upto: nat)
    requires CodedAll(a, kids, first, first, first) && first + SizeAll(kids) <= upto
    requires upto <= |a| && upto <= |b| && forall j :: 0 <= j < upto ==> a[j] == b[j]
    ensures CodedAll(b, kids, first, first, first)
  {
  }

  /** Transition `i` starts where the earlier ones end. */
  ghost predicate Emitted(rows: seq<Row>, firsts: seq<nat>, ts: seq<Transition>, n: nat)
    requires n <= |ts|
  {
    |firsts| == n && forall j :: 0 <= j < n ==>
      firsts[j] == TotalSize(ts[..j]) && CodedAll(rows, ts[j].kids, firsts[j], firsts[j], firsts[j])
  }

  lemma EmittedStep(a: seq<Row>, b: seq<Row>, firsts: seq<nat>, ts: seq<Transition>, n: nat, first: nat)
    requires n < |ts| && Emitted(a, firsts, ts, n) && first == TotalSize(ts[..n]) <= |a| == |b|
    requires (forall j :: 0 <= j < first ==> a[j] == b[j]) && first + SizeAll(ts[n].kids) <= |b|
    requires CodedAll(b, ts[n].kids, first, first, first)
    ensures Emitted(b, firsts + [first], ts, n + 1)
  {
    forall j | 0 <= j < n ensures CodedAll(b, ts[j].kids, firsts[j], firsts[j], firsts[j]) {
      StartsBefore(ts, j, n);
      CodedPrefix(a, b, ts[j].kids, firsts[j], first);
    }
  }

  method EmitAll(emitter: Emitter, actions: array<Row>, ts: seq<Transition>) returns (firsts: seq<nat>)
    requires actions.Length == TotalSize(ts) && actions != emitter.items as object
    requires forall i :: 0 <= i < |ts| ==> BlockAdmitted(ts[i].kids) && SizeAll(ts[i].kids) <= emitter.items.Length
    modifies emitter`count, emitter.items, actions
    ensures Emitted(actions[..], firsts, ts, |ts|)
  {
    firsts := [];
    var actionIndex: nat := 0;
    var i := 0;
    while i < |ts|
      invariant 0 <= i <= |ts| && actionIndex == TotalSize(ts[..i]) <= actions.Length
      invariant Emitted(actions[..], firsts, ts, i)
    {
      assert ts[..i + 1][..i] == ts[..i];
      TotalsGrow(ts, i + 1);
      ghost var before := actions[..];
      var status := EmitTransition(emitter, actions, ts[i].kids, actionIndex);
      EmittedStep(before, actions[..], firsts, ts, i, actionIndex);
      firsts := firsts + [actionIndex];
      actionIndex := actionIndex + SizeAll(ts[i].kids);
      i := i + 1;
    }
  }

  lemma StartsBefore(ts: seq<Transition>, j: nat, i: nat)
    requires j < i <= |ts|
    ensures TotalSize(ts[..j]) + SizeAll(ts[j].kids) <= TotalSize(ts[..i])
  {
    assert ts[..j + 1][..j] == ts[..j];
    TotalsGrow(ts[..i], j + 1);
    assert ts[..i][..j + 1] == ts[..j + 1];
  }

  /** Compiles a whole document. It succeeds exactly on admissible documents, fills exactly the
      rows it measured, and leaves every transition placed and within the static counts. */
  method Compile(ts: seq<Transition>, stateVariable: bool, limits: Limits) returns (status: Status, p: Program)
    requires limits.Valid()
    ensures status.Ok? <==> Admissible(ts, stateVariable, limits)
    ensures status.Ok? ==> |p.rows| == TotalSize(ts) && |p.firsts| == |ts|
    ensures status.Ok? ==> forall i :: 0 <= i < |ts| ==>
              p.firsts[i] == TotalSize(ts[..i]) && Placed(p, ts[i].kids, p.firsts[i], limits)
  {
    p := Program([], [], 0, 0);
    var m := new Measurement();
    status := Measure(ts, stateVariable, limits, m);
    if !status.Ok? { return; }
    var maxActions, maxEffects := m.maxTransitionActions, m.maxTransitionEffects;
    var actions := new Row[m.actionCount](_ => EndIfRow);
    var emitter := new Emitter(maxActions);
    var firsts := EmitAll(emitter, actions, ts);
    p := Program(actions[..], firsts, maxActions, maxEffects);
  }

  /** Whatever the outside does, a placed transition is fit for the simulation theorem. */
  lemma PlacedIsCompiled(p: Program, kids: Nodes, first: nat, limits: Limits, w: World)
    requires Placed(p, kids, first, limits)
    ensures Compiled(Config(w, p.rows, first, SizeAll(kids), p.maxTransitionActions, p.maxTransitionEffects,
                            limits.maxIterations), kids)
  {
  }
}
