/**
 Whose turn it is, told by the run: which bindings are up, which sends were committed before which.
 */
module EgressTurn {
  import opened Basics
  import opened EgressModel
  import opened EgressInvariant
  import opened EgressSteps
  import opened EgressOrder
  import opened EgressRuns
  import opened EgressHistory

  /** The binding was activated and has not been closed. */
  predicate IsUp(t: Trace, b: Ref) {
    match t
    case Nil => false
    case Then(before, step) => step == DoActivate(b) || (step != DoClose(b) && IsUp(before, b))
  }

  function Length(t: Trace): nat { if t.Nil? then 0 else Length(t.before) + 1 }

  /** How many steps came before the commit of the send that row `i` holds. */
  function CommitPlace(t: Trace, i: nat): Option<nat> {
    match t
    case Nil => None
    case Then(before, step) =>
      if step.DoReserve? && step.i == i then None
      else if step.DoCommit? && step.i == i then Some(Length(before))
      else CommitPlace(before, i)
  }

  /** Another send of the same binding is still there and was committed before. */
  predicate Overtakes(s: Sys, t: Trace, j: nat, i: nat)
    requires i < |s.rows| && j < |s.rows|
  {
    && s.rows[j].binding == s.rows[i].binding && s.rows[j].Committed()
    && CommitPlace(t, j).Some? && CommitPlace(t, i).Some? && CommitPlace(t, j).value < CommitPlace(t, i).value
  }

  /** The send in row `i` may go to the client: it waits, its binding is up, its delay has passed, and no send of
      that binding that was committed before it is still there. */
  predicate MayGo(s: Sys, t: Trace, i: nat, now: nat)
    requires i < |s.rows|
  {
    && s.rows[i].phase.Ready? && IsUp(t, s.rows[i].binding)
    && Promised(t, i).Some? && Promised(t, i).value <= now
    && forall j :: 0 <= j < |s.rows| ==> !Overtakes(s, t, j, i)
  }

  // ----- what a step does to a binding -------------------------------------

  /** Steps that begin, end or change the standing of binding `b`. */
  predicate Concerns(step: Step, b: Ref) {
    step == DoInit(b) || step == DoActivate(b) || step == DoClose(b) || (step.DoQuiesce? && step.b == b) || step == DoDestroy(b)
  }

  predicate Onward(s: Sys, s': Sys, b: Ref) {
    && (b in s.bindings <==> b in s'.bindings)
    && (b in s.bindings ==> s'.bindings[b].state == s.bindings[b].state && s.bindings[b].commits <= s'.bindings[b].commits)
  }

  lemma {:induction false} CloseRowsOnward(s: Sys, c: Ref, i: nat, b: Ref)
    requires i <= |s.rows|
    ensures Onward(s, CloseRows(s, c, i), b)
    decreases |s.rows| - i
  {
    if i < |s.rows| { CloseRowsOnward(if s.rows[i].binding == c then StopRow(s, i) else s, c, i + 1, b); }
  }

  lemma SendOnward(s: Sys, step: Step, b: Ref)
    requires Enabled(s, step) && (step.DoReserve? || step.DoAbort? || step.DoDiscard?)
    ensures Onward(s, Apply(s, step), b)
  {
  }

  lemma CommitOnward(s: Sys, i: nat, now: nat, b: Ref)
    requires i < |s.rows|
    ensures Onward(s, Commit(s, i, now), b)
  {
  }

  lemma FinishOnward(s: Sys, i: nat, b: Ref)
    requires Enabled(s, DoFinish(i))
    ensures Onward(s, Finish(s, i), b)
  {
  }

  lemma CancelOnward(s: Sys, step: Step, b: Ref)
    requires Enabled(s, step) && (step.DoPrepareCancel? || step.DoCancelCommit? || step.DoCancelDiscard?)
    ensures Onward(s, Apply(s, step), b)
  {
  }

  lemma WorkerOnward(s: Sys, step: Step, b: Ref)
    requires Enabled(s, step) && ByWorker(step)
    ensures Onward(s, Apply(s, step), b)
  {
    if step.DoSubmitReturn? {
      SubmitReturnLeaves(s, step.i, step.status, step.request);
    } else if step.DoCancelReturn? {
      CancelReturnLeaves(s, step.i, step.request, step.cancelStatus);
    }
  }

  lemma StepOnward(s: Sys, step: Step, b: Ref)
    requires Enabled(s, step) && !Concerns(step, b)
    ensures Onward(s, Apply(s, step), b)
  {
    if ByWorker(step) {
      WorkerOnward(s, step, b);
    } else {
      match step
      case DoCommit(i, now) => CommitOnward(s, i, now, b);
      case DoFinish(i) => FinishOnward(s, i, b);
      case DoReserve(_, _, _, _) => SendOnward(s, step, b);
      case DoAbort(_) => SendOnward(s, step, b);
      case DoDiscard(_) => SendOnward(s, step, b);
      case DoPrepareCancel(_, _, _, _) => CancelOnward(s, step, b);
      case DoCancelCommit(_) => CancelOnward(s, step, b);
      case DoCancelDiscard(_) => CancelOnward(s, step, b);
      case DoClose(c) => if s.bindings[c].Open() { CloseRowsOnward(SetClosing(s, c), c, 0, b); }
      case _ =>
    }
  }

  lemma ConcernedUp(s: Sys, step: Step, b: Ref)
    requires Inv(s) && Enabled(s, step) && Concerns(step, b)
    ensures var s' := Apply(s, step);
      (b in s'.bindings && s'.bindings[b].state.Active?)
      <==> step == DoActivate(b) || (step != DoClose(b) && b in s.bindings && s.bindings[b].state.Active?)
  {
    if step == DoClose(b) && s.bindings[b].Open() { CloseRowsOnward(SetClosing(s, b), b, 0, b); }
  }

  /** A binding is active exactly from its activation until it is closed. */
  lemma {:induction false} UpExactly(n: nat, t: Trace, b: Ref)
    requires Runs(Started(n), t)
    ensures var s := After(Started(n), t); (b in s.bindings && s.bindings[b].state.Active?) <==> IsUp(t, b)
  {
    if t.Then? {
      var s := After(Started(n), t.before);
      UpExactly(n, t.before, b);
      StartedInv(n);
      EgressRuns.RunKeeps(Started(n), t.before);
      if Concerns(t.step, b) { ConcernedUp(s, t.step, b); } else { StepOnward(s, t.step, b); }
    }
  }

  // ----- numbers and places agree ------------------------------------------

  /** Of two committed sends of a binding the one with the smaller number was committed first. */
  predicate InOrder(s: Sys, t: Trace, i: nat, j: nat)
    requires i < |s.rows| && j < |s.rows|
  {
    var r, q := s.rows[i], s.rows[j];
    && (r.Committed() ==> CommitPlace(t, i).Some? && CommitPlace(t, i).value < Length(t))
    && (q.Committed() ==> CommitPlace(t, j).Some? && CommitPlace(t, j).value < Length(t))
    && (r.Committed() && q.Committed() && r.binding == q.binding && Unwrapped(s, r.binding) ==>
          (r.order < q.order <==> CommitPlace(t, i).value < CommitPlace(t, j).value))
  }

  lemma CommittedStays(s: Sys, step: Step, t: Trace, i: nat, q: Row)
    requires i < |s.rows| && FieldsStep(s, step, i, q) && q.Committed()
    ensures if step.DoCommit? && step.i == i then CommitPlace(Then(t, step), i) == Some(Length(t))
            else s.rows[i].Committed() && q.binding == s.rows[i].binding && q.order == s.rows[i].order
                 && CommitPlace(Then(t, step), i) == CommitPlace(t, i)
  {
  }

  /** Numbers a binding gives out are larger than those it gave before. */
  lemma LargerNumber(s: Sys, i: nat, now: nat, j: nat)
    requires Inv(s) && Ordered(s) && Enabled(s, DoCommit(i, now)) && j < |s.rows| && j != i
    requires Commit(s, i, now).rows[i].Committed() && s.rows[j].Committed() && s.rows[j].binding == s.rows[i].binding
    requires Unwrapped(Commit(s, i, now), s.rows[i].binding)
    ensures s.rows[j].order < Commit(s, i, now).rows[i].order
  {
    AtRow(s, i);
    var b := s.rows[i].binding;
    assert Placed(s, j) && Numbered(s.bindings[b]);
    assert Commit(s, i, now).bindings[b].commits == s.bindings[b].commits + 1;
  }

  lemma ConcernedCommits(s: Sys, step: Step, b: Ref)
    requires b in s.used && Enabled(s, step) && Concerns(step, b) && b in s.bindings && b in Apply(s, step).bindings
    ensures s.bindings[b].commits <= Apply(s, step).bindings[b].commits
  {
    if step == DoClose(b) && s.bindings[b].Open() { CloseRowsOnward(SetClosing(s, b), b, 0, b); }
  }

  lemma StaysUnwrapped(s: Sys, step: Step, b: Ref)
    requires b in s.used && Enabled(s, step) && b in s.bindings && Unwrapped(Apply(s, step), b)
    ensures Unwrapped(s, b)
  {
    if Concerns(step, b) { ConcernedCommits(s, step, b); } else { StepOnward(s, step, b); }
  }

  /** A row that is committed now stays so for its binding; a new number is the largest. */
  predicate NumbersGrow(s: Sys, step: Step, s': Sys, i: nat, j: nat)
    requires i < |s.rows| && j < |s.rows| && i < |s'.rows|
  {
    s'.rows[i].Committed() && Unwrapped(s', s'.rows[i].binding) ==>
      && s'.rows[i].binding == s.rows[i].binding && Unwrapped(s, s.rows[i].binding)
      && (step.DoCommit? && step.i == i && j != i && s.rows[j].Committed() && s.rows[j].binding == s.rows[i].binding ==>
            s.rows[j].order < s'.rows[i].order)
  }

  lemma CommittedBinding(s: Sys, step: Step, i: nat)
    requires Inv(s) && Enabled(s, step) && i < |s.rows| && AllFields(s, step, Apply(s, step))
    requires Apply(s, step).rows[i].Committed()
    ensures var b := s.rows[i].binding;
      Apply(s, step).rows[i].binding == b && b in s.bindings && b in s.used
  {
    AtRow(s, i);
    assert FieldsStep(s, step, i, Apply(s, step).rows[i]);
  }

  lemma StepGrows(s: Sys, step: Step, i: nat, j: nat)
    requires Inv(s) && Ordered(s) && Enabled(s, step) && i < |s.rows| && j < |s.rows| && AllFields(s, step, Apply(s, step))
    ensures NumbersGrow(s, step, Apply(s, step), i, j)
  {
    var s' := Apply(s, step);
    if s'.rows[i].Committed() && Unwrapped(s', s'.rows[i].binding) {
      CommittedBinding(s, step, i);
      StaysUnwrapped(s, step, s.rows[i].binding);
      if step.DoCommit? && step.i == i && j != i && s.rows[j].Committed() && s.rows[j].binding == s.rows[i].binding {
        LargerNumber(s, i, step.now, j);
      }
    }
  }

  lemma InOrderStep(s: Sys, step: Step, t: Trace, i: nat, j: nat, s': Sys)
    requires i < |s.rows| && j < |s.rows| && |s.rows| == |s'.rows|
    requires InOrder(s, t, i, j) && FieldsStep(s, step, i, s'.rows[i]) && FieldsStep(s, step, j, s'.rows[j])
    requires NumbersGrow(s, step, s', i, j) && NumbersGrow(s, step, s', j, i)
    ensures InOrder(s', Then(t, step), i, j)
  {
    if s'.rows[i].Committed() { CommittedStays(s, step, t, i, s'.rows[i]); }
    if s'.rows[j].Committed() { CommittedStays(s, step, t, j, s'.rows[j]); }
  }

  lemma {:induction false} PlacesInOrder(n: nat, t: Trace, i: nat, j: nat)
    requires Runs(Started(n), t) && i < n && j < n
    ensures |After(Started(n), t).rows| == n && InOrder(After(Started(n), t), t, i, j)
  {
    if t.Then? {
      var s := After(Started(n), t.before);
      StartedInv(n);
      EgressRuns.RunKeeps(Started(n), t.before);
      PlacesInOrder(n, t.before, i, j);
      StepFields(s, t.step);
      StepGrows(s, t.step, i, j);
      StepGrows(s, t.step, j, i);
      InOrderStep(s, t.step, t.before, i, j, Apply(s, t.step));
    }
  }

  /** While its binding has made fewer than 2^64 commits, a row can be picked exactly when it is its turn. */
  lemma TurnExactly(n: nat, t: Trace, i: nat, now: nat)
    requires Runs(Started(n), t) && i < n
    ensures var s := After(Started(n), t);
      |s.rows| == n && (Unwrapped(s, s.rows[i].binding) ==> (Eligible(s, i, now) <==> MayGo(s, t, i, now)))
  {
    var s := After(Started(n), t);
    RowsTellTheRun(n, t);
    assert Told(s.rows[i], t, i);
    UpExactly(n, t, s.rows[i].binding);
    if s.rows[i].phase.Ready? && Unwrapped(s, s.rows[i].binding) {
      forall j | 0 <= j < n
        ensures Overtakes(s, t, j, i) <==> s.rows[j].binding == s.rows[i].binding && s.rows[j].Committed() && s.rows[j].order < s.rows[i].order
      {
        PlacesInOrder(n, t, j, i);
      }
    }
  }
}
