/**
 Why a run of a transition failed: what the evaluator reported where the walk stops, a scope that could
 not be copied, or a leaf that was not granted what it needs.
 */
module CcxmlCauses {
  import opened CcxmlTree
  import opened CcxmlMachine
  import opened CcxmlSession
  import opened CcxmlTransaction
  import opened CcxmlEffects

  /** The allocator could not copy a scope. */
  predicate CopyFailed(from: seq<Entry>, log: seq<Entry>) {
    exists j :: |from| <= j < |log| && log[j] == Copied(false)
  }

  /** The `i`th leaf that the walk meets, run at some later point of the history, ends like this. */
  predicate LeafEnds(w: World, from: seq<Entry>, k: Walk, i: nat, at: Run, res: Result) {
    && i < |k.met| && from <= at.log && at.scope == k.met[i].scope
    && ExecLeaf(w, Unbounded, k.met[i].action, at) == res
  }

  ghost predicate Cause(w: World, from: seq<Entry>, res: Result, k: Walk) {
    res.Failed? ==>
      || k.way == Stopped(res.error)
      || (res.error == InvalidContract && CopyFailed(from, res.run.log))
      || exists i, at :: LeafEnds(w, from, k, i, at, res)
  }

  lemma Sooner(w: World, early: seq<Entry>, from: seq<Entry>, res: Result, k: Walk)
    requires early <= from && Cause(w, from, res, k)
    ensures Cause(w, early, res, k)
  {
    if i, at :| LeafEnds(w, from, k, i, at, res) { assert LeafEnds(w, early, k, i, at, res); }
  }

  lemma After(w: World, from: seq<Entry>, met: seq<Visit>, res: Result, k: Walk)
    requires Cause(w, from, res, k)
    ensures Cause(w, from, res, k.Since(met))
  {
    if i, at :| LeafEnds(w, from, k, i, at, res) { assert LeafEnds(w, from, k.Since(met), |met| + i, at, res); }
  }

  lemma Before(w: World, from: seq<Entry>, res: Result, k1: Walk, k2: Walk)
    requires Cause(w, from, res, k1) && k1.way.On?
    ensures Cause(w, from, res, k2.Since(k1.met))
  {
    if i, at :| LeafEnds(w, from, k1, i, at, res) { assert LeafEnds(w, from, k2.Since(k1.met), i, at, res); }
  }

  lemma {:induction false} NodeCause(w: World, most: nat, n: Node, r: Run)
    requires Counts(r)
    ensures Cause(w, r.log, ExecNode(w, most, n, r), WalkNode(w, most, n, r.scope))
    decreases Size(n), 0, 1
  {
    match n
    case Leaf(a, _) =>
      if !a.Exit? { assert LeafEnds(w, r.log, WalkNode(w, most, n, r.scope), 0, r, ExecLeaf(w, Unbounded, a, r)); }
    case If(c, _, kids) =>
      var body := Branch(w, c, kids, r.scope);
      BranchRuns(w, most, c, kids, r);
      if body.Value? { AllCause(w, most, body.value, r); }
    case Foreach(_, _, _) => LoopCause(w, most, n, r);
    case _ =>
  }

  lemma {:induction false} LoopCause(w: World, most: nat, n: Node, r: Run)
    requires n.Foreach? && Counts(r)
    ensures Cause(w, r.log, ExecNode(w, most, n, r), WalkNode(w, most, n, r.scope))
    decreases Size(n), 0, 0
  {
    var (begun, r1) := BeginBlock(w, r);
    BeginStays(w, r);
    if begun {
      var elements, init := w.open(n.loop, r.scope), w.init(n.loop);
      if elements.Value? && |elements.value| <= most && init.Value? {
        TurnsCause(w, most, n.loop, elements.value, 0, n.kids, r1);
        assert r1.scope == r.scope && r.log <= r1.log;
        assert ExecNode(w, most, n, r) == ExecForeach(w, most, n.loop, n.kids, r);
        Sooner(w, r.log, r1.log, Iterations(w, most, n.loop, elements.value, 0, n.kids, r1), WalkNode(w, most, n, r.scope));
      }
    } else {
      var j := |r1.log| - 1;
      assert r1.log[j] == Copied(false);
      assert Fail(r1, InvalidContract).run.log[j] == Copied(false);
    }
  }

  /** A run that fails has a cause on its walk. What makes a leaf fail say `PlainLeaf` and `GeneratingLeaf`. */
  lemma {:induction false} AllCause(w: World, most: nat, kids: Nodes, r: Run)
    requires Counts(r)
    ensures Cause(w, r.log, ExecRun(w, most, kids, r), WalkAll(w, most, kids, r.scope))
    decreases SizeAll(kids), 0, 2
  {
    if kids.Cons? && !kids.head.Marker() {
      NodeFollows(w, most, kids.head, r);
      NodeCause(w, most, kids.head, r);
      var first, k := ExecNode(w, most, kids.head, r), WalkNode(w, most, kids.head, r.scope);
      var res, rest := ExecRun(w, most, kids, r), WalkAll(w, most, kids.tail, k.scope);
      if first.Normal? {
        TurnFollows(w, r, first, k);
        AllCause(w, most, kids.tail, first.run);
        Sooner(w, r.log, first.run.log, res, rest);
        After(w, r.log, k.met, res, rest);
      } else if first.Failed? && k.way.On? {
        Before(w, r.log, first, k, rest);
      }
    }
  }

  lemma {:induction false} TurnsCause(
    w: World, most: nat, loop: string, elements: seq<int>, i: nat, kids: Nodes, r: Run)
    requires i <= |elements| && Counts(r)
    ensures Cause(w, r.log, Iterations(w, most, loop, elements, i, kids, r),
                  WalkLoop(w, most, loop, elements, i, kids, r.scope))
    decreases SizeAll(kids), 1, |elements| - i
  {
    if i < |elements| {
      var (bound, answer) := w.bind(loop, elements, i, r.scope);
      var r1 := r.(scope := bound);
      if answer.Value? {
        AllFollows(w, most, kids, r1);
        AllCause(w, most, kids, r1);
        var first, k := ExecRun(w, most, kids, r1), WalkAll(w, most, kids, bound);
        var res, rest := Iterations(w, most, loop, elements, i, kids, r), WalkLoop(w, most, loop, elements, i + 1, kids, k.scope);
        if first.Normal? {
          TurnFollows(w, r1, first, k);
          TurnsCause(w, most, loop, elements, i + 1, kids, first.run);
          Sooner(w, r.log, first.run.log, res, rest);
          After(w, r.log, k.met, res, rest);
        } else if first.Failed? && k.way.On? {
          Before(w, r.log, first, k, rest);
        }
      }
    }
  }
}
