/**
 The row machine started on the compiled rows of an admitted tree does what the
 structural interpreter does on the tree, and stops.
 */
module CcxmlSimulation {
  import opened CcxmlTree
  import opened CcxmlCompile
  import opened CcxmlMachine

  // ----- many steps --------------------------------------------------------

  /** The first `k` steps fail no check of the machine's own. */
  predicate Clean(c: Config, m: Machine, k: nat)
    requires c.Valid()
    decreases k
  {
    k == 0 || (Checked(c, m) && Clean(c, Step(c, m), k - 1))
  }

  ghost predicate Reaches(c: Config, m: Machine, m': Machine)
    requires c.Valid()
  {
    exists k :: Iterate(c, m, k) == m' && Clean(c, m, k)
  }

  lemma {:induction false} IterateAdd(c: Config, m: Machine, j: nat, k: nat)
    requires c.Valid()
    ensures Iterate(c, Iterate(c, m, j), k) == Iterate(c, m, j + k)
    ensures Clean(c, m, j) && Clean(c, Iterate(c, m, j), k) ==> Clean(c, m, j + k)
    decreases j
  {
    if j != 0 { IterateAdd(c, Step(c, m), j - 1, k); }
  }

  lemma {:induction false} CleanAt(c: Config, m: Machine, j: nat, k: nat)
    requires c.Valid() && Clean(c, m, k) && j < k
    ensures Checked(c, Iterate(c, m, j))
    decreases j
  {
    if j != 0 { CleanAt(c, Step(c, m), j - 1, k - 1); }
  }

  lemma Chain(c: Config, a: Machine, b: Machine, d: Machine)
    requires c.Valid() && Reaches(c, a, b) && Reaches(c, b, d)
    ensures Reaches(c, a, d)
  {
    var j :| Iterate(c, a, j) == b && Clean(c, a, j);
    var k :| Iterate(c, b, k) == d && Clean(c, b, k);
    IterateAdd(c, a, j, k);
  }

  lemma Here(c: Config, m: Machine)
    requires c.Valid()
    ensures Reaches(c, m, m)
  {
    assert Iterate(c, m, 0) == m && Clean(c, m, 0);
  }

  lemma One(c: Config, m: Machine)
    requires c.Valid() && Checked(c, m)
    ensures Reaches(c, m, Step(c, m))
  {
    assert Iterate(c, Step(c, m), 0) == Step(c, m) && Clean(c, Step(c, m), 0);
    assert Iterate(c, m, 1) == Step(c, m) && Clean(c, m, 1);
  }

  // ----- what simulation keeps ---------------------------------------------

  /** The committed bindings and an outer checkpoint are untouched. */
  ghost predicate Keeps(s: Scopes, s': Scopes) {
    && s'.committed == s.committed && s'.checkpointLive == s.checkpointLive
    && (s.checkpointLive ==> s'.checkpoint == s.checkpoint)
  }

  /** A live foreach frame goes with a live checkpoint of a pending transaction. */
  ghost predicate LoopOk(m: Machine) {
    m.loop.Live? == m.scopes.checkpointLive && (m.scopes.checkpointLive ==> m.scopes.pending)
  }

  /** Machine `m'` is where `m` must be after the interpreter answered `res`. */
  ghost predicate Matches(m: Machine, m': Machine, res: Result, target: nat) {
    m'.scopes.committed == m.scopes.committed &&
    match res
    case Normal(r) =>
      && m'.halt.Running? && m'.pc == target && m'.frames == m.frames && m'.loop == m.loop
      && m'.Progress() == r && Keeps(m.scopes, m'.scopes) && LoopOk(m')
    case Exited(r) => m'.halt == Finished(true) && m'.Progress() == r && LoopOk(m')
    case Failed(e, r) =>
      m'.halt == Faulted(e) && m'.log == r.log && m'.journal == r.journal && m'.token == r.token
  }

  lemma MatchesOn(m: Machine, m1: Machine, m': Machine, r: Run, res: Result, mid: nat, target: nat)
    requires Matches(m, m1, Normal(r), mid) && Matches(m1, m', res, target)
    ensures Matches(m, m', res, target)
  {
  }

  /** Room for `rows` rows from `pos` and for `effects` more tickets. */
  ghost predicate Ready(c: Config, m: Machine, pos: nat, rows: nat, effects: nat, hasLoop: bool) {
    && c.Valid() && m.halt.Running? && LoopOk(m)
    && c.first <= pos && pos + rows <= c.Limit()
    && |m.frames| + rows <= c.frameCapacity && |m.journal| + effects <= c.ticketCapacity
    && (hasLoop ==> m.loop.Idle?)
  }

  // ----- journals stay within the declared effects -------------------------

  lemma {:induction false} EffectsBoundNode(w: World, most: nat, n: Node, r: Run)
    ensures var res := ExecNode(w, most, n, r);
            !res.Failed? ==> |res.run.journal| <= |r.journal| + Effects(n, most)
    decreases n, 0
  {
    match n
    case If(c, _, kids) => EffectsBoundIf(w, most, c, kids, r);
    case Foreach(l, _, kids) => EffectsBoundForeach(w, most, l, kids, r);
    case _ =>
  }

  lemma {:induction false} EffectsBoundRun(w: World, most: nat, kids: Nodes, r: Run)
    ensures var res := ExecRun(w, most, kids, r);
            !res.Failed? ==> |res.run.journal| <= |r.journal| + EffectsAll(kids, most)
    decreases kids, 0
  {
    if kids.Cons? && !kids.head.Marker() {
      EffectsBoundNode(w, most, kids.head, r);
      var res := ExecNode(w, most, kids.head, r);
      if res.Normal? { EffectsBoundRun(w, most, kids.tail, res.run); }
    }
  }

  lemma {:induction false} EffectsBoundIf(w: World, most: nat, cond: string, kids: Nodes, r: Run)
    ensures var res := ExecIf(w, most, cond, kids, r);
            !res.Failed? ==> |res.run.journal| <= |r.journal| + EffectsAll(kids, most)
    decreases kids, 2
  {
    EffectsBoundRun(w, most, kids, r);
    EffectsBoundElse(w, most, kids, r);
  }

  lemma {:induction false} EffectsBoundElse(w: World, most: nat, kids: Nodes, r: Run)
    ensures var res := ExecElse(w, most, kids, r);
            !res.Failed? ==> |res.run.journal| <= |r.journal| + EffectsAll(kids, most)
    decreases kids, 1
  {
    match kids
    case Nil =>
    case Cons(ElseIf(c, _), tail) => EffectsBoundIf(w, most, c, tail, r);
    case Cons(Else, tail) => EffectsBoundRun(w, most, tail, r);
    case Cons(_, tail) => EffectsBoundElse(w, most, tail, r);
  }

  lemma {:induction false} EffectsBoundForeach(w: World, most: nat, loop: string, kids: Nodes, r: Run)
    ensures var res := ExecForeach(w, most, loop, kids, r);
            !res.Failed? ==> |res.run.journal| <= |r.journal| + EffectsAll(kids, most) * most
    decreases kids, 2
  {
    var r1 := BeginBlock(w, r).1;
    var answer := w.open(loop, r1.scope);
    if answer.Value? && |answer.value| <= most {
      EffectsBoundIterations(w, most, loop, answer.value, 0, kids, r1);
      RepeatBound(EffectsAll(kids, most), |answer.value|, most);
    }
  }

  /** `x` charged `n` times. */
  function Repeat(x: nat, n: nat): nat { if n == 0 then 0 else x + Repeat(x, n - 1) }

  lemma {:induction false} RepeatBound(x: nat, n: nat, most: nat)
    requires n <= most
    ensures Repeat(x, n) == x * n <= x * most
  {
    if n != 0 { RepeatBound(x, n - 1, most); }
  }

  lemma {:induction false} EffectsBoundIterations(
    w: World, most: nat, loop: string, elements: seq<int>, i: nat, kids: Nodes, r: Run)
    requires i <= |elements|
    ensures var res := Iterations(w, most, loop, elements, i, kids, r);
            !res.Failed? ==> |res.run.journal| <= |r.journal| + Repeat(EffectsAll(kids, most), |elements| - i)
    decreases kids, 1, |elements| - i
  {
    if i < |elements| {
      var r1 := r.(scope := w.bind(loop, elements, i, r.scope).0);
      EffectsBoundRun(w, most, kids, r1);
      var res := ExecRun(w, most, kids, r1);
      if res.Normal? { EffectsBoundIterations(w, most, loop, elements, i + 1, kids, res.run); }
    }
  }

  // ----- where branch markers are ------------------------------------------

  lemma {:induction false} NoMarkers(kids: Nodes, pos: nat)
    requires BranchesAdmitted(kids, true)
    ensures NextMarker(kids, pos) == pos + SizeAll(kids)
  {
    if kids.Cons? { NoMarkers(kids.tail, pos + Size(kids.head)); }
  }

  lemma {:induction false} BlockHasNoMarkers(kids: Nodes)
    requires BlockAdmitted(kids)
    ensures BranchesAdmitted(kids, true)
  {
    if kids.Cons? { BlockHasNoMarkers(kids.tail); }
  }

  /** The row control meets after a branch body: the block's end or one of its own markers. */
  lemma {:induction false} MarkerRow(rows: seq<Row>, kids: Nodes, pos: nat, owner: nat, end: nat, seen: bool)
    requires CodedAll(rows, kids, pos, owner, end) && BranchesAdmitted(kids, seen)
    requires end == pos + SizeAll(kids) < |rows|
    ensures var q := NextMarker(kids, pos);
            q == end || rows[q] == ElseRow(end, end)
            || (rows[q].ElseIfRow? && rows[q].end == end && q < rows[q].next <= end)
  {
    if kids.Cons? {
      CodedSplit(rows, kids, pos, owner, end);
      if kids.head.Else? {
        NoMarkers(kids.tail, pos + 1);
      } else if !kids.head.ElseIf? {
        MarkerRow(rows, kids.tail, pos + Size(kids.head), owner, end, seen);
      }
    }
  }

  // ----- simulation --------------------------------------------------------

  lemma {:induction false} SimNode(c: Config, n: Node, pos: nat, m: Machine) returns (m': Machine)
    requires Ready(c, m, pos, Size(n), Effects(n, c.mostIterations), HasForeach(n)) && m.pc == pos
    requires Admitted(n) && Coded(c.rows, n, pos)
    ensures Reaches(c, m, m')
    ensures Matches(m, m', ExecNode(c.w, c.mostIterations, n, m.Progress()), pos + Size(n))
    decreases n, 0
  {
    match n
    case Leaf(a, _) =>
      assert c.rows[pos] == LowerItem(ItemAt(n, pos, pos), 0) == LeafRow(a);
      RoomForLeaf(c.w, c.ticketCapacity, a, m.Progress());
      One(c, m);
      m' := Step(c, m);
    case If(_, _, _) => m' := SimIf(c, n, pos, m);
    case Foreach(_, _, _) => m' := SimForeach(c, n, pos, m);
  }

  /** After the first of several children there is still room for the others. */
  lemma ReadyForTail(c: Config, kids: Nodes, pos: nat, m: Machine, m1: Machine)
    requires kids.Cons?
    requires Ready(c, m, pos, SizeAll(kids), EffectsAll(kids, c.mostIterations), AnyForeach(kids))
    requires ExecNode(c.w, c.mostIterations, kids.head, m.Progress()).Normal?
    requires Matches(m, m1, ExecNode(c.w, c.mostIterations, kids.head, m.Progress()), pos + Size(kids.head))
    ensures Ready(c, m1, pos + Size(kids.head), SizeAll(kids.tail), EffectsAll(kids.tail, c.mostIterations), AnyForeach(kids.tail))
  {
    EffectsBoundNode(c.w, c.mostIterations, kids.head, m.Progress());
  }

  /** Children in order, up to the next marker. */
  lemma {:induction false} SimRun(c: Config, kids: Nodes, pos: nat, owner: nat, end: nat, seen: bool, m: Machine)
    returns (m': Machine)
    requires Ready(c, m, pos, SizeAll(kids), EffectsAll(kids, c.mostIterations), AnyForeach(kids)) && m.pc == pos
    requires BranchesAdmitted(kids, seen) && CodedAll(c.rows, kids, pos, owner, end)
    ensures Reaches(c, m, m')
    ensures Matches(m, m', ExecRun(c.w, c.mostIterations, kids, m.Progress()), NextMarker(kids, pos))
    decreases kids, 0
  {
    if kids.Nil? || kids.head.Marker() {
      Here(c, m);
      m' := m;
    } else {
      CodedSplit(c.rows, kids, pos, owner, end);
      var m1 := SimNode(c, kids.head, pos, m);
      var res := ExecNode(c.w, c.mostIterations, kids.head, m.Progress());
      m' := m1;
      if res.Normal? {
        ReadyForTail(c, kids, pos, m, m1);
        m' := SimRun(c, kids.tail, pos + Size(kids.head), owner, end, seen, m1);
        Chain(c, m, m1, m');
        var rest := ExecRun(c.w, c.mostIterations, kids.tail, res.run);
        assert ExecRun(c.w, c.mostIterations, kids, m.Progress()) == rest;
        MatchesOn(m, m1, m', res.run, rest, pos + Size(kids.head), NextMarker(kids, pos));
      }
    }
  }

  /** A branch body that was chosen: run it, then leave the block past its end. */
  lemma {:induction false} SimTaken(
    c: Config, kids: Nodes, pos: nat, owner: nat, end: nat, seen: bool, outer: seq<Frame>, m: Machine)
    returns (m': Machine)
    requires Ready(c, m, pos, SizeAll(kids) + 1, EffectsAll(kids, c.mostIterations), AnyForeach(kids)) && m.pc == pos
    requires BranchesAdmitted(kids, seen) && CodedAll(c.rows, kids, pos, owner, end)
    requires end == pos + SizeAll(kids) && c.rows[end] == EndIfRow
    requires m.frames == outer + [Frame(end, true)]
    ensures Reaches(c, m, m')
    ensures Matches(m.(frames := outer), m', ExecRun(c.w, c.mostIterations, kids, m.Progress()), end + 1)
    decreases kids, 1
  {
    var m1 := SimRun(c, kids, pos, owner, end, seen, m);
    m' := m1;
    if ExecRun(c.w, c.mostIterations, kids, m.Progress()).Normal? {
      MarkerRow(c.rows, kids, pos, owner, end, seen);
      LeaveBlock(c, m1, end, outer);
      m' := Pop(m1, end + 1);
      Chain(c, m, m1, m');
    }
  }

  lemma LeaveBlock(c: Config, m: Machine, end: nat, outer: seq<Frame>)
    requires c.Valid() && m.halt.Running? && c.first <= m.pc <= end < c.Limit()
    requires m.frames == outer + [Frame(end, true)]
    requires || (m.pc == end && c.rows[end] == EndIfRow) || c.rows[m.pc] == ElseRow(end, end)
             || (c.rows[m.pc].ElseIfRow? && c.rows[m.pc].end == end && m.pc < c.rows[m.pc].next <= end)
    ensures Reaches(c, m, Pop(m, end + 1)) && Pop(m, end + 1).frames == outer
  {
    assert Step(c, m) == Pop(m, end + 1);
    One(c, m);
  }

  lemma EnterElse(c: Config, end: nat, outer: seq<Frame>, m: Machine) returns (m': Machine)
    requires c.Valid() && m.halt.Running? && c.first <= m.pc < end < c.Limit()
    requires m.frames == outer + [Frame(end, false)] && c.rows[m.pc] == ElseRow(end, end)
    ensures Reaches(c, m, m') && m' == m.(frames := outer + [Frame(end, true)], pc := m.pc + 1)
  {
    One(c, m);
    m' := Step(c, m);
    assert m'.frames == outer + [Frame(end, true)];
  }

  lemma EndBlock(c: Config, end: nat, outer: seq<Frame>, m: Machine) returns (m': Machine)
    requires c.Valid() && m.halt.Running? && c.first <= m.pc == end < c.Limit()
    requires |m.frames| == |outer| + 1 && m.frames[..|outer|] == outer && m.frames[|outer|].end == end
    requires c.rows[end] == EndIfRow
    ensures Reaches(c, m, m') && m' == m.(frames := outer, pc := end + 1)
  {
    One(c, m);
    m' := Step(c, m);
  }

  /** No branch chosen so far: control stands at the next marker, or at the block's end. */
  lemma {:induction false} SimElse(
    c: Config, kids: Nodes, pos: nat, owner: nat, end: nat, seen: bool, outer: seq<Frame>, m: Machine)
    returns (m': Machine)
    requires Ready(c, m, pos, SizeAll(kids) + 1, EffectsAll(kids, c.mostIterations), AnyForeach(kids))
    requires m.pc == NextMarker(kids, pos)
    requires BranchesAdmitted(kids, seen) && CodedAll(c.rows, kids, pos, owner, end)
    requires end == pos + SizeAll(kids) && c.rows[end] == EndIfRow
    requires m.frames == outer + [Frame(end, false)]
    ensures Reaches(c, m, m')
    ensures Matches(m.(frames := outer), m', ExecElse(c.w, c.mostIterations, kids, m.Progress()), end + 1)
    decreases kids, 2
  {
    if kids.Nil? {
      m' := EndBlock(c, end, outer, m);
    } else if kids.head.Marker() {
      m' := SimMarker(c, kids, pos, owner, end, seen, outer, m);
    } else {
      CodedSplit(c.rows, kids, pos, owner, end);
      assert ExecElse(c.w, c.mostIterations, kids, m.Progress())
          == ExecElse(c.w, c.mostIterations, kids.tail, m.Progress());
      m' := SimElse(c, kids.tail, pos + Size(kids.head), owner, end, seen, outer, m);
    }
  }

  lemma {:induction false} SimMarker(
    c: Config, kids: Nodes, pos: nat, owner: nat, end: nat, seen: bool, outer: seq<Frame>, m: Machine)
    returns (m': Machine)
    requires kids.Cons? && kids.head.Marker() && m.pc == pos
    requires Ready(c, m, pos, SizeAll(kids) + 1, EffectsAll(kids, c.mostIterations), AnyForeach(kids))
    requires BranchesAdmitted(kids, seen) && CodedAll(c.rows, kids, pos, owner, end)
    requires end == pos + SizeAll(kids) && c.rows[end] == EndIfRow
    requires m.frames == outer + [Frame(end, false)]
    ensures Reaches(c, m, m')
    ensures Matches(m.(frames := outer), m', ExecElse(c.w, c.mostIterations, kids, m.Progress()), end + 1)
    decreases kids, 1
  {
    CodedSplit(c.rows, kids, pos, owner, end);
    if kids.head.ElseIf? {
      m' := SimTest(c, kids.head.cond, kids.tail, pos + 1, owner, end, false, outer, m);
    } else {
      NoMarkers(kids.tail, pos + 1);
      var m1 := EnterElse(c, end, outer, m);
      m' := SimTaken(c, kids.tail, pos + 1, owner, end, true, outer, m1);
      Chain(c, m, m1, m');
    }
  }

  /** A condition row standing just before `kids`, its frame on top of the stack. */
  lemma {:induction false} SimTest(
    c: Config, cond: string, kids: Nodes, pos: nat, owner: nat, end: nat, seen: bool, outer: seq<Frame>, m: Machine)
    returns (m': Machine)
    requires 0 < pos && Ready(c, m, pos - 1, SizeAll(kids) + 2, EffectsAll(kids, c.mostIterations), AnyForeach(kids))
    requires m.pc == pos - 1
    requires BranchesAdmitted(kids, seen) && CodedAll(c.rows, kids, pos, owner, end)
    requires end == pos + SizeAll(kids) && c.rows[end] == EndIfRow
    requires m.frames == outer + [Frame(end, false)]
    requires c.rows[pos - 1] == ElseIfRow(cond, NextMarker(kids, pos), end)
    ensures Reaches(c, m, m')
    ensures Matches(m.(frames := outer), m', ExecIf(c.w, c.mostIterations, cond, kids, m.Progress()), end + 1)
    decreases kids, 4
  {
    One(c, m);
    var m1 := Step(c, m);
    assert m1 == Test(c, m, c.rows[pos - 1]);
    m' := SimTested(c, cond, kids, pos, owner, end, seen, outer, m, m1);
    Chain(c, m, m1, m');
  }

  /** After a condition was evaluated. */
  lemma {:induction false} SimTested(
    c: Config, cond: string, kids: Nodes, pos: nat, owner: nat, end: nat, seen: bool, outer: seq<Frame>,
    m: Machine, m1: Machine)
    returns (m': Machine)
    requires 0 < pos && Ready(c, m, pos, SizeAll(kids) + 1, EffectsAll(kids, c.mostIterations), AnyForeach(kids))
    requires BranchesAdmitted(kids, seen) && CodedAll(c.rows, kids, pos, owner, end)
    requires end == pos + SizeAll(kids) && c.rows[end] == EndIfRow
    requires m.frames == outer + [Frame(end, false)] && m.pc == pos - 1
    requires m1 == Test(c, m, ElseIfRow(cond, NextMarker(kids, pos), end))
    ensures Reaches(c, m1, m')
    ensures Matches(m.(frames := outer), m', ExecIf(c.w, c.mostIterations, cond, kids, m.Progress()), end + 1)
    decreases kids, 3
  {
    match c.w.cond(cond, m.scopes.Visible())
    case Fault(e) =>
      Here(c, m1);
      m' := m1;
    case Value(holds) =>
      assert m1.frames == outer + [Frame(end, holds)];
      assert m1.Progress() == m.Progress();
      if holds {
        m' := SimTaken(c, kids, pos, owner, end, seen, outer, m1);
      } else {
        m' := SimElse(c, kids, pos, owner, end, seen, outer, m1);
      }
  }

  lemma {:induction false} SimIf(c: Config, n: Node, pos: nat, m: Machine) returns (m': Machine)
    requires n.If? && Ready(c, m, pos, Size(n), Effects(n, c.mostIterations), HasForeach(n)) && m.pc == pos
    requires Admitted(n) && Coded(c.rows, n, pos)
    ensures Reaches(c, m, m')
    ensures Matches(m, m', ExecNode(c.w, c.mostIterations, n, m.Progress()), pos + Size(n))
    decreases n.kids, 5
  {
    var end := pos + 1 + SizeAll(n.kids);
    CodedBody(c.rows, n, pos);
    One(c, m);
    var m0 := m.(frames := m.frames + [Frame(end, false)]);
    var row := ElseIfRow(n.cond, NextMarker(n.kids, pos + 1), end);
    assert Step(c, m) == Test(c, m0, c.rows[pos]) == Test(c, m0, row);
    m' := SimTested(c, n.cond, n.kids, pos + 1, pos, end, false, m.frames, m0, Step(c, m));
    Chain(c, m, Step(c, m), m');
    assert m0.(frames := m.frames) == m;
  }

  // ----- foreach -----------------------------------------------------------

  lemma BeginAgrees(w: World, m: Machine)
    requires LoopOk(m) && m.loop.Idle?
    ensures BeginScopes(w, m).0 == BeginBlock(w, m.Progress()).0
    ensures BeginScopes(w, m).1.Progress() == BeginBlock(w, m.Progress()).1
    ensures var m1 := BeginScopes(w, m).1;
            && m1.scopes.committed == m.scopes.committed
            && m1 == m.(scopes := m1.scopes, log := m1.log)
            && (BeginScopes(w, m).0 ==> m1.scopes.pending && m1.scopes.checkpointLive)
  {
  }

  /** The rest of a loop once element `i` is bound. */
  function AfterBind(w: World, most: nat, loop: string, elements: seq<int>, i: nat, kids: Nodes, r: Run): Result
    requires i < |elements|
  {
    match ExecRun(w, most, kids, r)
    case Normal(r2) => Iterations(w, most, loop, elements, i + 1, kids, r2)
    case other => other
  }

  ghost function Outside(m: Machine): Machine {
    m.(loop := Idle, scopes := m.scopes.(checkpointLive := false))
  }

  /** The loop binds its first element. */
  ghost predicate Loops(c: Config, n: Node, m1: Machine, begun: bool)
    requires n.Foreach?
  {
    begun &&
    var answer := c.w.open(n.loop, m1.scopes.staging.content);
    answer.Value? && 0 < |answer.value| <= c.mostIterations && c.w.init(n.loop).Value?
    && c.w.bind(n.loop, answer.value, 0, m1.scopes.staging.content).1.Value?
  }

  lemma EmptyOrFailed(c: Config, n: Node, pos: nat, m: Machine)
    requires n.Foreach? && Ready(c, m, pos, Size(n), 0, true) && m.pc == pos
    requires c.rows[pos] == ForeachRow(n.loop, pos + 1, pos + Size(n))
    requires !Loops(c, n, BeginScopes(c.w, m).1, BeginScopes(c.w, m).0)
    ensures Matches(m, Step(c, m), ExecForeach(c.w, c.mostIterations, n.loop, n.kids, m.Progress()), pos + Size(n))
  {
    BeginAgrees(c.w, m);
    var (begun, m1) := BeginScopes(c.w, m);
    assert Step(c, m) == StepForeach(c, m, c.rows[pos]);
    if begun {
      var answer := c.w.open(n.loop, m1.scopes.staging.content);
      if answer.Value? && |answer.value| <= c.mostIterations && c.w.init(n.loop).Value? {
        var r := m1.Progress();
        assert ExecForeach(c.w, c.mostIterations, n.loop, n.kids, m.Progress())
            == Iterations(c.w, c.mostIterations, n.loop, answer.value, 0, n.kids, r);
      }
    }
  }

  lemma {:induction false} SimForeach(c: Config, n: Node, pos: nat, m: Machine) returns (m': Machine)
    requires n.Foreach? && Ready(c, m, pos, Size(n), Effects(n, c.mostIterations), true) && m.pc == pos
    requires Admitted(n) && Coded(c.rows, n, pos)
    ensures Reaches(c, m, m')
    ensures Matches(m, m', ExecNode(c.w, c.mostIterations, n, m.Progress()), pos + Size(n))
    decreases n.kids, 5
  {
    CodedBody(c.rows, n, pos);
    BeginAgrees(c.w, m);
    One(c, m);
    m' := Step(c, m);
    var m1 := BeginScopes(c.w, m).1;
    if Loops(c, n, m1, BeginScopes(c.w, m).0) {
      var elements := c.w.open(n.loop, m1.scopes.staging.content).value;
      var m2 := BindElement(c.w, m1.(loop := Live(pos, 0, elements)), n.loop, elements, 0).0.Goto(pos + 1);
      RepeatBound(EffectsAll(n.kids, c.mostIterations), |elements|, c.mostIterations);
      assert ExecNode(c.w, c.mostIterations, n, m.Progress())
          == Iterations(c.w, c.mostIterations, n.loop, elements, 0, n.kids, m1.Progress());
      assert Iterations(c.w, c.mostIterations, n.loop, elements, 0, n.kids, m1.Progress())
          == AfterBind(c.w, c.mostIterations, n.loop, elements, 0, n.kids, m2.Progress());
      m' := SimIterations(c, n, pos, elements, 0, m2);
      Chain(c, m, m2, m');
    } else {
      EmptyOrFailed(c, n, pos, m);
    }
  }

  /** Inside the loop, element `i` bound, control at the first row of the body. */
  lemma {:induction false} SimIterations(c: Config, n: Node, pos: nat, elements: seq<int>, i: nat, m: Machine)
    returns (m': Machine)
    requires n.Foreach? && Admitted(n) && Coded(c.rows, n, pos)
    requires i < |elements| && m.loop == Live(pos, i, elements) && m.pc == pos + 1
    requires Ready(c, m, pos, Size(n), Repeat(EffectsAll(n.kids, c.mostIterations), |elements| - i), false)
    ensures Reaches(c, m, m')
    ensures Matches(Outside(m), m',
                    AfterBind(c.w, c.mostIterations, n.loop, elements, i, n.kids, m.Progress()), pos + Size(n))
    decreases n.kids, 3, |elements| - i, 1
  {
    CodedBody(c.rows, n, pos);
    BlockHasNoMarkers(n.kids);
    NoMarkers(n.kids, pos + 1);
    var end := pos + 1 + SizeAll(n.kids);
    var m1 := SimRun(c, n.kids, pos + 1, pos, end, true, m);
    m' := m1;
    var res := ExecRun(c.w, c.mostIterations, n.kids, m.Progress());
    if res.Normal? {
      EffectsBoundRun(c.w, c.mostIterations, n.kids, m.Progress());
      m' := SimEndForeach(c, n, pos, elements, i, m1);
      Chain(c, m, m1, m');
    }
  }

  lemma {:induction false} SimEndForeach(c: Config, n: Node, pos: nat, elements: seq<int>, i: nat, m: Machine)
    returns (m': Machine)
    requires n.Foreach? && Admitted(n) && Coded(c.rows, n, pos)
    requires i < |elements| && m.loop == Live(pos, i, elements) && m.pc == pos + Size(n) - 1
    requires Ready(c, m, pos, Size(n), Repeat(EffectsAll(n.kids, c.mostIterations), |elements| - i - 1), false)
    ensures Reaches(c, m, m')
    ensures Matches(Outside(m), m',
                    Iterations(c.w, c.mostIterations, n.loop, elements, i + 1, n.kids, m.Progress()), pos + Size(n))
    decreases n.kids, 3, |elements| - i, 0
  {
    CodedBody(c.rows, n, pos);
    One(c, m);
    m' := Step(c, m);
    assert m' == StepEndForeach(c, m, c.rows[m.pc]);
    if i + 1 < |elements| {
      var (m1, bound) := BindElement(c.w, m.(loop := Live(pos, i + 1, elements)), n.loop, elements, i + 1);
      if bound.Value? {
        assert m' == m1.Goto(pos + 1);
        m' := SimIterations(c, n, pos, elements, i + 1, m1.Goto(pos + 1));
        Chain(c, m, m1.Goto(pos + 1), m');
      }
    }
  }

  // ----- whole transitions -------------------------------------------------

  /** A machine about to run the transition of `c`. */
  ghost predicate Starting(c: Config, m: Machine) {
    && m.pc == c.first && m.frames == [] && m.journal == [] && m.loop.Idle? && m.halt.Running?
    && !m.scopes.checkpointLive && !m.scopes.pending
  }

  /** `c` holds the compiled rows of `kids` and is sized by its static counts. */
  ghost predicate Compiled(c: Config, kids: Nodes) {
    && c.Valid() && BlockAdmitted(kids) && c.count == SizeAll(kids)
    && CodedAll(c.rows, kids, c.first, c.first, c.first)
    && SizeAll(kids) <= c.frameCapacity && EffectsAll(kids, c.mostIterations) <= c.ticketCapacity
  }

  /** How a halted machine reports the interpreter's answer. */
  ghost predicate Reports(m: Machine, m': Machine, res: Result) {
    && m'.scopes.committed == m.scopes.committed
    && match res
       case Normal(r) => m'.halt == Finished(false) && m'.Progress() == r && LoopOk(m') && m'.frames == []
       case Exited(r) => m'.halt == Finished(true) && m'.Progress() == r && LoopOk(m')
       case Failed(e, r) => m'.halt == Faulted(e) && m'.log == r.log && m'.journal == r.journal && m'.token == r.token
  }

  /** Compiler correctness: the machine on the compiled rows halts, having prepared the same
      tickets in the same order, with the same exit flag or the same first error. */
  lemma CompiledRunsLikeTree(c: Config, kids: Nodes, m: Machine) returns (m': Machine, k: nat)
    requires Compiled(c, kids) && Starting(c, m)
    ensures m' == Iterate(c, m, k) && Clean(c, m, k)
    ensures Reports(m, m', ExecRun(c.w, c.mostIterations, kids, m.Progress()))
  {
    BlockHasNoMarkers(kids);
    NoMarkers(kids, c.first);
    m' := SimRun(c, kids, c.first, c.first, c.first, true, m);
    if ExecRun(c.w, c.mostIterations, kids, m.Progress()).Normal? {
      One(c, m');
      Chain(c, m, m', Step(c, m'));
      m' := Step(c, m');
    }
    k :| Iterate(c, m, k) == m' && Clean(c, m, k);
  }

  // ----- the machine's own checks ------------------------------------------

  lemma {:induction false} StaysHalted(c: Config, m: Machine, k: nat)
    requires c.Valid() && !m.halt.Running?
    ensures Iterate(c, m, k) == m
    decreases k
  {
    if k != 0 { StaysHalted(c, m, k - 1); }
  }

  lemma ForeachFaults(c: Config, m: Machine, row: Row)
    requires row.ForeachRow? && m.halt.Running? && RowChecked(c, m, row)
    ensures StepForeach(c, m, row).halt.Faulted? <==> Refuses(c, m, row)
  {
  }

  lemma LeafFaults(c: Config, m: Machine, a: LeafAction)
    requires m.halt.Running? && RowChecked(c, m, LeafRow(a))
    ensures StepLeaf(c, m, a).halt.Faulted? <==> Refuses(c, m, LeafRow(a))
  {
    RoomForLeaf(c.w, c.ticketCapacity, a, m.Progress());
  }

  /** A step whose own checks pass faults if and only if the outside refuses what its row asks. */
  lemma FaultsAreOutside(c: Config, m: Machine)
    requires c.Valid() && m.halt.Running? && Checked(c, m)
    ensures Step(c, m).halt.Faulted? <==> m.pc < c.Limit() && Refuses(c, m, c.rows[m.pc])
  {
    if m.pc < c.Limit() {
      var row := c.rows[m.pc];
      match row
      case ForeachRow(_, _, _) => ForeachFaults(c, m, row);
      case LeafRow(a) => LeafFaults(c, m, a);
      case EndForeachRow(_) =>
      case IfRow(_, _, _) =>
      case ElseIfRow(_, _, _) =>
      case ElseRow(_, _) =>
      case EndIfRow =>
    }
  }

  /** A control row that fails one of these checks does fault, so they are the checks made: for the limit if an
      if with good links finds the frame stack full, for the contract otherwise. */
  lemma UncheckedFaults(c: Config, m: Machine)
    requires c.Valid() && m.halt.Running? && !Checked(c, m)
    requires m.pc < c.Limit() ==> !c.rows[m.pc].LeafRow?
    ensures var full := m.pc < c.Limit() && c.rows[m.pc].IfRow? && LinksOk(c, c.rows[m.pc]);
      Step(c, m).halt == Faulted(if full then LimitExceeded else InvalidContract)
  {
  }

  /** Whatever evaluator, data model, allocator and adapters answer, no step of a compiled transition
      fails a link, frame, loop or journal check; what faults, faults because the outside refused. */
  lemma ControlNeverRefuses(c: Config, kids: Nodes, m: Machine, k: nat)
    requires Compiled(c, kids) && Starting(c, m)
    ensures Checked(c, Iterate(c, m, k))
    ensures var at := Iterate(c, m, k);
      at.halt.Running? ==>
        (Step(c, at).halt.Faulted? <==> at.pc < c.Limit() && Refuses(c, at, c.rows[at.pc]))
  {
    var m', n := CompiledRunsLikeTree(c, kids, m);
    if k < n {
      CleanAt(c, m, k, n);
    } else {
      IterateAdd(c, m, n, k - n);
      StaysHalted(c, m', k - n);
    }
    if Iterate(c, m, k).halt.Running? { FaultsAreOutside(c, Iterate(c, m, k)); }
  }

  // ----- safety of every state, whatever the rows --------------------------

  /** Inside the transition, within the frame and ticket arrays. */
  ghost predicate Safe(c: Config, m: Machine)
    requires c.Valid()
  {
    && c.first <= m.pc <= c.Limit()
    && |m.frames| <= c.frameCapacity && |m.journal| <= c.ticketCapacity
    && (forall i :: 0 <= i < |m.frames| ==> c.first <= m.frames[i].end < c.Limit())
    && (m.loop.Live? ==>
          && c.first <= m.loop.row < c.Limit()
          && c.rows[m.loop.row].ForeachRow? && c.rows[m.loop.row].next == m.loop.row + 1)
  }

  lemma TestSafe(c: Config, m: Machine, row: Row)
    requires c.Valid() && Safe(c, m) && m.pc < c.Limit() && m.frames != []
    requires (row.IfRow? || row.ElseIfRow?) && LinksOk(c, row)
    ensures Safe(c, Test(c, m, row))
  {
  }

  lemma IfSafe(c: Config, m: Machine, row: Row)
    requires c.Valid() && Safe(c, m) && m.pc < c.Limit() && row.IfRow?
    ensures Safe(c, StepIf(c, m, row))
  {
    if LinksOk(c, row) && |m.frames| < c.frameCapacity {
      TestSafe(c, m.(frames := m.frames + [Frame(row.end, false)]), row);
    }
  }

  lemma ElseIfSafe(c: Config, m: Machine, row: Row)
    requires c.Valid() && Safe(c, m) && m.pc < c.Limit() && row.ElseIfRow?
    ensures Safe(c, StepElseIf(c, m, row))
  {
    if LinksOk(c, row) && OwnsTop(m, row.end) && !m.frames[|m.frames| - 1].taken { TestSafe(c, m, row); }
  }

  lemma ElseSafe(c: Config, m: Machine, row: Row)
    requires c.Valid() && Safe(c, m) && m.pc < c.Limit() && row.ElseRow?
    ensures Safe(c, StepElse(m, row))
  {
  }

  lemma EndIfSafe(c: Config, m: Machine)
    requires c.Valid() && Safe(c, m) && m.pc < c.Limit()
    ensures Safe(c, StepEndIf(m))
  {
  }

  lemma ForeachSafe(c: Config, m: Machine, row: Row)
    requires c.Valid() && Safe(c, m) && m.pc < c.Limit() && row == c.rows[m.pc] && row.ForeachRow?
    ensures Safe(c, StepForeach(c, m, row))
  {
    BeginKeepsControl(c.w, m);
  }

  lemma BeginKeepsControl(w: World, m: Machine)
    ensures var m1 := BeginScopes(w, m).1; m1 == m.(scopes := m1.scopes, log := m1.log)
  {
  }

  lemma EndForeachSafe(c: Config, m: Machine, row: Row)
    requires c.Valid() && Safe(c, m) && m.pc < c.Limit() && row.EndForeachRow?
    ensures Safe(c, StepEndForeach(c, m, row))
  {
  }

  lemma LeafSafe(c: Config, m: Machine, a: LeafAction)
    requires c.Valid() && Safe(c, m) && m.pc < c.Limit()
    ensures Safe(c, StepLeaf(c, m, a))
  {
    BoundedLeaf(c.w, c.ticketCapacity, a, m.Progress());
  }

  lemma BoundedLeaf(w: World, tickets: nat, a: LeafAction, r: Run)
    requires |r.journal| <= tickets
    ensures |ExecLeaf(w, Bounded(tickets), a, r).run.journal| <= tickets
  {
  }

  /** No sequence of rows, compiled or not, makes the machine leave the transition or overrun
      its arrays: the checks on the control rows are enough on their own. */
  lemma {:induction false} AlwaysSafe(c: Config, m: Machine, k: nat)
    requires c.Valid() && Safe(c, m)
    ensures Safe(c, Iterate(c, m, k))
    decreases k
  {
    if k != 0 {
      if m.halt.Running? && m.pc < c.Limit() {
        var row := c.rows[m.pc];
        match row
        case ForeachRow(_, _, _) => ForeachSafe(c, m, row);
        case EndForeachRow(_) => EndForeachSafe(c, m, row);
        case LeafRow(a) => LeafSafe(c, m, a);
        case IfRow(_, _, _) => IfSafe(c, m, row);
        case ElseIfRow(_, _, _) => ElseIfSafe(c, m, row);
        case ElseRow(_, _) => ElseSafe(c, m, row);
        case EndIfRow => EndIfSafe(c, m);
      }
      AlwaysSafe(c, Step(c, m), k - 1);
    }
  }
}
