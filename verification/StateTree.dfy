/**
 The SCXML state tree: what analysis admits and counts, and the table of states that
 emission writes.
 */
module StateTree {
  import opened Basics

  datatype Kind = Root | State | Parallel | Final | Initial | History(deep: bool)

  /** The `initial` attribute: absent, or the number of identifiers in it. */
  datatype InitialAttribute = Absent | Given(tokens: nat)

  datatype Leaf = Comment | Text | Transition | OnEntry | OnExit | Invoke | Datamodel | Script | Donedata | Finalize | Unsupported

  /** An element that can be a state, or any other child; `ok` says its own content was admitted. */
  datatype Node =
    | Elem(key: nat, kind: Kind, hasId: bool, idOk: bool, initial: InitialAttribute, typeOk: bool, kids: Nodes)
    | Other(leaf: Leaf, ok: bool)

  datatype Nodes = Nil | Cons(head: Node, tail: Nodes)

  // ----- shape -------------------------------------------------------------

  predicate IsReal(n: Node) { n.Elem? && (n.kind.State? || n.kind.Parallel? || n.kind.Final?) }
  predicate IsInitial(n: Node) { n.Elem? && n.kind.Initial? }
  predicate IsHistory(n: Node) { n.Elem? && n.kind.History? }

  function Reals(ns: Nodes): nat { if ns.Nil? then 0 else Reals(ns.tail) + if IsReal(ns.head) then 1 else 0 }
  function Initials(ns: Nodes): nat { if ns.Nil? then 0 else Initials(ns.tail) + if IsInitial(ns.head) then 1 else 0 }
  function Histories(ns: Nodes): nat { if ns.Nil? then 0 else Histories(ns.tail) + if IsHistory(ns.head) then 1 else 0 }
  function Leaves(ns: Nodes, leaf: Leaf): nat {
    if ns.Nil? then 0 else Leaves(ns.tail, leaf) + if ns.head == Other(leaf, true) || ns.head == Other(leaf, false) then 1 else 0
  }

  predicate Compound(n: Node)
    requires n.Elem?
  {
    n.kind.Root? || (n.kind.State? && Reals(n.kids) != 0)
  }

  /** A compound state without an `initial` child gets a synthetic one. */
  predicate Synthetic(n: Node)
    requires n.Elem?
  {
    Compound(n) && Initials(n.kids) == 0
  }

  // ----- admission ---------------------------------------------------------

  /** The checks made of an element before its children. */
  predicate HeadOk(n: Node)
    requires n.Elem?
  {
    && Leaves(n.kids, Datamodel) <= 1
    && (n.hasId ==> n.idOk)
    && (!n.kind.Root? && !n.kind.Initial? ==> n.hasId)
    && (n.kind.Initial? ==> !n.hasId)
    && (n.initial.Given? ==> n.kind.Root? || n.kind.State?)
    && (n.kind.History? ==> n.typeOk)
    && (n.kind.Parallel? || n.kind.Root? ==> Reals(n.kids) != 0)
    && (n.kind.State? && !Compound(n) ==> Initials(n.kids) == 0 && n.initial.Absent? && Histories(n.kids) == 0)
    && (n.kind.Parallel? ==> Initials(n.kids) == 0)
    && (Compound(n) ==> Initials(n.kids) <= 1 && (Initials(n.kids) != 0 ==> n.initial.Absent?))
    && (Synthetic(n) && n.initial.Given? ==> n.initial.tokens != 0)
  }

  /** Whether `child` may stand in `n`. */
  predicate ChildAllowed(n: Node, child: Node)
    requires n.Elem?
  {
    var bare := n.kind.Final? || n.kind.Initial? || n.kind.History?;
    match child
    case Elem(_, kind, _, _, _, _, _) =>
      (match kind
       case State => !bare
       case Parallel => !bare
       case Final => !bare
       case Initial => Compound(n)
       case History(_) => Compound(n) || n.kind.Parallel?
       case Root => false)
    case Other(leaf, ok) =>
      (match leaf
       case Comment => true
       case Text => false
       case Transition => ok && !n.kind.Root? && !n.kind.Final?
       case OnEntry => ok && !n.kind.Initial? && !n.kind.History? && !n.kind.Root?
       case OnExit => ok && !n.kind.Initial? && !n.kind.History? && !n.kind.Root?
       case Invoke => ok && !n.kind.Root? && !bare
       case Datamodel => ok && !bare
       case Script => ok && n.kind.Root?
       case Donedata => ok && n.kind.Final? && Leaves(n.kids, Donedata) == 1
       case Finalize => false
       case Unsupported => false)
  }

  predicate TailOk(n: Node)
    requires n.Elem?
  {
    n.kind.Initial? || n.kind.History? ==> Leaves(n.kids, Transition) == 1
  }

  predicate Admitted(n: Node)
    decreases n, 1
  {
    n.Elem? ==> HeadOk(n) && AllAdmitted(n, n.kids) && TailOk(n)
  }

  predicate AllAdmitted(n: Node, kids: Nodes)
    requires n.Elem?
    decreases kids, 0
  {
    kids.Cons? ==> ChildAllowed(n, kids.head) && Admitted(kids.head) && AllAdmitted(n, kids.tail)
  }

  // ----- what is counted ---------------------------------------------------

  datatype Counts = Counts(rows: nat, refs: nat, names: nat, synthetic: nat)

  function Plus(a: Counts, b: Counts): Counts {
    Counts(a.rows + b.rows, a.refs + b.refs, a.names + b.names, a.synthetic + b.synthetic)
  }

  predicate Fits(c: Counts) { c.rows <= SIZE_MAX && c.refs <= SIZE_MAX && c.names <= SIZE_MAX && c.synthetic <= SIZE_MAX }

  function Zero(): Counts { Counts(0, 0, 0, 0) }

  /** What one element adds by itself, as analysis counts it. */
  function Own(n: Node): Counts
    requires n.Elem?
  {
    var extra := if Synthetic(n) then 1 else 0;
    Counts(1 + extra, 1, if (n.kind.Root? && n.hasId) || (!n.kind.Root? && !n.kind.Initial?) then 1 else 0, extra)
  }

  function CountOf(n: Node): Counts {
    if n.Other? then Zero() else Plus(Own(n), CountAll(n.kids))
  }

  function CountAll(ns: Nodes): Counts {
    if ns.Nil? then Zero() else Plus(CountOf(ns.head), CountAll(ns.tail))
  }

  class Analysis {
    var counts: Counts

    constructor ()
      ensures counts == Zero()
    {
      counts := Zero();
    }

    /** One element's own rows, with every addition checked. */
    method AddOwn(n: Node) returns (ok: bool)
      requires n.Elem?
      modifies this
      ensures ok <==> Fits(Plus(old(counts), Own(n)))
      ensures ok ==> counts == Plus(old(counts), Own(n))
    {
      if counts.rows >= SIZE_MAX || counts.refs >= SIZE_MAX || counts.names > SIZE_MAX || counts.synthetic > SIZE_MAX { return false; }
      counts := counts.(rows := counts.rows + 1, refs := counts.refs + 1);
      if (n.kind.Root? && n.hasId) || (!n.kind.Root? && !n.kind.Initial?) {
        if counts.names >= SIZE_MAX { return false; }
        counts := counts.(names := counts.names + 1);
      }
      if Synthetic(n) {
        if counts.rows >= SIZE_MAX || counts.synthetic >= SIZE_MAX { return false; }
        counts := counts.(rows := counts.rows + 1, synthetic := counts.synthetic + 1);
      }
      return true;
    }

    /** Admits exactly the admitted trees whose counts are representable, and counts them. */
    method AnalyzeState(n: Node) returns (ok: bool)
      requires n.Elem?
      modifies this
      ensures ok <==> Admitted(n) && Fits(Plus(old(counts), CountOf(n)))
      ensures ok ==> counts == Plus(old(counts), CountOf(n))
      decreases n, 2
    {
      PlusAssoc(counts, Own(n), CountAll(n.kids));
      if !HeadOk(n) { return false; }
      ok := AddOwn(n);
      if !ok { return; }
      ok := AnalyzeChildren(n, n.kids);
      if !ok { return; }
      return TailOk(n);
    }

    method AnalyzeChildren(n: Node, kids: Nodes) returns (ok: bool)
      requires n.Elem? && Fits(counts)
      modifies this
      ensures ok <==> AllAdmitted(n, kids) && Fits(Plus(old(counts), CountAll(kids)))
      ensures ok ==> counts == Plus(old(counts), CountAll(kids))
      decreases kids, 1
    {
      if kids.Nil? { return true; }
      PlusAssoc(counts, CountOf(kids.head), CountAll(kids.tail));
      if !ChildAllowed(n, kids.head) { return false; }
      if kids.head.Elem? {
        ok := AnalyzeState(kids.head);
        if !ok { return; }
      }
      ok := AnalyzeChildren(n, kids.tail);
    }
  }

  lemma PlusAssoc(a: Counts, b: Counts, c: Counts)
    ensures Plus(Plus(a, b), c) == Plus(a, Plus(b, c))
    ensures Fits(Plus(Plus(a, b), c)) ==> Fits(Plus(a, b))
  {
  }

  // ----- the emitted table -------------------------------------------------

  datatype RowKind = CompoundRow | ParallelRow | FinalRow | InitialRow | HistoryRow(deep: bool) | AtomicRow

  datatype Row = Row(id: nat, parent: nat, kind: RowKind, order: nat)

  function NativeKind(n: Node): RowKind
    requires n.Elem?
  {
    match n.kind
    case Root => CompoundRow
    case State => if Reals(n.kids) != 0 then CompoundRow else AtomicRow
    case Parallel => ParallelRow
    case Final => FinalRow
    case Initial => InitialRow
    case History(deep) => HistoryRow(deep)
  }

  /** The element's own row and its synthetic initial. */
  function Top(n: Node, at: nat, parent: nat): (rows: seq<Row>)
    requires n.Elem?
    ensures |rows| == Own(n).rows && rows[0] == Row(at + 1, parent, NativeKind(n), at)
  {
    [Row(at + 1, parent, NativeKind(n), at)] + if Synthetic(n) then [Row(at + 2, at + 1, InitialRow, at + 1)] else []
  }

  /** The rows of the subtree in document order; the first one has index `at` and id `at + 1`. */
  function Rows(n: Node, at: nat, parent: nat): seq<Row>
    decreases n, 1
  {
    if n.Other? then []
    else
      var top := Top(n, at, parent);
      top + AllRows(n.kids, at + |top|, at + 1)
  }

  function AllRows(ns: Nodes, at: nat, parent: nat): seq<Row>
    decreases ns, 0
  {
    if ns.Nil? then []
    else
      var first := Rows(ns.head, at, parent);
      first + AllRows(ns.tail, at + |first|, parent)
  }

  lemma {:induction false} RowsSize(n: Node, at: nat, parent: nat)
    ensures |Rows(n, at, parent)| == CountOf(n).rows
    decreases n, 1
  {
    if n.Elem? { AllRowsSize(n.kids, at + Own(n).rows, at + 1); }
  }

  lemma {:induction false} AllRowsSize(ns: Nodes, at: nat, parent: nat)
    ensures |AllRows(ns, at, parent)| == CountAll(ns).rows
    decreases ns, 0
  {
    if ns.Cons? {
      RowsSize(ns.head, at, parent);
      AllRowsSize(ns.tail, at + CountOf(ns.head).rows, parent);
    }
  }

  // ----- properties of the table -------------------------------------------

  /** Row `k` after `at` carries id `at + k + 1`, and its parent comes before it. */
  predicate Numbered(rows: seq<Row>, at: nat, parent: nat) {
    forall k :: 0 <= k < |rows| ==>
      rows[k].id == at + k + 1 && rows[k].order == at + k && (rows[k].parent == parent || at < rows[k].parent < rows[k].id)
  }

  lemma NumberedConcat(a: seq<Row>, b: seq<Row>, at: nat, parent: nat)
    requires Numbered(a, at, parent) && Numbered(b, at + |a|, parent)
    ensures Numbered(a + b, at, parent)
  {
  }

  /** Rows whose parent is a row already there. */
  lemma NumberedUnder(head: seq<Row>, rest: seq<Row>, at: nat, parent: nat)
    requires Numbered(head, at, parent) && head != [] && Numbered(rest, at + |head|, at + 1)
    ensures Numbered(head + rest, at, parent)
  {
  }

  lemma {:induction false} RowsNumbered(n: Node, at: nat, parent: nat)
    ensures Numbered(Rows(n, at, parent), at, parent)
    decreases n, 1
  {
    if n.Elem? {
      var top := Top(n, at, parent);
      AllRowsNumbered(n.kids, at + |top|, at + 1);
      NumberedUnder(top, AllRows(n.kids, at + |top|, at + 1), at, parent);
    }
  }

  lemma {:induction false} AllRowsNumbered(ns: Nodes, at: nat, parent: nat)
    ensures Numbered(AllRows(ns, at, parent), at, parent)
    decreases ns, 0
  {
    if ns.Cons? {
      var first := Rows(ns.head, at, parent);
      RowsNumbered(ns.head, at, parent);
      AllRowsNumbered(ns.tail, at + |first|, parent);
      NumberedConcat(first, AllRows(ns.tail, at + |first|, parent), at, parent);
    }
  }

  /** How many initial rows have parent `p`. */
  function InitialsUnder(rows: seq<Row>, p: nat): nat {
    if rows == [] then 0
    else InitialsUnder(rows[..|rows| - 1], p) + if rows[|rows| - 1].kind.InitialRow? && rows[|rows| - 1].parent == p then 1 else 0
  }

  lemma {:induction false} UnderConcat(a: seq<Row>, b: seq<Row>, p: nat)
    ensures InitialsUnder(a + b, p) == InitialsUnder(a, p) + InitialsUnder(b, p)
  {
    if b == [] {
      assert a + b == a;
    } else {
      assert (a + b)[..|a + b| - 1] == a + b[..|b| - 1];
      UnderConcat(a, b[..|b| - 1], p);
    }
  }

  lemma {:induction false} UnderNone(rows: seq<Row>, p: nat)
    requires forall k :: 0 <= k < |rows| ==> rows[k].parent != p
    ensures InitialsUnder(rows, p) == 0
  {
    if rows != [] { UnderNone(rows[..|rows| - 1], p); }
  }

  /** Each compound row has exactly one initial child, other rows have none; `p` ranges over the rows. */
  predicate OneInitial(rows: seq<Row>, p: Row) {
    InitialsUnder(rows, p.id) == if p.kind.CompoundRow? then 1 else 0
  }

  /** Initial rows hung directly on the parent of a list of subtrees. */
  lemma {:induction false} DirectInitials(ns: Nodes, at: nat, parent: nat)
    requires parent <= at
    ensures InitialsUnder(AllRows(ns, at, parent), parent) == Initials(ns)
    decreases ns
  {
    if ns.Cons? {
      var first := Rows(ns.head, at, parent);
      DirectInitials(ns.tail, at + |first|, parent);
      DirectInitial(ns.head, at, parent);
      UnderConcat(first, AllRows(ns.tail, at + |first|, parent), parent);
    }
  }

  lemma DirectInitial(n: Node, at: nat, parent: nat)
    requires parent <= at
    ensures InitialsUnder(Rows(n, at, parent), parent) == if IsInitial(n) then 1 else 0
  {
    if n.Elem? {
      var top := Top(n, at, parent);
      var kids := AllRows(n.kids, at + |top|, at + 1);
      AllRowsNumbered(n.kids, at + |top|, at + 1);
      UnderNone(kids, parent);
      UnderConcat(top, kids, parent);
      TopInitials(n, at, parent, parent);
    }
  }

  lemma {:induction false} RowsOneInitial(n: Node, at: nat, parent: nat, k: nat)
    requires Admitted(n) && parent <= at && k < |Rows(n, at, parent)|
    ensures OneInitial(Rows(n, at, parent), Rows(n, at, parent)[k])
    decreases n, 1
  {
    var top := Top(n, at, parent);
    var kids := AllRows(n.kids, at + |top|, at + 1);
    var row := Rows(n, at, parent)[k];
    if k == 0 {
      HeadOneInitial(n, at, parent);
      assert row == top[0];
    } else if k < |top| {
      SyntheticNoInitial(n, at, parent);
      assert row == top[1] == Row(at + 2, at + 1, InitialRow, at + 1);
    } else {
      assert row == kids[k - |top|];
      AllRowsOneInitial(n, n.kids, at + |top|, at + 1, k - |top|);
      AllRowsNumbered(n.kids, at + |top|, at + 1);
      var p := kids[k - |top|].id;
      UnderConcat(top, kids, p);
      TopInitials(n, at, parent, p);
    }
  }

  lemma HeadOneInitial(n: Node, at: nat, parent: nat)
    requires n.Elem? && Admitted(n) && parent <= at
    ensures InitialsUnder(Rows(n, at, parent), at + 1) == if NativeKind(n).CompoundRow? then 1 else 0
  {
    var top := Top(n, at, parent);
    UnderConcat(top, AllRows(n.kids, at + |top|, at + 1), at + 1);
    TopInitials(n, at, parent, at + 1);
    DirectInitials(n.kids, at + |top|, at + 1);
    InitialsOf(n);
  }

  lemma SyntheticNoInitial(n: Node, at: nat, parent: nat)
    requires n.Elem? && Synthetic(n) && parent <= at
    ensures InitialsUnder(Rows(n, at, parent), at + 2) == 0
  {
    var top := Top(n, at, parent);
    var kids := AllRows(n.kids, at + |top|, at + 1);
    AllRowsNumbered(n.kids, at + |top|, at + 1);
    UnderConcat(top, kids, at + 2);
    TopInitials(n, at, parent, at + 2);
    UnderNone(kids, at + 2);
  }

  /** Only compound states have an initial child, and with the synthetic one each has exactly one. */
  lemma InitialsOf(n: Node)
    requires n.Elem? && Admitted(n)
    ensures Initials(n.kids) + (if Synthetic(n) then 1 else 0) == if NativeKind(n).CompoundRow? then 1 else 0
  {
    if !Compound(n) { NoInitials(n, n.kids); }
  }

  lemma {:induction false} NoInitials(n: Node, kids: Nodes)
    requires n.Elem? && AllAdmitted(n, kids) && !Compound(n)
    ensures Initials(kids) == 0
    decreases kids
  {
    if kids.Cons? { NoInitials(n, kids.tail); }
  }

  /** Initial rows among an element's own rows. */
  lemma TopInitials(n: Node, at: nat, parent: nat, p: nat)
    requires n.Elem? && parent <= at
    ensures InitialsUnder(Top(n, at, parent), p)
         == (if p == parent && IsInitial(n) then 1 else 0) + (if p == at + 1 && Synthetic(n) then 1 else 0)
  {
    var head := [Row(at + 1, parent, NativeKind(n), at)];
    var extra := if Synthetic(n) then [Row(at + 2, at + 1, InitialRow, at + 1)] else [];
    UnderConcat(head, extra, p);
    assert head[..0] == [];
    if Synthetic(n) { assert extra[..0] == []; }
  }

  lemma {:induction false} AllRowsOneInitial(n: Node, ns: Nodes, at: nat, parent: nat, k: nat)
    requires n.Elem? && AllAdmitted(n, ns) && parent <= at && k < |AllRows(ns, at, parent)|
    ensures OneInitial(AllRows(ns, at, parent), AllRows(ns, at, parent)[k])
    decreases ns, 0
  {
    var first := Rows(ns.head, at, parent);
    var rest := AllRows(ns.tail, at + |first|, parent);
    RowsNumbered(ns.head, at, parent);
    AllRowsNumbered(ns.tail, at + |first|, parent);
    var all := first + rest;
    assert AllRows(ns, at, parent) == all;
    if k < |first| {
      RowsOneInitial(ns.head, at, parent, k);
      OneInitialBefore(first, rest, at, parent, k);
      assert OneInitial(all, all[k]);
    } else {
      var j := k - |first|;
      AllRowsOneInitial(n, ns.tail, at + |first|, parent, j);
      OneInitialAfter(first, rest, at, parent, j);
      assert OneInitial(all, all[|first| + j]);
    }
  }

  /** Later siblings add no initial row to an earlier subtree. */
  lemma OneInitialBefore(first: seq<Row>, rest: seq<Row>, at: nat, parent: nat, k: nat)
    requires Numbered(first, at, parent) && Numbered(rest, at + |first|, parent) && parent <= at
    requires k < |first| && OneInitial(first, first[k])
    ensures OneInitial(first + rest, (first + rest)[k])
  {
    UnderConcat(first, rest, first[k].id);
    UnderNone(rest, first[k].id);
  }

  /** Nor do earlier siblings to a later one. */
  lemma OneInitialAfter(first: seq<Row>, rest: seq<Row>, at: nat, parent: nat, k: nat)
    requires Numbered(first, at, parent) && Numbered(rest, at + |first|, parent) && parent <= at
    requires k < |rest| && OneInitial(rest, rest[k])
    ensures OneInitial(first + rest, (first + rest)[|first| + k])
  {
    UnderConcat(first, rest, rest[k].id);
    UnderNone(first, rest[k].id);
  }

  /** The table of an admitted document: as many rows as counted, ids 1..n in document order, parents
      before children, the root alone without a parent, one initial child for each compound state. */
  lemma TableOk(n: Node)
    requires n.Elem? && n.kind.Root? && Admitted(n)
    ensures var rows := Rows(n, 0, 0);
      && |rows| == CountOf(n).rows
      && (forall k :: 0 <= k < |rows| ==> rows[k].id == k + 1 && rows[k].parent < rows[k].id)
      && rows[0].parent == 0 && rows[0].kind.CompoundRow?
      && (forall k :: 0 <= k < |rows| ==> OneInitial(rows, rows[k]))
  {
    RowsSize(n, 0, 0);
    RowsNumbered(n, 0, 0);
    forall k | 0 <= k < |Rows(n, 0, 0)| ensures OneInitial(Rows(n, 0, 0), Rows(n, 0, 0)[k]) { RowsOneInitial(n, 0, 0, k); }
  }
}
