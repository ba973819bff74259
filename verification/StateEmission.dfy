/**
 Emission of an admitted state tree into arrays of exactly the counted size.
 */
module StateEmission {
  import opened StateTree

  /** A pair written beside the state table: node and id, named node and id, or state and synthetic initial. */
  datatype Mark = Mark(of: nat, id: nat)

  datatype Column = References | Names | Synthetics

  function OwnMarks(n: Node, at: nat, c: Column): seq<Mark>
    requires n.Elem?
  {
    match c
    case References => [Mark(n.key, at + 1)]
    case Names => if n.hasId then [Mark(n.key, at + 1)] else []
    case Synthetics => if Synthetic(n) then [Mark(at + 1, at + 2)] else []
  }

  function Marks(n: Node, at: nat, c: Column): seq<Mark>
    decreases n, 1
  {
    if n.Other? then [] else OwnMarks(n, at, c) + AllMarks(n.kids, at + Own(n).rows, c)
  }

  function AllMarks(ns: Nodes, at: nat, c: Column): seq<Mark>
    decreases ns, 0
  {
    if ns.Nil? then [] else Marks(ns.head, at, c) + AllMarks(ns.tail, at + CountOf(ns.head).rows, c)
  }

  function Entry(counts: Counts, c: Column): nat {
    match c
    case References => counts.refs
    case Names => counts.names
    case Synthetics => counts.synthetic
  }

  /** In every column the tree writes as many marks as analysis counted. */
  lemma {:induction false} MarksSize(n: Node, at: nat, c: Column)
    requires Admitted(n)
    ensures |Marks(n, at, c)| == Entry(CountOf(n), c)
    decreases n, 1
  {
    if n.Elem? {
      assert |OwnMarks(n, at, c)| == Entry(Own(n), c);
      AllMarksSize(n, n.kids, at + Own(n).rows, c);
    }
  }

  lemma {:induction false} AllMarksSize(n: Node, ns: Nodes, at: nat, c: Column)
    requires n.Elem? && AllAdmitted(n, ns)
    ensures |AllMarks(ns, at, c)| == Entry(CountAll(ns), c)
    decreases ns, 0
  {
    if ns.Cons? {
      MarksSize(ns.head, at, c);
      AllMarksSize(n, ns.tail, at + CountOf(ns.head).rows, c);
    }
  }

  /** A column being filled. */
  class Store<T(0)> {
    const cells: array<T>
    var used: nat

    ghost predicate Valid()
      reads this, cells
    {
      used <= cells.Length
    }

    ghost function Contents(): seq<T>
      reads this, cells
      requires Valid()
    {
      cells[..used]
    }

    constructor (capacity: nat)
      ensures Valid() && Contents() == [] && cells.Length == capacity && fresh(cells)
    {
      cells := new T[capacity];
      used := 0;
    }

    method Append(x: T)
      requires Valid() && used < cells.Length
      modifies this, cells
      ensures Valid() && Contents() == old(Contents()) + [x]
    {
      cells[used] := x;
      used := used + 1;
    }
  }

  /** Everything emission writes. */
  datatype Table = Table(states: seq<Row>, references: seq<Mark>, names: seq<Mark>, synthetics: seq<Mark>)

  function Add(a: Table, b: Table): Table {
    Table(a.states + b.states, a.references + b.references, a.names + b.names, a.synthetics + b.synthetics)
  }

  lemma AddAssoc(a: Table, b: Table, c: Table)
    ensures Add(Add(a, b), c) == Add(a, Add(b, c))
  {
  }

  function Sizes(t: Table): Counts { Counts(|t.states|, |t.references|, |t.names|, |t.synthetics|) }

  function OwnTable(n: Node, at: nat, parent: nat): Table
    requires n.Elem?
  {
    Table(Top(n, at, parent), OwnMarks(n, at, References), OwnMarks(n, at, Names), OwnMarks(n, at, Synthetics))
  }

  function TableOf(n: Node, at: nat, parent: nat): Table {
    Table(Rows(n, at, parent), Marks(n, at, References), Marks(n, at, Names), Marks(n, at, Synthetics))
  }

  function TableOfAll(ns: Nodes, at: nat, parent: nat): Table {
    Table(AllRows(ns, at, parent), AllMarks(ns, at, References), AllMarks(ns, at, Names), AllMarks(ns, at, Synthetics))
  }

  lemma OwnSizes(n: Node, at: nat, parent: nat)
    requires n.Elem? && HeadOk(n)
    ensures Sizes(OwnTable(n, at, parent)) == Own(n)
  {
  }

  /** The table of an admitted tree has exactly the counted sizes. */
  lemma TableSizes(n: Node, at: nat, parent: nat)
    requires Admitted(n)
    ensures Sizes(TableOf(n, at, parent)) == CountOf(n)
  {
    RowsSize(n, at, parent);
    MarksSize(n, at, References);
    MarksSize(n, at, Names);
    MarksSize(n, at, Synthetics);
  }

  lemma TableSplit(n: Node, at: nat, parent: nat)
    requires n.Elem?
    ensures TableOf(n, at, parent) == Add(OwnTable(n, at, parent), TableOfAll(n.kids, at + Own(n).rows, at + 1))
  {
  }

  lemma TablesSplit(ns: Nodes, at: nat, parent: nat)
    requires ns.Cons?
    ensures TableOfAll(ns, at, parent) == Add(TableOf(ns.head, at, parent), TableOfAll(ns.tail, at + CountOf(ns.head).rows, parent))
  {
    RowsSize(ns.head, at, parent);
  }

  class Emission {
    const states: Store<Row>
    const references: Store<Mark>
    const names: Store<Mark>
    const synthetics: Store<Mark>

    ghost const Repr: set<object>

    ghost predicate Valid()
      reads this, Repr
    {
      && {states, references, names, synthetics, states.cells, references.cells, names.cells, synthetics.cells} <= Repr
      && this !in Repr
      && references != names && references != synthetics && names != synthetics
      && references.cells != names.cells && references.cells != synthetics.cells && names.cells != synthetics.cells
      && states.Valid() && references.Valid() && names.Valid() && synthetics.Valid()
    }

    /** Room for what `c` counts. */
    ghost predicate Room(c: Counts)
      reads this, Repr
      requires Valid()
    {
      && states.used + c.rows <= states.cells.Length && references.used + c.refs <= references.cells.Length
      && names.used + c.names <= names.cells.Length && synthetics.used + c.synthetic <= synthetics.cells.Length
    }

    ghost function Contents(): (t: Table)
      reads this, Repr
      requires Valid()
      ensures Sizes(t) == Counts(states.used, references.used, names.used, synthetics.used)
    {
      Table(states.Contents(), references.Contents(), names.Contents(), synthetics.Contents())
    }

    constructor (counts: Counts)
      ensures Valid() && Room(counts) && fresh(Repr) && Contents() == Table([], [], [], [])
      ensures states.cells.Length == counts.rows && references.cells.Length == counts.refs
      ensures names.cells.Length == counts.names && synthetics.cells.Length == counts.synthetic
    {
      var s := new Store<Row>(counts.rows);
      var r := new Store<Mark>(counts.refs);
      var n := new Store<Mark>(counts.names);
      var y := new Store<Mark>(counts.synthetic);
      states, references, names, synthetics := s, r, n, y;
      Repr := {s, r, n, y, s.cells, r.cells, n.cells, y.cells};
    }

    /** The element's own row, reference, name and synthetic initial. */
    method EmitOwn(n: Node, parent: nat)
      requires Valid() && n.Elem? && HeadOk(n) && Room(Own(n))
      modifies Repr
      ensures Valid() && Contents() == Add(old(Contents()), OwnTable(n, old(states.used), parent))
    {
      var at := states.used;
      var id := at + 1;
      states.Append(Row(id, parent, NativeKind(n), at));
      references.Append(Mark(n.key, id));
      if n.hasId { names.Append(Mark(n.key, id)); }
      if Synthetic(n) {
        states.Append(Row(at + 2, id, InitialRow, at + 1));
        synthetics.Append(Mark(id, at + 2));
      }
    }

    /** Writes a subtree in document order; no write is out of range. */
    method Emit(n: Node, parent: nat)
      requires Valid() && n.Elem? && Admitted(n) && Room(CountOf(n))
      modifies Repr
      ensures Valid() && Contents() == Add(old(Contents()), TableOf(n, old(states.used), parent))
      decreases n, 1
    {
      var at := states.used;
      ghost var before := Contents();
      OwnSizes(n, at, parent);
      TableSplit(n, at, parent);
      EmitOwn(n, parent);
      assert Sizes(Contents()) == Plus(Sizes(before), Own(n));
      EmitAll(n, n.kids, at + 1);
      AddAssoc(before, OwnTable(n, at, parent), TableOfAll(n.kids, at + Own(n).rows, at + 1));
    }

    /** Any child; those that are no states write nothing. */
    method EmitChild(n: Node, parent: nat)
      requires Valid() && Admitted(n) && Room(CountOf(n))
      modifies Repr
      ensures Valid() && Contents() == Add(old(Contents()), TableOf(n, old(states.used), parent))
      ensures Sizes(Contents()) == Plus(old(Sizes(Contents())), CountOf(n))
      decreases n, 2
    {
      TableSizes(n, states.used, parent);
      if n.Elem? { Emit(n, parent); }
    }

    method EmitAll(n: Node, ns: Nodes, parent: nat)
      requires Valid() && n.Elem? && AllAdmitted(n, ns) && Room(CountAll(ns))
      modifies Repr
      ensures Valid() && Contents() == Add(old(Contents()), TableOfAll(ns, old(states.used), parent))
      decreases ns, 0
    {
      ghost var before := Contents();
      var at := states.used;
      if ns.Nil? { return; }
      TablesSplit(ns, at, parent);
      EmitChild(ns.head, parent);
      EmitAll(n, ns.tail, parent);
      AddAssoc(before, TableOf(ns.head, at, parent), TableOfAll(ns.tail, at + CountOf(ns.head).rows, parent));
    }
  }

  /** Analysis, then emission into arrays of the counted size, which it fills exactly. */
  method BuildTable(n: Node) returns (ok: bool, e: Emission?)
    requires n.Elem? && n.kind.Root?
    ensures ok <==> Admitted(n) && Fits(CountOf(n))
    ensures ok ==> e != null && Table(e.states.cells[..], e.references.cells[..], e.names.cells[..], e.synthetics.cells[..]) == TableOf(n, 0, 0)
  {
    e := null;
    var a := new Analysis();
    ok := a.AnalyzeState(n);
    if !ok { return; }
    e := new Emission(a.counts);
    e.Emit(n, 0);
    TableSizes(n, 0, 0);
    assert e.Contents() == TableOf(n, 0, 0);
  }
}
