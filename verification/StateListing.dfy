/**
 What the rows of the state table stand for, told by the places of the document: an element
 reached by a path of child positions, or the initial state made for one.
 */
module StateListing {
  import opened Basics
  import opened StateTree
  import opened StateEmission

  /** The element at `path`, or the initial made for it. */
  datatype Place = Place(path: seq<nat>, node: Node, made: bool)

  function Child(ns: Nodes, k: nat): Option<Node> {
    if ns.Nil? then None else if k == 0 then Some(ns.head) else Child(ns.tail, k - 1)
  }

  function Below(n: Node, path: seq<nat>): Option<Node>
    decreases |path|
  {
    if path == [] then Some(n)
    else if n.Other? then None
    else
      var c := Child(n.kids, path[0]);
      if c.None? then None else Below(c.value, path[1..])
  }

  ghost predicate HasChild(ns: Nodes, kinds: set<Kind>) {
    exists k :: Child(ns, k).Some? && Child(ns, k).value.Elem? && Child(ns, k).value.kind in kinds
  }

  /** A root, or a state with a child that is a state itself. */
  ghost predicate HoldsStates(n: Node)
    requires n.Elem?
  {
    n.kind == Root || (n.kind == State && HasChild(n.kids, {State, Parallel, Final}))
  }

  /** An initial has to be made for the element. */
  ghost predicate NeedsInitial(n: Node)
    requires n.Elem?
  {
    HoldsStates(n) && !HasChild(n.kids, {Initial})
  }

  ghost predicate IsPlace(n: Node, p: Place) {
    Below(n, p.path) == Some(p.node) && p.node.Elem? && (p.made ==> NeedsInitial(p.node))
  }

  /** The row kind a place has. */
  ghost predicate Suits(p: Place, kind: RowKind)
    requires p.node.Elem?
  {
    if p.made then kind == InitialRow
    else
      && (kind == CompoundRow <==> HoldsStates(p.node))
      && (kind == AtomicRow <==> p.node.kind == State && !HoldsStates(p.node))
      && (kind == ParallelRow <==> p.node.kind == Parallel)
      && (kind == FinalRow <==> p.node.kind == Final)
      && (kind == InitialRow <==> p.node.kind == Initial)
      && (kind == HistoryRow(true) <==> p.node.kind == History(true))
      && (kind == HistoryRow(false) <==> p.node.kind == History(false))
  }

  /** Document order: an element, what is made for it, its children in their order. */
  ghost predicate Before(a: Place, b: Place) {
    if a.path == b.path then !a.made && b.made else PathBefore(a.path, b.path)
  }

  ghost predicate PathBefore(a: seq<nat>, b: seq<nat>) {
    a < b || exists k :: 0 <= k < |a| && k < |b| && a[..k] == b[..k] && a[k] < b[k]
  }

  ghost predicate Ascending(ps: seq<Place>) {
    forall j, k :: 0 <= j < k < |ps| ==> Before(ps[j], ps[k])
  }

  /** `p` hangs under the element `u`. */
  predicate Under(p: Place, u: Place) {
    !u.made && if p.made then u.path == p.path else p.path != [] && u.path == p.path[..|p.path| - 1]
  }

  /** Row `k` after `at` tells its place: number, order, kind, and the number of the element above, which is
      `parent` for the elements at depth `d`. */
  ghost predicate Tells(ps: seq<Place>, rows: seq<Row>, k: nat, at: nat, parent: nat, d: nat)
    requires k < |rows| == |ps|
  {
    && rows[k].id == at + k + 1 && rows[k].order == at + k
    && ps[k].node.Elem? && Suits(ps[k], rows[k].kind)
    && if |ps[k].path| == d && !ps[k].made then rows[k].parent == parent
       else at < rows[k].parent <= at + k && Under(ps[k], ps[rows[k].parent - at - 1])
  }

  ghost predicate AllTell(ps: seq<Place>, rows: seq<Row>, at: nat, parent: nat, d: nat) {
    |rows| == |ps| && forall k :: 0 <= k < |rows| ==> Tells(ps, rows, k, at, parent, d)
  }

  // ----- the places in document order ----------------------------------------

  function TopPlaces(n: Node, q: seq<nat>): seq<Place>
    requires n.Elem?
  {
    [Place(q, n, false)] + if Synthetic(n) then [Place(q, n, true)] else []
  }

  /** The places of the subtree at path `q`. */
  function Places(n: Node, q: seq<nat>): seq<Place>
    decreases n, 1
  {
    if n.Other? then [] else TopPlaces(n, q) + AllPlaces(n.kids, q, 0)
  }

  /** The places of the children of `q` from number `i` on. */
  function AllPlaces(ns: Nodes, q: seq<nat>, i: nat): seq<Place>
    decreases ns, 0
  {
    if ns.Nil? then [] else Places(ns.head, q + [i]) + AllPlaces(ns.tail, q, i + 1)
  }

  /** Counting children of some kind, and finding one. */
  lemma {:induction false} ChildKinds(ns: Nodes)
    ensures Reals(ns) != 0 <==> HasChild(ns, {State, Parallel, Final})
    ensures Initials(ns) != 0 <==> HasChild(ns, {Initial})
  {
    if ns.Cons? {
      ChildKinds(ns.tail);
      assert Child(ns, 0) == Some(ns.head);
      forall k | k > 0 ensures Child(ns, k) == Child(ns.tail, k - 1) {}
      forall k: nat ensures Child(ns.tail, k) == Child(ns, k + 1) {}
    }
  }

  lemma NeedsSynthetic(n: Node)
    requires n.Elem?
    ensures Compound(n) <==> HoldsStates(n)
    ensures Synthetic(n) <==> NeedsInitial(n)
  {
    ChildKinds(n.kids);
  }

  // ----- which places, and in which order ------------------------------------

  /** Where the places of a subtree, or of the children from `i` on, lie. */
  ghost predicate InTree(n: Node, q: seq<nat>, p: Place) {
    q <= p.path && IsPlace(n, Place(p.path[|q|..], p.node, p.made))
  }

  ghost predicate InForest(ns: Nodes, q: seq<nat>, i: nat, p: Place) {
    && q < p.path && i <= p.path[|q|]
    && var c := Child(ns, p.path[|q|] - i);
      c.Some? && IsPlace(c.value, Place(p.path[|q| + 1..], p.node, p.made))
  }

  lemma {:induction false} PlacesAre(n: Node, q: seq<nat>, p: Place)
    ensures p in Places(n, q) <==> InTree(n, q, p)
    decreases n, 1
  {
    if n.Elem? {
      AllPlacesAre(n.kids, q, 0, p);
      NeedsSynthetic(n);
      if q <= p.path {
        var rest := p.path[|q|..];
        if rest == [] { assert p.path == q; }
        else { assert rest[1..] == p.path[|q| + 1..] && rest[0] == p.path[|q|]; }
      }
    } else {
      assert Below(n, []) == Some(n);
    }
  }

  lemma {:induction false} AllPlacesAre(ns: Nodes, q: seq<nat>, i: nat, p: Place)
    ensures p in AllPlaces(ns, q, i) <==> InForest(ns, q, i, p)
    decreases ns, 0
  {
    if ns.Cons? {
      PlacesAre(ns.head, q + [i], p);
      AllPlacesAre(ns.tail, q, i + 1, p);
      if q < p.path && p.path[|q|] == i {
        assert p.path[..|q| + 1] == q + [i];
        assert q + [i] <= p.path;
      }
    }
  }

  lemma {:induction false} PlacesAscend(n: Node, q: seq<nat>)
    ensures Ascending(Places(n, q))
    decreases n, 1
  {
    if n.Elem? {
      AllPlacesAscend(n.kids, q, 0);
      var top, kids := TopPlaces(n, q), AllPlaces(n.kids, q, 0);
      forall k | 0 <= k < |kids| ensures q < kids[k].path { AllPlacesAre(n.kids, q, 0, kids[k]); }
    }
  }

  lemma {:induction false} AllPlacesAscend(ns: Nodes, q: seq<nat>, i: nat)
    ensures Ascending(AllPlaces(ns, q, i))
    decreases ns, 0
  {
    if ns.Cons? {
      var first, rest := Places(ns.head, q + [i]), AllPlaces(ns.tail, q, i + 1);
      PlacesAscend(ns.head, q + [i]);
      AllPlacesAscend(ns.tail, q, i + 1);
      forall j, k | 0 <= j < |first| && 0 <= k < |rest| ensures Before(first[j], rest[k]) {
        PlacesAre(ns.head, q + [i], first[j]);
        AllPlacesAre(ns.tail, q, i + 1, rest[k]);
        SiblingsBefore(first[j].path, rest[k].path, q, i);
      }
    }
  }

  lemma SiblingsBefore(a: seq<nat>, b: seq<nat>, q: seq<nat>, i: nat)
    requires q + [i] <= a && q < b && i < b[|q|]
    ensures a != b && PathBefore(a, b)
  {
    var k := |q|;
    assert a[..k] == (q + [i])[..k] == q && b[..k] == q;
    assert a[k] == (q + [i])[k] == i;
  }

  // ----- what the rows tell --------------------------------------------------

  lemma {:induction false} RowsTell(n: Node, q: seq<nat>, at: nat, parent: nat)
    ensures AllTell(Places(n, q), Rows(n, at, parent), at, parent, |q|)
    decreases n, 1
  {
    if n.Elem? {
      var top := Top(n, at, parent);
      NeedsSynthetic(n);
      AllRowsTell(n.kids, q, 0, at + |top|, at + 1);
      UnderTop(n, q, AllPlaces(n.kids, q, 0), AllRows(n.kids, at + |top|, at + 1), at, parent);
    }
  }

  /** Children under their own element. */
  lemma UnderTop(n: Node, q: seq<nat>, ps: seq<Place>, rows: seq<Row>, at: nat, parent: nat)
    requires n.Elem? && (Synthetic(n) <==> NeedsInitial(n)) && (Compound(n) <==> HoldsStates(n))
    requires AllTell(ps, rows, at + Own(n).rows, at + 1, |q| + 1)
    requires forall k :: 0 <= k < |ps| ==> q < ps[k].path
    ensures AllTell(TopPlaces(n, q) + ps, Top(n, at, parent) + rows, at, parent, |q|)
  {
    var t := Own(n).rows;
    var allP, allR := TopPlaces(n, q) + ps, Top(n, at, parent) + rows;
    forall k | 0 <= k < |allR| ensures Tells(allP, allR, k, at, parent, |q|) {
      if k >= t {
        assert Tells(ps, rows, k - t, at + t, at + 1, |q| + 1);
        assert allP[k] == ps[k - t] && allR[k] == rows[k - t];
        if |ps[k - t].path| == |q| + 1 && !ps[k - t].made {
          assert ps[k - t].path[..|q|] == q;
        } else {
          assert allP[allR[k].parent - at - 1] == ps[rows[k - t].parent - (at + t) - 1];
        }
      }
    }
  }

  lemma {:induction false} AllRowsTell(ns: Nodes, q: seq<nat>, i: nat, at: nat, parent: nat)
    ensures AllTell(AllPlaces(ns, q, i), AllRows(ns, at, parent), at, parent, |q| + 1)
    ensures forall k :: 0 <= k < |AllPlaces(ns, q, i)| ==> q < AllPlaces(ns, q, i)[k].path
    decreases ns, 0
  {
    forall k | 0 <= k < |AllPlaces(ns, q, i)| ensures q < AllPlaces(ns, q, i)[k].path { AllPlacesAre(ns, q, i, AllPlaces(ns, q, i)[k]); }
    if ns.Cons? {
      var first := Rows(ns.head, at, parent);
      RowsTell(ns.head, q + [i], at, parent);
      AllRowsTell(ns.tail, q, i + 1, at + |first|, parent);
      SideBySide(Places(ns.head, q + [i]), first, AllPlaces(ns.tail, q, i + 1), AllRows(ns.tail, at + |first|, parent), at, parent, |q| + 1);
    }
  }

  lemma SideBySide(p1: seq<Place>, r1: seq<Row>, p2: seq<Place>, r2: seq<Row>, at: nat, parent: nat, d: nat)
    requires AllTell(p1, r1, at, parent, d) && AllTell(p2, r2, at + |r1|, parent, d)
    ensures AllTell(p1 + p2, r1 + r2, at, parent, d)
  {
    var p, r := p1 + p2, r1 + r2;
    forall k | 0 <= k < |r| ensures Tells(p, r, k, at, parent, d) {
      if k < |r1| {
        assert Tells(p1, r1, k, at, parent, d);
      } else {
        assert Tells(p2, r2, k - |r1|, at + |r1|, parent, d);
      }
    }
  }

  /** The table lists the elements of the document, and the initials made for those that need one, each once
      and in document order; every row has the kind of its place and hangs under the row of the element above. */
  lemma TableTells(n: Node)
    requires n.Elem?
    ensures var ps := Places(n, []);
      && (forall p :: p in ps <==> IsPlace(n, p))
      && Ascending(ps)
      && AllTell(ps, Rows(n, 0, 0), 0, 0, 0)
  {
    forall p ensures p in Places(n, []) <==> IsPlace(n, p) {
      PlacesAre(n, [], p);
      assert p.path[0..] == p.path;
    }
    PlacesAscend(n, []);
    RowsTell(n, [], 0, 0);
  }

  /** No other list of places holds the same ones in document order. */
  lemma {:induction false} OneOrder(ps: seq<Place>, qs: seq<Place>)
    requires Ascending(ps) && Ascending(qs) && forall p :: p in ps <==> p in qs
    ensures ps == qs
    decreases |ps|
  {
    assert qs != [] ==> qs[0] in qs;
    if ps != [] {
      assert ps[0] in qs;
      var j :| 0 <= j < |qs| && qs[j] == ps[0];
      assert qs[0] in ps;
      var k :| 0 <= k < |ps| && ps[k] == qs[0];
      if j > 0 && k > 0 {
        assert Before(qs[0], qs[j]) && Before(ps[0], ps[k]);
        NotBoth(ps[0], qs[0]);
      }
      forall p ensures p in ps[1..] <==> p in qs[1..] { Tail(ps, p); Tail(qs, p); }
      OneOrder(ps[1..], qs[1..]);
      assert ps == [ps[0]] + ps[1..] && qs == [qs[0]] + qs[1..];
    }
  }

  lemma Tail(ps: seq<Place>, p: Place)
    requires Ascending(ps) && ps != []
    ensures p in ps[1..] <==> p in ps && p != ps[0]
  {
    if p in ps[1..] {
      var k :| 0 <= k < |ps[1..]| && ps[1..][k] == p;
      assert Before(ps[0], ps[k + 1]);
      if p == ps[0] { NotBoth(p, p); }
    }
  }

  lemma NotBoth(a: Place, b: Place)
    requires Before(a, b)
    ensures !Before(b, a)
  {
    if a.path != b.path && !(a.path < b.path) {
      var k :| 0 <= k < |a.path| && k < |b.path| && a.path[..k] == b.path[..k] && a.path[k] < b.path[k];
      Same(a.path, b.path, k);
      forall j | 0 <= j < |a.path| && j < |b.path| && a.path[..j] == b.path[..j] ensures !(b.path[j] < a.path[j]) {
        Same(a.path, b.path, j);
      }
    }
  }

  lemma Same(a: seq<nat>, b: seq<nat>, k: nat)
    requires k <= |a| && k <= |b| && a[..k] == b[..k]
    ensures forall j :: 0 <= j < k ==> a[j] == b[j]
  {
    forall j | 0 <= j < k ensures a[j] == b[j] { assert a[..k][j] == b[..k][j]; }
  }

  // ----- the other columns ---------------------------------------------------

  /** What a row puts beside the state table. */
  function Written(p: Place, row: Row, c: Column): seq<Mark>
    requires p.node.Elem?
  {
    match c
    case References => if p.made then [] else [Mark(p.node.key, row.id)]
    case Names => if p.made || !p.node.hasId then [] else [Mark(p.node.key, row.id)]
    case Synthetics => if p.made then [Mark(row.parent, row.id)] else []
  }

  function ColumnOf(ps: seq<Place>, rows: seq<Row>, c: Column): seq<Mark>
    requires |ps| == |rows| && forall p :: p in ps ==> p.node.Elem?
  {
    if ps == [] then []
    else Written(ps[0], rows[0], c) + ColumnOf(ps[1..], rows[1..], c)
  }

  lemma {:induction false} ColumnConcat(p1: seq<Place>, r1: seq<Row>, p2: seq<Place>, r2: seq<Row>, c: Column)
    requires |p1| == |r1| && |p2| == |r2| && (forall p :: p in p1 ==> p.node.Elem?) && (forall p :: p in p2 ==> p.node.Elem?)
    ensures ColumnOf(p1 + p2, r1 + r2, c) == ColumnOf(p1, r1, c) + ColumnOf(p2, r2, c)
    decreases |p1|
  {
    if p1 == [] {
      assert p1 + p2 == p2 && r1 + r2 == r2;
    } else {
      assert (p1 + p2)[1..] == p1[1..] + p2 && (r1 + r2)[1..] == r1[1..] + r2;
      ColumnConcat(p1[1..], r1[1..], p2, r2, c);
    }
  }

  lemma {:induction false} MarksTell(n: Node, q: seq<nat>, at: nat, parent: nat, c: Column)
    ensures |Places(n, q)| == |Rows(n, at, parent)| && forall p :: p in Places(n, q) ==> p.node.Elem?
    ensures Marks(n, at, c) == ColumnOf(Places(n, q), Rows(n, at, parent), c)
    decreases n, 1
  {
    if n.Elem? {
      var top, tops := Top(n, at, parent), TopPlaces(n, q);
      AllMarksTell(n.kids, q, 0, at + |top|, at + 1, c);
      ColumnConcat(tops, top, AllPlaces(n.kids, q, 0), AllRows(n.kids, at + |top|, at + 1), c);
      assert ColumnOf(tops, top, c) == OwnMarks(n, at, c) by {
        assert ColumnOf(tops[1..], top[1..], c) == if Synthetic(n) then Written(tops[1], top[1], c) else [];
      }
    }
  }

  lemma {:induction false} AllMarksTell(ns: Nodes, q: seq<nat>, i: nat, at: nat, parent: nat, c: Column)
    ensures |AllPlaces(ns, q, i)| == |AllRows(ns, at, parent)| && forall p :: p in AllPlaces(ns, q, i) ==> p.node.Elem?
    ensures AllMarks(ns, at, c) == ColumnOf(AllPlaces(ns, q, i), AllRows(ns, at, parent), c)
    decreases ns, 0
  {
    if ns.Cons? {
      var first := Rows(ns.head, at, parent);
      RowsSize(ns.head, at, parent);
      MarksTell(ns.head, q + [i], at, parent, c);
      AllMarksTell(ns.tail, q, i + 1, at + |first|, parent, c);
      ColumnConcat(Places(ns.head, q + [i]), first, AllPlaces(ns.tail, q, i + 1), AllRows(ns.tail, at + |first|, parent), c);
    }
  }
}
