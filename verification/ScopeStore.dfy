/**
 Values in a typed scope. Managed values own an object: it is made by copying, and ended once,
 by being destroyed or by being moved out of.
 */
module ScopeStore {
  import opened Basics

  /** Objects and what they hold. `made` and `ended` count constructions, and destructions and moves out;
      `done` are the objects that have ended. */
  class Heap {
    var next: nat
    var made: nat
    var ended: nat
    var live: map<nat, int>
    ghost var done: set<nat>

    /** Every object made is alive or has ended, not both, and each that ended did so once. */
    ghost predicate Valid()
      reads this
    {
      && made == next && ended == |done| && (forall o :: o in live ==> o !in done)
      && (forall o: nat :: o < next <==> o in live || o in done)
    }

    constructor ()
      ensures Valid() && live == map[]
    {
      next, made, ended, live, done := 0, 0, 0, map[], {};
    }

    /** A new object holding `value`. */
    method Make(value: int) returns (o: nat)
      requires Valid()
      modifies this
      ensures Valid() && o == old(next) < next && o !in old(live) && live == old(live)[o := value]
      ensures ended == old(ended) && done == old(done)
    {
      o := next;
      next := next + 1;
      made := made + 1;
      live := live[o := value];
    }

    /** Ends an object; ending one that is not alive is not possible. */
    method End(o: nat)
      requires Valid() && o in live
      modifies this
      ensures Valid() && live == old(live) - {o} && done == old(done) + {o} && ended == old(ended) + 1 && next == old(next)
    {
      ended := ended + 1;
      done := done + {o};
      live := live - {o};
    }
  }

  /** Moving: a new object takes over the value and the old one ends. */
  method Move(heap: Heap, o: nat, value: int) returns (n: nat)
    requires heap.Valid() && o in heap.live && heap.live[o] == value
    modifies heap
    ensures heap.Valid() && n == old(heap.next) < heap.next && heap.live == (old(heap.live) - {o})[n := value]
    ensures heap.ended == old(heap.ended) + 1
  {
    n := heap.Make(value);
    heap.End(o);
  }

  datatype Cell = Empty | Plain(value: int) | Managed(obj: nat)

  // ----- views -------------------------------------------------------------

  /** Objects owned by the first `n` cells. */
  function Owned(cells: seq<Cell>): set<nat> { set i | 0 <= i < |cells| && cells[i].Managed? :: cells[i].obj }

  predicate Single(cells: seq<Cell>) {
    forall i, j :: 0 <= i < j < |cells| && cells[i].Managed? && cells[j].Managed? ==> cells[i].obj != cells[j].obj
  }

  /** Cells fit the schema and own live objects, each once. */
  ghost predicate Sound(cells: seq<Cell>, managed: seq<bool>, live: map<nat, int>) {
    && |cells| == |managed| && Single(cells)
    && forall i :: 0 <= i < |cells| ==>
         (cells[i].Managed? ==> managed[i] && cells[i].obj in live) && (cells[i].Plain? ==> !managed[i])
  }

  /** What a reader sees in a cell. */
  ghost function Seen(c: Cell, live: map<nat, int>): Option<int> {
    match c
    case Empty => None
    case Plain(v) => Some(v)
    case Managed(o) => if o in live then Some(live[o]) else None
  }

  ghost predicate SameValues(a: seq<Cell>, la: map<nat, int>, b: seq<Cell>, lb: map<nat, int>) {
    |a| == |b| && forall i :: 0 <= i < |a| ==> Seen(a[i], la) == Seen(b[i], lb)
  }

  /** Objects other than `mine` are untouched. */
  ghost predicate Others(before: map<nat, int>, after: map<nat, int>, mine: set<nat>) {
    forall o :: o !in mine && o in before ==> o in after && after[o] == before[o]
  }

  /** From `before` to `after` exactly the objects in `gone` ended and exactly those in `born`, made at
      or after `top`, came to be; all others are as they were. */
  ghost predicate Renewed(before: map<nat, int>, after: map<nat, int>, gone: set<nat>, born: set<nat>, top: nat) {
    && (forall o :: o in after <==> (o in before && o !in gone) || o in born)
    && (forall o :: o in before && o !in gone ==> after[o] == before[o])
    && (forall o :: o in born ==> top <= o) && (forall o :: o in before ==> o < top)
  }

  lemma RenewedTwice(a: map<nat, int>, b: map<nat, int>, c: map<nat, int>,
                     gone: set<nat>, born: set<nat>, top: nat, gone': set<nat>, born': set<nat>, top': nat)
    requires Renewed(a, b, gone, born, top) && Renewed(b, c, gone', born', top') && gone' !! born && top <= top'
    ensures Renewed(a, c, gone + gone', born + born', top)
  {
  }

  lemma OwnedUpdate(cells: seq<Cell>, i: nat, c: Cell)
    requires i < |cells| && Single(cells)
    requires c.Managed? ==> c.obj !in Owned(cells)
    ensures Single(cells[i := c])
    ensures Owned(cells[i := c]) == Owned(cells) - (if cells[i].Managed? then {cells[i].obj} else {})
                                    + (if c.Managed? then {c.obj} else {})
  {
    var after := cells[i := c];
    forall o | o in Owned(after) ensures o in Owned(cells) - (if cells[i].Managed? then {cells[i].obj} else {})
                                         + (if c.Managed? then {c.obj} else {}) {
      var j :| 0 <= j < |after| && after[j].Managed? && after[j].obj == o;
      if j != i { assert cells[j].obj in Owned(cells); }
    }
    forall o | o in Owned(cells) && !(cells[i].Managed? && cells[i].obj == o) ensures o in Owned(after) {
      var j :| 0 <= j < |cells| && cells[j].Managed? && cells[j].obj == o;
      assert after[j] == cells[j];
    }
    if c.Managed? { assert after[i].obj in Owned(after); }
    forall j, k | 0 <= j < k < |after| && after[j].Managed? && after[k].Managed? ensures after[j].obj != after[k].obj {
      if j == i { assert cells[k].obj in Owned(cells); }
      if k == i { assert cells[j].obj in Owned(cells); }
    }
  }

  /** Exactly the objects in `gone` have ended. */
  ghost predicate Without(before: map<nat, int>, after: map<nat, int>, gone: set<nat>) {
    && (forall o :: o in after <==> o in before && o !in gone)
    && (forall o :: o in after ==> after[o] == before[o])
  }

  /** The first `i` cells are empty and their objects are in `gone`. */
  ghost predicate ClearedUpTo(was: seq<Cell>, cells: seq<Cell>, gone: set<nat>, i: nat) {
    && |was| == |cells| && i <= |was| && gone <= Owned(was)
    && (forall j :: 0 <= j < i ==> cells[j] == Empty && (was[j].Managed? ==> was[j].obj in gone))
    && (forall j :: i <= j < |was| ==> cells[j] == was[j])
  }

  /** What ends with a cell's value. */
  function Ending(c: Cell): set<nat> { if c.Managed? then {c.obj} else {} }

  lemma ClearedOne(was: seq<Cell>, before: map<nat, int>, cells: seq<Cell>, live: map<nat, int>,
                   cells': seq<Cell>, live': map<nat, int>, gone: set<nat>, i: nat)
    requires ClearedUpTo(was, cells, gone, i) && Without(before, live, gone) && i < |was| && |cells'| == |cells|
    requires cells'[i] == Empty && forall j :: 0 <= j < |cells| && j != i ==> cells'[j] == cells[j]
    requires live' == live - Ending(cells[i])
    ensures ClearedUpTo(was, cells', gone + Ending(cells[i]), i + 1) && Without(before, live', gone + Ending(cells[i]))
  {
  }

  lemma ClearedAll(was: seq<Cell>, before: map<nat, int>, cells: seq<Cell>, live: map<nat, int>, gone: set<nat>)
    requires ClearedUpTo(was, cells, gone, |was|) && Without(before, live, gone)
    ensures live == before - Owned(was)
  {
    assert gone == Owned(was);
  }

  lemma ReplacedMap(live: map<nat, int>, ending: set<nat>, temporary: nat, o: nat, value: int)
    requires temporary !in live && o !in live
    ensures (live[temporary := value] - ending - {temporary})[o := value] == (live - ending)[o := value]
    ensures (live[temporary := value] - {temporary})[o := value] == live[o := value] && live - {} == live
  {
  }

  lemma ReplacedSound(was: seq<Cell>, managed: seq<bool>, live: map<nat, int>, slot: nat, o: nat, value: int)
    requires Sound(was, managed, live) && slot < |was| && managed[slot] && o !in live
    ensures Sound(was[slot := Managed(o)], managed, (live - Ending(was[slot]))[o := value])
  {
    assert o !in Owned(was);
    OwnedUpdate(was, slot, Managed(o));
  }

  class View {
    const cells: array<Cell>
    const managed: seq<bool>

    ghost predicate Valid(heap: Heap)
      reads this, cells, heap
    {
      heap.Valid() && Sound(cells[..], managed, heap.live)
    }

    constructor (schema: seq<bool>)
      ensures fresh(cells) && managed == schema && cells.Length == |schema|
      ensures forall i :: 0 <= i < cells.Length ==> cells[i] == Empty
    {
      cells := new Cell[|schema|](_ => Empty);
      managed := schema;
    }

    /** cmeta_scope_view_clear_slot */
    method ClearSlot(heap: Heap, slot: nat)
      requires Valid(heap) && slot < cells.Length
      modifies cells, heap
      ensures Valid(heap) && cells[slot] == Empty
      ensures forall i :: 0 <= i < cells.Length && i != slot ==> cells[i] == old(cells[i])
      ensures heap.next == old(heap.next)
      ensures heap.live == old(heap.live) - Ending(old(cells[slot]))
    {
      ghost var was := cells[..];
      OwnedUpdate(was, slot, Empty);
      if cells[slot].Managed? { heap.End(cells[slot].obj); }
      cells[slot] := Empty;
      assert cells[..] == was[slot := Empty];
    }

    /** cmeta_scope_view_clear */
    method Clear(heap: Heap)
      requires Valid(heap)
      modifies cells, heap
      ensures Valid(heap) && (forall i :: 0 <= i < cells.Length ==> cells[i] == Empty)
      ensures heap.live == old(heap.live) - Owned(old(cells[..])) && heap.next == old(heap.next)
    {
      ghost var was, before := cells[..], heap.live;
      ghost var gone := {};
      var i := 0;
      while i < cells.Length
        invariant 0 <= i <= cells.Length && Valid(heap) && heap.next == old(heap.next)
        invariant ClearedUpTo(was, cells[..], gone, i) && Without(before, heap.live, gone)
      {
        ghost var cells0, live0 := cells[..], heap.live;
        ClearSlot(heap, i);
        ClearedOne(was, before, cells0, live0, cells[..], heap.live, gone, i);
        gone := gone + Ending(cells0[i]);
        i := i + 1;
      }
      ClearedAll(was, before, cells[..], heap.live, gone);
    }

    /** Copies into a temporary, ends the old value, moves the temporary in. */
    method Replace(heap: Heap, slot: nat, value: int)
      requires Valid(heap) && slot < cells.Length && managed[slot]
      modifies cells, heap
      ensures Valid(heap) && cells[slot].Managed? && old(heap.next) <= cells[slot].obj
      ensures cells[..] == old(cells[..])[slot := cells[slot]]
      ensures heap.live == (old(heap.live) - Ending(old(cells[slot])))[cells[slot].obj := value]
    {
      ghost var was, live := cells[..], heap.live;
      var temporary := heap.Make(value);
      var before := cells[slot];
      if before.Managed? { heap.End(before.obj); }
      var o := Move(heap, temporary, value);
      ReplacedMap(live, Ending(before), temporary, o, value);
      ReplacedSound(was, managed, live, slot, o, value);
      cells[slot] := Managed(o);
      assert cells[..] == was[slot := Managed(o)];
    }

    /** cmeta_scope_view_assign: the copy is made before the old value ends. `made` says whether the
        temporary could be allocated and copied. */
    method Assign(heap: Heap, slot: nat, value: int, made: bool) returns (ok: bool)
      requires Valid(heap)
      modifies cells, heap
      ensures Valid(heap) && (ok <==> slot < cells.Length && (managed[slot] ==> made))
      ensures !ok ==> cells[..] == old(cells[..]) && heap.live == old(heap.live)
      ensures ok ==> (forall i :: 0 <= i < cells.Length && i != slot ==> cells[i] == old(cells[i]))
      ensures ok ==> Seen(cells[slot], heap.live) == Some(value)
      ensures ok ==> Renewed(old(heap.live), heap.live, Ending(old(cells[slot])), Ending(cells[slot]), old(heap.next))
    {
      if slot >= cells.Length { return false; }
      ghost var was := cells[..];
      if managed[slot] {
        if !made { return false; }
        Replace(heap, slot, value);
      } else {
        OwnedUpdate(was, slot, Plain(value));
        cells[slot] := Plain(value);
      }
      assert cells[..] == was[slot := cells[slot]];
      return true;
    }
  }

  // ----- moving and copying whole views ------------------------------------

  /** Every object of the view was made at or after `top`, or before it. */
  ghost predicate MadeSince(cells: seq<Cell>, top: nat) { forall i :: 0 <= i < |cells| && cells[i].Managed? ==> top <= cells[i].obj }
  ghost predicate MadeBefore(cells: seq<Cell>, top: nat) { forall i :: 0 <= i < |cells| && cells[i].Managed? ==> cells[i].obj < top }

  /** One cell of a move: the destination cell is empty and takes over the source cell. */
  method MoveCell(heap: Heap, d: View, s: View, i: nat, ghost top: nat)
    requires d.Valid(heap) && s.Valid(heap) && d.cells != s.cells && d.managed == s.managed && i < s.cells.Length
    requires d.cells[i] == Empty && top <= heap.next && MadeSince(d.cells[..], top) && MadeBefore(s.cells[..], top)
    modifies heap, d.cells, s.cells
    ensures d.Valid(heap) && s.Valid(heap) && top <= heap.next && MadeSince(d.cells[..], top) && MadeBefore(s.cells[..], top)
    ensures forall j :: 0 <= j < d.cells.Length && j != i ==> d.cells[j] == old(d.cells[j]) && s.cells[j] == old(s.cells[j])
    ensures s.cells[i] == Empty && Seen(d.cells[i], heap.live) == Seen(old(s.cells[i]), old(heap.live))
    ensures Renewed(old(heap.live), heap.live, Ending(old(s.cells[i])), Ending(d.cells[i]), old(heap.next))
    ensures old(heap.next) <= heap.next
  {
    var c := s.cells[i];
    if c.Managed? {
      var n := Move(heap, c.obj, heap.live[c.obj]);
      d.cells[i] := Managed(n);
    } else {
      d.cells[i] := c;
    }
    s.cells[i] := Empty;
  }

  /** The first `i` cells have moved; the rest are still in the source. */
  ghost predicate Moved(was: seq<Cell>, begin: map<nat, int>, d: seq<Cell>, s: seq<Cell>, live: map<nat, int>, i: nat) {
    && |d| == |s| == |was| && i <= |was|
    && (forall j :: 0 <= j < i ==> s[j] == Empty && Seen(d[j], live) == Seen(was[j], begin))
    && (forall j :: i <= j < |was| ==> d[j] == Empty && s[j] == was[j] && Seen(s[j], live) == Seen(was[j], begin))
  }

  lemma MovedOne(was: seq<Cell>, begin: map<nat, int>, d: seq<Cell>, s: seq<Cell>, live: map<nat, int>,
                 d': seq<Cell>, s': seq<Cell>, live': map<nat, int>, i: nat, top: nat)
    requires Moved(was, begin, d, s, live, i) && i < |was| && Single(was) && MadeBefore(was, top) && MadeSince(d, top)
    requires |d'| == |s'| == |was|
    requires forall j :: 0 <= j < |was| && j != i ==> d'[j] == d[j] && s'[j] == s[j]
    requires s'[i] == Empty && Seen(d'[i], live') == Seen(s[i], live)
    requires Others(live, live', Ending(s[i]))
    requires forall j :: 0 <= j < |d| && d[j].Managed? ==> d[j].obj in live
    requires forall j :: 0 <= j < |s| && s[j].Managed? ==> s[j].obj in live
    ensures Moved(was, begin, d', s', live', i + 1)
  {
  }

  /** The objects of the first `i` cells. */
  ghost predicate Gathered(was: seq<Cell>, d: seq<Cell>, gone: set<nat>, born: set<nat>, i: nat) {
    && i <= |was| == |d| && gone <= Owned(was) && born == Owned(d)
    && (forall j :: 0 <= j < i && was[j].Managed? ==> was[j].obj in gone)
    && (forall o :: o in gone ==> exists j :: 0 <= j < i && was[j] == Managed(o))
  }

  lemma GatheredOne(was: seq<Cell>, d: seq<Cell>, d': seq<Cell>, gone: set<nat>, born: set<nat>, i: nat)
    requires Gathered(was, d, gone, born, i) && i < |was| && |d'| == |d| && Single(d) && d[i] == Empty
    requires (forall j :: 0 <= j < |d| && j != i ==> d'[j] == d[j]) && Ending(d'[i]) !! Owned(d)
    ensures Gathered(was, d', gone + Ending(was[i]), born + Ending(d'[i]), i + 1)
  {
    assert d' == d[i := d'[i]];
    OwnedUpdate(d, i, d'[i]);
    forall o | o in gone + Ending(was[i]) ensures exists j :: 0 <= j < i + 1 && was[j] == Managed(o) {
      if o in gone {
        var j :| 0 <= j < i && was[j] == Managed(o);
      } else {
        assert was[i] == Managed(o);
      }
    }
  }

  /** Moves every value into an empty view. */
  method MoveInto(heap: Heap, d: View, s: View)
    requires d.Valid(heap) && s.Valid(heap) && d.cells != s.cells && d.managed == s.managed
    requires forall i :: 0 <= i < d.cells.Length ==> d.cells[i] == Empty
    modifies heap, d.cells, s.cells
    ensures d.Valid(heap) && s.Valid(heap) && old(heap.next) <= heap.next
    ensures Moved(old(s.cells[..]), old(heap.live), d.cells[..], s.cells[..], heap.live, s.cells.Length)
    ensures Renewed(old(heap.live), heap.live, Owned(old(s.cells[..])), Owned(d.cells[..]), old(heap.next))
  {
    ghost var was, begin := s.cells[..], heap.live;
    ghost var top := heap.next;
    ghost var gone, born := {}, {};
    var i: nat := 0;
    assert Owned(d.cells[..]) == {};
    while i < s.cells.Length
      invariant i <= s.cells.Length && d.Valid(heap) && s.Valid(heap) && top <= heap.next
      invariant MadeSince(d.cells[..], top) && MadeBefore(s.cells[..], top)
      invariant Moved(was, begin, d.cells[..], s.cells[..], heap.live, i)
      invariant Gathered(was, d.cells[..], gone, born, i) && Renewed(begin, heap.live, gone, born, top)
    {
      ghost var d0, s0, live0 := d.cells[..], s.cells[..], heap.live;
      ghost var next0 := heap.next;
      MoveCell(heap, d, s, i, top);
      MovedOne(was, begin, d0, s0, live0, d.cells[..], s.cells[..], heap.live, i, top);
      GatheredOne(was, d0, d.cells[..], gone, born, i);
      RenewedTwice(begin, live0, heap.live, gone, born, top, Ending(s0[i]), Ending(d.cells[i]), next0);
      gone, born := gone + Ending(s0[i]), born + Ending(d.cells[i]);
      i := i + 1;
    }
    assert gone == Owned(was);
  }

  /** Ending other objects leaves a view's values as they are. */
  lemma StillSound(cells: seq<Cell>, managed: seq<bool>, live: map<nat, int>, ending: set<nat>)
    requires Sound(cells, managed, live) && ending !! Owned(cells)
    ensures Sound(cells, managed, live - ending) && SameValues(cells, live - ending, cells, live)
  {
    forall i | 0 <= i < |cells| && cells[i].Managed? ensures cells[i].obj !in ending { assert cells[i].obj in Owned(cells); }
  }

  /** cmeta_scope_view_move_replace: the destination takes over every value, its own end. */
  method MoveReplace(heap: Heap, d: View, s: View) returns (ok: bool)
    requires d.Valid(heap) && s.Valid(heap) && (d.cells != s.cells ==> Owned(d.cells[..]) !! Owned(s.cells[..]))
    modifies heap, d.cells, s.cells
    ensures d.Valid(heap) && s.Valid(heap) && old(heap.next) <= heap.next
    ensures ok <==> d.managed == s.managed && (s.managed == [] || d.cells != s.cells)
    ensures ok && d.cells != s.cells ==> SameValues(d.cells[..], heap.live, old(s.cells[..]), old(heap.live))
    ensures ok && d.cells != s.cells ==> forall i :: 0 <= i < s.cells.Length ==> s.cells[i] == Empty
    ensures ok && d.cells != s.cells ==>
      Renewed(old(heap.live), heap.live, Owned(old(d.cells[..])) + Owned(old(s.cells[..])), Owned(d.cells[..]), old(heap.next))
    ensures !ok || d.cells == s.cells ==>
      d.cells[..] == old(d.cells[..]) && s.cells[..] == old(s.cells[..]) && heap.live == old(heap.live)
  {
    if d.managed != s.managed { return false; }
    if s.managed == [] { return true; }
    if d.cells == s.cells { return false; }
    ghost var was, ending, start := s.cells[..], Owned(d.cells[..]), heap.live;
    ghost var top := heap.next;
    StillSound(was, s.managed, start, ending);
    d.Clear(heap);
    ghost var cleared := heap.live;
    MoveInto(heap, d, s);
    MovedAfterClear(start, ending, was, d.cells[..], s.cells[..], heap.live);
    RenewedTwice(start, cleared, heap.live, ending, {}, top, Owned(was), Owned(d.cells[..]), top);
    assert {} + Owned(d.cells[..]) == Owned(d.cells[..]);
    return true;
  }

  lemma MovedAfterClear(start: map<nat, int>, ending: set<nat>, was: seq<Cell>, d: seq<Cell>, s: seq<Cell>, live: map<nat, int>)
    requires Moved(was, start - ending, d, s, live, |was|) && SameValues(was, start - ending, was, start)
    ensures SameValues(d, live, was, start)
    ensures forall i :: 0 <= i < |s| ==> s[i] == Empty
  {
  }

  /** Nothing ended, and whatever is new belongs to the view. */
  ghost predicate Grown(begin: map<nat, int>, live: map<nat, int>, cells: seq<Cell>) {
    && (forall o :: o in begin ==> o in live && live[o] == begin[o])
    && (forall o :: o in live ==> o in begin || o in Owned(cells))
    && (forall i :: 0 <= i < |cells| && cells[i].Managed? ==> cells[i].obj !in begin)
  }

  lemma GrownBack(begin: map<nat, int>, live: map<nat, int>, cells: seq<Cell>)
    requires Grown(begin, live, cells)
    ensures live - Owned(cells) == begin
  {
  }

  /** A fresh object in an empty cell. */
  lemma GrownMore(begin: map<nat, int>, live: map<nat, int>, cells: seq<Cell>, i: nat, n: nat, v: int)
    requires Grown(begin, live, cells) && Single(cells) && i < |cells| && cells[i] == Empty && n !in live
    requires forall j :: 0 <= j < |cells| && cells[j].Managed? ==> cells[j].obj in live
    ensures Grown(begin, live[n := v], cells[i := Managed(n)]) && Single(cells[i := Managed(n)])
  {
    assert n !in Owned(cells);
    OwnedUpdate(cells, i, Managed(n));
  }

  lemma GrownPlain(begin: map<nat, int>, live: map<nat, int>, cells: seq<Cell>, i: nat, c: Cell)
    requires Grown(begin, live, cells) && Single(cells) && i < |cells| && cells[i] == Empty && !c.Managed?
    ensures Grown(begin, live, cells[i := c]) && Single(cells[i := c])
  {
    OwnedUpdate(cells, i, c);
  }

  /** One cell of a copy. */
  method CopyCell(heap: Heap, d: View, s: View, i: nat, ghost begin: map<nat, int>, ghost top: nat)
    requires d.Valid(heap) && Sound(s.cells[..], s.managed, begin) && d.cells != s.cells && d.managed == s.managed && i < s.cells.Length
    requires d.cells[i] == Empty && Grown(begin, heap.live, d.cells[..]) && MadeSince(d.cells[..], top) && top <= heap.next
    modifies heap, d.cells
    ensures d.Valid(heap) && Grown(begin, heap.live, d.cells[..]) && heap.next >= old(heap.next) && MadeSince(d.cells[..], top)
    ensures d.cells[..] == old(d.cells[..])[i := d.cells[i]]
    ensures Seen(d.cells[i], heap.live) == Seen(s.cells[i], old(heap.live))
    ensures Others(old(heap.live), heap.live, {})
  {
    var c := s.cells[i];
    ghost var was := d.cells[..];
    if c.Managed? {
      var v := heap.live[c.obj];
      GrownMore(begin, heap.live, was, i, heap.next, v);
      var n := heap.Make(v);
      d.cells[i] := Managed(n);
    } else {
      GrownPlain(begin, heap.live, was, i, c);
      d.cells[i] := c;
    }
    assert d.cells[..] == was[i := d.cells[i]];
  }

  /** The first `i` cells are copied, the others empty. */
  ghost predicate CopiedUpTo(d: seq<Cell>, live: map<nat, int>, s: seq<Cell>, begin: map<nat, int>, i: nat) {
    && |d| == |s| && i <= |s|
    && (forall j :: 0 <= j < i ==> Seen(d[j], live) == Seen(s[j], begin))
    && (forall j :: i <= j < |d| ==> d[j] == Empty)
    && (forall j :: 0 <= j < |s| && s[j].Managed? ==> s[j].obj in begin)
    && (forall j :: 0 <= j < |d| && d[j].Managed? ==> d[j].obj in live)
  }

  lemma CopiedOne(d: seq<Cell>, live: map<nat, int>, d': seq<Cell>, live': map<nat, int>, s: seq<Cell>, begin: map<nat, int>, i: nat)
    requires CopiedUpTo(d, live, s, begin, i) && i < |s| && |d'| == |d| && d' == d[i := d'[i]] && Grown(begin, live, d)
    requires Seen(d'[i], live') == Seen(s[i], live) && Others(live, live', {}) && (d'[i].Managed? ==> d'[i].obj in live')
    ensures CopiedUpTo(d', live', s, begin, i + 1)
  {
  }

  /** Copies cells until all are copied or one copy fails. */
  method CopyCells(heap: Heap, d: View, s: View, copies: nat -> bool) returns (n: nat)
    requires d.Valid(heap) && s.Valid(heap) && d.cells != s.cells && d.managed == s.managed
    requires forall i :: 0 <= i < d.cells.Length ==> d.cells[i] == Empty
    modifies heap, d.cells
    ensures d.Valid(heap) && Grown(old(heap.live), heap.live, d.cells[..])
    ensures heap.next >= old(heap.next) && MadeSince(d.cells[..], old(heap.next))
    ensures CopiedUpTo(d.cells[..], heap.live, s.cells[..], old(heap.live), n)
    ensures n < s.cells.Length ==> s.cells[n].Managed? && !copies(n)
    ensures forall j :: 0 <= j < n && s.cells[j].Managed? ==> copies(j)
  {
    ghost var begin := heap.live;
    n := 0;
    while n < s.cells.Length && !(s.cells[n].Managed? && !copies(n))
      invariant d.Valid(heap) && Grown(begin, heap.live, d.cells[..])
      invariant heap.next >= old(heap.next) && MadeSince(d.cells[..], old(heap.next))
      invariant CopiedUpTo(d.cells[..], heap.live, s.cells[..], begin, n)
      invariant forall j :: 0 <= j < n && s.cells[j].Managed? ==> copies(j)
    {
      ghost var d0, live0 := d.cells[..], heap.live;
      CopyCell(heap, d, s, n, begin, old(heap.next));
      CopiedOne(d0, live0, d.cells[..], heap.live, s.cells[..], begin, n);
      n := n + 1;
    }
  }

  /** Copies the bound cells of `s` into the empty view `d`; `copies` says which copies succeed.
      At the first failure everything copied so far ends. */
  method CopyInto(heap: Heap, d: View, s: View, copies: nat -> bool) returns (ok: bool)
    requires d.Valid(heap) && s.Valid(heap) && d.cells != s.cells && d.managed == s.managed
    requires forall i :: 0 <= i < d.cells.Length ==> d.cells[i] == Empty
    modifies heap, d.cells
    ensures d.Valid(heap) && Grown(old(heap.live), heap.live, d.cells[..])
    ensures heap.next >= old(heap.next) && MadeSince(d.cells[..], old(heap.next))
    ensures ok <==> forall i :: 0 <= i < s.cells.Length && s.cells[i].Managed? ==> copies(i)
    ensures ok ==> SameValues(d.cells[..], heap.live, s.cells[..], old(heap.live))
    ensures !ok ==> heap.live == old(heap.live)
  {
    ghost var begin := heap.live;
    var n := CopyCells(heap, d, s, copies);
    if n < s.cells.Length {
      GrownBack(begin, heap.live, d.cells[..]);
      d.Clear(heap);
    }
    return n == s.cells.Length;
  }

  lemma GrownRenewed(begin: map<nat, int>, live: map<nat, int>, cells: seq<Cell>, managed: seq<bool>, top: nat)
    requires Grown(begin, live, cells) && Sound(cells, managed, live) && MadeSince(cells, top)
    requires forall o :: o in begin ==> o < top
    ensures Renewed(begin, live, {}, Owned(cells), top)
  {
  }

  /** The destination's objects end and the staged copies move in. */
  lemma CopiedOver(begin: map<nat, int>, mid: map<nat, int>, live: map<nat, int>,
                   ending: set<nat>, staged: set<nat>, born: set<nat>, top: nat, top': nat)
    requires Renewed(begin, mid, {}, staged, top) && Renewed(mid, live, ending + staged, born, top') && top <= top'
    requires ending <= begin.Keys
    ensures Renewed(begin, live, ending, born, top)
  {
  }

  /** cmeta_scope_view_copy: stages the copy, so that a failure leaves the destination as it was. */
  method CopyView(heap: Heap, d: View, s: View, copies: nat -> bool, staged: bool) returns (ok: bool)
    requires d.Valid(heap) && s.Valid(heap) && (d.cells != s.cells ==> Owned(d.cells[..]) !! Owned(s.cells[..]))
    modifies heap, d.cells
    ensures d.Valid(heap) && s.Valid(heap) && old(heap.next) <= heap.next
    ensures ok <==>
      && d.managed == s.managed
      && (s.managed == [] || (d.cells != s.cells && staged && forall i :: 0 <= i < s.cells.Length && s.cells[i].Managed? ==> copies(i)))
    ensures ok && d.cells != s.cells ==> SameValues(d.cells[..], heap.live, s.cells[..], old(heap.live))
    ensures ok && d.cells != s.cells ==>
      Renewed(old(heap.live), heap.live, Owned(old(d.cells[..])), Owned(d.cells[..]), old(heap.next))
    ensures !ok || d.cells == s.cells ==> d.cells[..] == old(d.cells[..]) && heap.live == old(heap.live)
  {
    if d.managed != s.managed { return false; }
    if s.managed == [] { return true; }
    if d.cells == s.cells || !staged { return false; }
    var staging := new View(s.managed);
    ghost var begin, ending, top := heap.live, Owned(d.cells[..]), heap.next;
    ok := CopyInto(heap, staging, s, copies);
    if ok {
      ghost var mid, copied := heap.live, Owned(staging.cells[..]);
      GrownRenewed(begin, mid, staging.cells[..], staging.managed, top);
      ghost var next0 := heap.next;
      ok := MoveReplace(heap, d, staging);
      CopiedOver(begin, mid, heap.live, ending, copied, Owned(d.cells[..]), top, next0);
    }
  }

  // ----- any operations on any views ---------------------------------------

  /** Each view owns its objects alone, and every live object is owned. */
  ghost predicate Partition(all: seq<seq<Cell>>, live: map<nat, int>) {
    && (forall i, j :: 0 <= i < j < |all| ==> Owned(all[i]) !! Owned(all[j]))
    && (forall i, o :: 0 <= i < |all| && o in Owned(all[i]) ==> o in live)
    && (forall o :: o in live ==> OwnedBySome(all, o))
  }

  ghost predicate OwnedBySome(all: seq<seq<Cell>>, o: nat) { exists i :: 0 <= i < |all| && o in Owned(all[i]) }

  /** One view changes: objects of its own end, new ones come to it. */
  lemma PartitionOne(all: seq<seq<Cell>>, live: map<nat, int>, d: nat, cells: seq<Cell>, live': map<nat, int>,
                     gone: set<nat>, born: set<nat>, top: nat)
    requires Partition(all, live) && d < |all| && Renewed(live, live', gone, born, top)
    requires gone <= Owned(all[d]) && Owned(cells) == Owned(all[d]) - gone + born
    ensures Partition(all[d := cells], live')
  {
    var all' := all[d := cells];
    forall o | o in live' ensures OwnedBySome(all', o) {
      if o in born {
        assert o in Owned(all'[d]);
      } else {
        assert OwnedBySome(all, o);
        var i :| 0 <= i < |all| && o in Owned(all[i]);
        assert o in Owned(all'[i]);
      }
    }
    forall i, j | 0 <= i < j < |all'| ensures Owned(all'[i]) !! Owned(all'[j]) { OwnApart(all, live, i, j, born, top); }
    forall i, o | 0 <= i < |all'| && o in Owned(all'[i]) ensures o in live' {
      if i != d { OwnApart(all, live, if i < d then i else d, if i < d then d else i, born, top); }
    }
  }

  lemma OwnApart(all: seq<seq<Cell>>, live: map<nat, int>, i: nat, j: nat, born: set<nat>, top: nat)
    requires Partition(all, live) && i < j < |all|
    requires (forall o :: o in born ==> top <= o) && forall o :: o in live ==> o < top
    ensures Owned(all[i]) !! Owned(all[j]) && Owned(all[i]) !! born && Owned(all[j]) !! born
  {
    forall o | o in Owned(all[i]) ensures o !in born { assert o in live; }
    forall o | o in Owned(all[j]) ensures o !in born { assert o in live; }
  }

  /** Another view's cells stay sound. */
  lemma SoundStill(cells: seq<Cell>, managed: seq<bool>, live: map<nat, int>, live': map<nat, int>,
                   gone: set<nat>, born: set<nat>, top: nat)
    requires Sound(cells, managed, live) && Renewed(live, live', gone, born, top) && gone !! Owned(cells)
    ensures Sound(cells, managed, live') && SameValues(cells, live', cells, live)
  {
    forall i | 0 <= i < |cells| && cells[i].Managed? ensures cells[i].obj !in gone { assert cells[i].obj in Owned(cells); }
  }

  lemma EmptyOwns(cells: seq<Cell>)
    requires forall i :: 0 <= i < |cells| ==> cells[i] == Empty
    ensures Owned(cells) == {}
  {
  }
}
