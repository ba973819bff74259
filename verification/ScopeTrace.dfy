/**
 Any list of operations on any set of scope views: no object leaks, is shared, or ends twice.
 */
module ScopeTrace {
  import opened Basics
  import opened ScopeStore

  ghost function All(views: seq<View>): (r: seq<seq<Cell>>)
    reads set v | v in views :: v.cells
    ensures |r| == |views| && forall i :: 0 <= i < |views| ==> r[i] == views[i].cells[..]
  {
    if views == [] then [] else All(views[..|views| - 1]) + [views[|views| - 1].cells[..]]
  }

  predicate Apart(views: seq<View>) { forall i, j :: 0 <= i < j < |views| ==> views[i].cells != views[j].cells }

  ghost predicate AllSound(all: seq<seq<Cell>>, schemas: seq<seq<bool>>, live: map<nat, int>) {
    |all| == |schemas| && forall i :: 0 <= i < |all| ==> Sound(all[i], schemas[i], live)
  }

  ghost predicate WholeOf(all: seq<seq<Cell>>, schemas: seq<seq<bool>>, live: map<nat, int>) {
    Partition(all, live) && AllSound(all, schemas, live)
  }

  function Schemas(views: seq<View>): seq<seq<bool>> { seq(|views|, i requires 0 <= i < |views| => views[i].managed) }

  /** Every view is valid, no two own the same object, and every live object is owned. */
  ghost predicate Whole(heap: Heap, views: seq<View>)
    reads heap, set v | v in views :: v.cells
  {
    heap.Valid() && Apart(views) && WholeOf(All(views), Schemas(views), heap.live)
  }

  /** In a whole state an object ever made has ended, exactly once, or is owned by a view. */
  lemma WholeMeans(heap: Heap, views: seq<View>, o: nat)
    requires Whole(heap, views) && o < heap.made
    ensures o in heap.done <==> !OwnedBySome(All(views), o)
    ensures heap.ended == |heap.done| && heap.made == heap.ended + |heap.live|
  {
    assert o in heap.live <==> OwnedBySome(All(views), o);
    MadeAre(heap.next, heap.live.Keys, heap.done);
  }

  /** Objects are numbered, so alive and ended ones together are as many as were made. */
  lemma {:induction false} MadeAre(n: nat, a: set<nat>, b: set<nat>)
    requires a !! b && forall o: nat :: o < n <==> o in a || o in b
    ensures n == |a| + |b|
  {
    if n == 0 {
      assert a == {} && b == {};
    } else {
      var last := n - 1;
      MadeAre(last, a - {last}, b - {last});
      if last in a { assert b - {last} == b; } else { assert a - {last} == a; }
    }
  }

  // ----- what the views show -----------------------------------------------

  ghost function Shown(cells: seq<Cell>, live: map<nat, int>): (r: seq<Option<int>>)
    ensures |r| == |cells|
  {
    seq(|cells|, i requires 0 <= i < |cells| => Seen(cells[i], live))
  }

  ghost function Display(all: seq<seq<Cell>>, live: map<nat, int>): (r: seq<seq<Option<int>>>)
    ensures |r| == |all|
  {
    seq(|all|, i requires 0 <= i < |all| => Shown(all[i], live))
  }

  ghost function Blank(n: nat): (r: seq<Option<int>>)
    ensures |r| == n
  {
    seq(n, _ => None)
  }

  /** What an operation does to what the views show; nothing where it is refused. */
  ghost function Effect(shown: seq<seq<Option<int>>>, schemas: seq<seq<bool>>, op: Op): (r: seq<seq<Option<int>>>)
    requires |shown| == |schemas| && forall i :: 0 <= i < |shown| ==> |shown[i]| == |schemas[i]|
    ensures |r| == |schemas| && forall i :: 0 <= i < |r| ==> |r[i]| == |schemas[i]|
  {
    match op
    case Assign(v, slot, value, made) =>
      if v < |shown| && slot < |shown[v]| && (schemas[v][slot] ==> made) then shown[v := shown[v][slot := Some(value)]]
      else shown
    case ClearSlot(v, slot) =>
      if v < |shown| && slot < |shown[v]| then shown[v := shown[v][slot := None]] else shown
    case Clear(v) => if v < |shown| then shown[v := Blank(|shown[v]|)] else shown
    case Copy(d, s, copies, staged) =>
      if d < |shown| && s < |shown| && d != s && schemas[d] == schemas[s] && Copyable(shown[s], schemas[s], copies, staged)
      then shown[d := shown[s]] else shown
    case Move(d, s) =>
      if d < |shown| && s < |shown| && d != s && schemas[d] == schemas[s]
      then shown[d := shown[s]][s := Blank(|shown[s]|)] else shown
  }

  /** A copy needs its staging memory and a successful copy of each managed value that is there. */
  ghost predicate Copyable(shown: seq<Option<int>>, schema: seq<bool>, copies: nat -> bool, staged: bool)
    requires |shown| == |schema|
  {
    schema == [] || (staged && forall i :: 0 <= i < |shown| && schema[i] && shown[i].Some? ==> copies(i))
  }

  ghost function Effects(shown: seq<seq<Option<int>>>, schemas: seq<seq<bool>>, ops: seq<Op>): (r: seq<seq<Option<int>>>)
    requires |shown| == |schemas| && forall i :: 0 <= i < |shown| ==> |shown[i]| == |schemas[i]|
    ensures |r| == |schemas| && forall i :: 0 <= i < |r| ==> |r[i]| == |schemas[i]|
  {
    if ops == [] then shown else Effect(Effects(shown, schemas, ops[..|ops| - 1]), schemas, ops[|ops| - 1])
  }

  /** What `views` show; it has the shape of their schemas. */
  ghost function Showing(heap: Heap, views: seq<View>): (r: seq<seq<Option<int>>>)
    reads heap, set v | v in views :: v.cells
    requires Whole(heap, views)
    ensures |r| == |views| && forall i :: 0 <= i < |views| ==> |r[i]| == |views[i].managed|
  {
    assert forall i :: 0 <= i < |views| ==> Sound(All(views)[i], Schemas(views)[i], heap.live);
    Display(All(views), heap.live)
  }

  lemma SoundShown(cells: seq<Cell>, schema: seq<bool>, live: map<nat, int>)
    requires Sound(cells, schema, live)
    ensures forall i :: 0 <= i < |cells| ==> (cells[i].Managed? <==> schema[i] && Shown(cells, live)[i].Some?)
  {
  }

  lemma SameShown(a: seq<Cell>, la: map<nat, int>, b: seq<Cell>, lb: map<nat, int>)
    requires SameValues(a, la, b, lb)
    ensures Shown(a, la) == Shown(b, lb)
  {
  }

  lemma EmptyShown(cells: seq<Cell>, live: map<nat, int>)
    requires forall i :: 0 <= i < |cells| ==> cells[i] == Empty
    ensures Shown(cells, live) == Blank(|cells|)
  {
  }

  /** One view changes; the others go on showing what they did. */
  lemma OneKept(all: seq<seq<Cell>>, schemas: seq<seq<bool>>, live: map<nat, int>, d: nat, cells: seq<Cell>,
                live': map<nat, int>, gone: set<nat>, born: set<nat>, top: nat)
    requires WholeOf(all, schemas, live) && d < |all| && Renewed(live, live', gone, born, top)
    requires gone <= Owned(all[d]) && Owned(cells) == Owned(all[d]) - gone + born && Sound(cells, schemas[d], live')
    ensures WholeOf(all[d := cells], schemas, live')
    ensures Display(all[d := cells], live') == Display(all, live)[d := Shown(cells, live')]
  {
    PartitionOne(all, live, d, cells, live', gone, born, top);
    forall i | 0 <= i < |all|
      ensures Sound(all[d := cells][i], schemas[i], live')
      ensures i != d ==> Shown(all[i], live') == Shown(all[i], live)
    {
      if i != d { Untouched(all, schemas, live, live', i, d, gone, born, top); }
    }
  }

  /** A view that owns none of what ended is sound as before and shows what it did. */
  lemma Untouched(all: seq<seq<Cell>>, schemas: seq<seq<bool>>, live: map<nat, int>, live': map<nat, int>, i: nat, d: nat,
                  gone: set<nat>, born: set<nat>, top: nat)
    requires WholeOf(all, schemas, live) && i < |all| && d < |all| && i != d && gone <= Owned(all[d])
    requires Renewed(live, live', gone, born, top)
    ensures Sound(all[i], schemas[i], live') && Shown(all[i], live') == Shown(all[i], live)
  {
    assert Owned(all[i]) !! Owned(all[d]);
    SoundStill(all[i], schemas[i], live, live', gone, born, top);
    SameShown(all[i], live', all[i], live);
  }

  /** The source is emptied into the destination. */
  lemma TwoKept(all: seq<seq<Cell>>, schemas: seq<seq<bool>>, live: map<nat, int>, d: nat, s: nat, dc: seq<Cell>, sc: seq<Cell>,
                live': map<nat, int>, top: nat)
    requires WholeOf(all, schemas, live) && d < |all| && s < |all| && d != s
    requires Renewed(live, live', Owned(all[d]) + Owned(all[s]), Owned(dc), top)
    requires Owned(sc) == {} && Sound(dc, schemas[d], live') && Sound(sc, schemas[s], live')
    ensures WholeOf(all[d := dc][s := sc], schemas, live')
  {
    var all' := all[d := dc][s := sc];
    var gone := Owned(all[d]) + Owned(all[s]);
    forall i | 0 <= i < |all| ensures Sound(all'[i], schemas[i], live') {
      if i != d && i != s {
        assert Owned(all[i]) !! Owned(all[d]) && Owned(all[i]) !! Owned(all[s]);
        SoundStill(all[i], schemas[i], live, live', gone, Owned(dc), top);
      }
    }
    forall o | o in live' ensures OwnedBySome(all', o) {
      if o in Owned(dc) {
        assert o in Owned(all'[d]);
      } else {
        assert OwnedBySome(all, o);
        var i :| 0 <= i < |all| && o in Owned(all[i]);
        assert o in Owned(all'[i]);
      }
    }
    forall i, j | 0 <= i < j < |all'| ensures Owned(all'[i]) !! Owned(all'[j]) { assert Owned(all[i]) !! Owned(all[j]); }
    forall i, o | 0 <= i < |all'| && o in Owned(all'[i]) ensures o in live' {
      if i != d && i != s { assert Owned(all[i]) !! Owned(all[d]) && Owned(all[i]) !! Owned(all[s]); }
    }
  }

  /** The other views go on showing what they did. */
  lemma TwoShown(all: seq<seq<Cell>>, schemas: seq<seq<bool>>, live: map<nat, int>, d: nat, s: nat, dc: seq<Cell>, sc: seq<Cell>,
                 live': map<nat, int>, top: nat)
    requires WholeOf(all, schemas, live) && d < |all| && s < |all| && d != s
    requires Renewed(live, live', Owned(all[d]) + Owned(all[s]), Owned(dc), top)
    ensures Display(all[d := dc][s := sc], live') == Display(all, live)[d := Shown(dc, live')][s := Shown(sc, live')]
  {
    forall i | 0 <= i < |all| && i != d && i != s ensures Shown(all[i], live') == Shown(all[i], live) {
      assert Owned(all[i]) !! Owned(all[d]) && Owned(all[i]) !! Owned(all[s]);
      SoundStill(all[i], schemas[i], live, live', Owned(all[d]) + Owned(all[s]), Owned(dc), top);
      SameShown(all[i], live', all[i], live);
    }
  }

  lemma Removed(live: map<nat, int>, gone: set<nat>, top: nat)
    requires forall o :: o in live ==> o < top
    ensures Renewed(live, live - gone, gone, {}, top)
  {
  }

  // ----- one operation -----------------------------------------------------

  datatype Op =
    | Assign(v: nat, slot: nat, value: int, made: bool)
    | ClearSlot(v: nat, slot: nat)
    | Clear(v: nat)
    | Copy(d: nat, s: nat, copies: nat -> bool, staged: bool)
    | Move(d: nat, s: nat)

  method DoAssign(heap: Heap, views: seq<View>, v: nat, slot: nat, value: int, made: bool)
    requires Whole(heap, views) && v < |views|
    modifies heap, views[v].cells
    ensures Whole(heap, views)
    ensures Showing(heap, views) == Effect(old(Showing(heap, views)), Schemas(views), Assign(v, slot, value, made))
  {
    ghost var was, live, top := All(views), heap.live, heap.next;
    assert Sound(was[v], Schemas(views)[v], live);
    var ok := views[v].Assign(heap, slot, value, made);
    ghost var cells := views[v].cells[..];
    assert All(views) == was[v := cells];
    if ok {
      assert cells == was[v][slot := cells[slot]];
      AssignKept(was, Schemas(views), live, v, slot, cells, heap.live, top);
    } else {
      assert All(views) == was;
    }
  }

  lemma AssignKept(all: seq<seq<Cell>>, schemas: seq<seq<bool>>, live: map<nat, int>, v: nat, slot: nat, cells: seq<Cell>,
                   live': map<nat, int>, top: nat)
    requires WholeOf(all, schemas, live) && v < |all| && slot < |all[v]| == |cells| && cells == all[v][slot := cells[slot]]
    requires Renewed(live, live', Ending(all[v][slot]), Ending(cells[slot]), top) && Sound(cells, schemas[v], live')
    ensures WholeOf(all[v := cells], schemas, live')
    ensures Display(all[v := cells], live')
         == Display(all, live)[v := Shown(all[v], live)[slot := Seen(cells[slot], live')]]
  {
    assert Sound(all[v], schemas[v], live);
    if cells[slot].Managed? { assert cells[slot].obj !in live && cells[slot].obj !in Owned(all[v]); }
    OwnedUpdate(all[v], slot, cells[slot]);
    OneKept(all, schemas, live, v, cells, live', Ending(all[v][slot]), Ending(cells[slot]), top);
    OtherSlots(all[v], schemas[v], live, slot, cells, live', top);
  }

  /** The other slots of the view show what they did. */
  lemma OtherSlots(was: seq<Cell>, schema: seq<bool>, live: map<nat, int>, slot: nat, cells: seq<Cell>,
                   live': map<nat, int>, top: nat)
    requires Sound(was, schema, live) && slot < |was| == |cells| && cells == was[slot := cells[slot]]
    requires Renewed(live, live', Ending(was[slot]), Ending(cells[slot]), top)
    ensures Shown(cells, live') == Shown(was, live)[slot := Seen(cells[slot], live')]
  {
    forall i | 0 <= i < |was| && i != slot ensures Seen(cells[i], live') == Seen(was[i], live) {
      assert cells[i] == was[i];
      assert was[i].Managed? ==> was[i].obj in live && was[i].obj !in Ending(was[slot]);
    }
  }

  method DoClearSlot(heap: Heap, views: seq<View>, v: nat, slot: nat)
    requires Whole(heap, views) && v < |views|
    modifies heap, views[v].cells
    ensures Whole(heap, views)
    ensures Showing(heap, views) == Effect(old(Showing(heap, views)), Schemas(views), ClearSlot(v, slot))
  {
    ghost var was, live, top := All(views), heap.live, heap.next;
    assert Sound(was[v], Schemas(views)[v], live);
    if slot >= views[v].cells.Length { return; }
    views[v].ClearSlot(heap, slot);
    ghost var cells := views[v].cells[..];
    assert All(views) == was[v := cells];
    assert cells == was[v][slot := Empty];
    Removed(live, Ending(was[v][slot]), top);
    AssignKept(was, Schemas(views), live, v, slot, cells, heap.live, top);
  }

  method DoClear(heap: Heap, views: seq<View>, v: nat)
    requires Whole(heap, views) && v < |views|
    modifies heap, views[v].cells
    ensures Whole(heap, views)
    ensures Showing(heap, views) == Effect(old(Showing(heap, views)), Schemas(views), Clear(v))
    ensures forall i :: 0 <= i < views[v].cells.Length ==> views[v].cells[i] == Empty
  {
    ghost var was, live, top := All(views), heap.live, heap.next;
    views[v].Clear(heap);
    ghost var cells := views[v].cells[..];
    assert All(views) == was[v := cells];
    EmptyOwns(cells);
    Removed(live, Owned(was[v]), top);
    OneKept(was, Schemas(views), live, v, cells, heap.live, Owned(was[v]), {}, top);
    EmptyShown(cells, heap.live);
  }

  method DoCopy(heap: Heap, views: seq<View>, d: nat, s: nat, copies: nat -> bool, staged: bool)
    requires Whole(heap, views) && d < |views| && s < |views|
    modifies heap, views[d].cells
    ensures Whole(heap, views)
    ensures Showing(heap, views) == Effect(old(Showing(heap, views)), Schemas(views), Copy(d, s, copies, staged))
  {
    if d == s {
      ghost var was := All(views);
      var ok := CopyView(heap, views[d], views[d], copies, staged);
      assert All(views) == was;
    } else {
      CopyAcross(heap, views, d, s, copies, staged);
    }
  }

  method CopyAcross(heap: Heap, views: seq<View>, d: nat, s: nat, copies: nat -> bool, staged: bool)
    requires Whole(heap, views) && d < |views| && s < |views| && d != s
    modifies heap, views[d].cells
    ensures Whole(heap, views)
    ensures Showing(heap, views) == Effect(old(Showing(heap, views)), Schemas(views), Copy(d, s, copies, staged))
  {
    ghost var was, live, top := All(views), heap.live, heap.next;
    var dv, sv := views[d], views[s];
    assert dv.cells != sv.cells && Owned(was[d]) !! Owned(was[s]);
    var ok := CopyView(heap, dv, sv, copies, staged);
    ghost var cells := dv.cells[..];
    assert All(views) == was[d := cells];
    CopyKept(was, Schemas(views), live, d, s, cells, heap.live, top, ok, copies, staged);
  }

  lemma CopyKept(all: seq<seq<Cell>>, schemas: seq<seq<bool>>, live: map<nat, int>, d: nat, s: nat, cells: seq<Cell>,
                 live': map<nat, int>, top: nat, ok: bool, copies: nat -> bool, staged: bool)
    requires WholeOf(all, schemas, live) && d < |all| && s < |all| && d != s
    requires ok <==> (
        && schemas[d] == schemas[s]
        && (schemas[s] == [] || (staged && forall i :: 0 <= i < |all[s]| && all[s][i].Managed? ==> copies(i))))
    requires ok ==> SameValues(cells, live', all[s], live)
    requires ok ==> Renewed(live, live', Owned(all[d]), Owned(cells), top) && Sound(cells, schemas[d], live')
    requires !ok ==> cells == all[d] && live' == live
    ensures WholeOf(all[d := cells], schemas, live')
    ensures |Display(all, live)| == |schemas| && forall i :: 0 <= i < |schemas| ==> |Display(all, live)[i]| == |schemas[i]|
    ensures Display(all[d := cells], live') == Effect(Display(all, live), schemas, Copy(d, s, copies, staged))
  {
    assert forall i :: 0 <= i < |all| ==> Sound(all[i], schemas[i], live);
    SoundShown(all[s], schemas[s], live);
    if ok {
      SameShown(cells, live', all[s], live);
      assert Owned(all[d]) - Owned(all[d]) + Owned(cells) == Owned(cells);
      OneKept(all, schemas, live, d, cells, live', Owned(all[d]), Owned(cells), top);
    } else {
      assert all[d := cells] == all;
    }
  }

  method DoMove(heap: Heap, views: seq<View>, d: nat, s: nat)
    requires Whole(heap, views) && d < |views| && s < |views|
    modifies heap, views[d].cells, views[s].cells
    ensures Whole(heap, views)
    ensures Showing(heap, views) == Effect(old(Showing(heap, views)), Schemas(views), Op.Move(d, s))
  {
    ghost var was, live, top := All(views), heap.live, heap.next;
    assert views[d].cells != views[s].cells ==> Owned(was[d]) !! Owned(was[s]);
    var ok := MoveReplace(heap, views[d], views[s]);
    ghost var dc, sc := views[d].cells[..], views[s].cells[..];
    if ok && d != s {
      assert All(views) == was[d := dc][s := sc];
      MoveKept(was, Schemas(views), live, d, s, dc, sc, heap.live, top);
    } else {
      assert All(views) == was;
    }
  }

  lemma MoveKept(all: seq<seq<Cell>>, schemas: seq<seq<bool>>, live: map<nat, int>, d: nat, s: nat, dc: seq<Cell>, sc: seq<Cell>,
                 live': map<nat, int>, top: nat)
    requires WholeOf(all, schemas, live) && d < |all| && s < |all| && d != s && schemas[d] == schemas[s]
    requires Renewed(live, live', Owned(all[d]) + Owned(all[s]), Owned(dc), top)
    requires Sound(dc, schemas[d], live') && Sound(sc, schemas[s], live') && SameValues(dc, live', all[s], live)
    requires forall i :: 0 <= i < |sc| ==> sc[i] == Empty
    ensures WholeOf(all[d := dc][s := sc], schemas, live')
    ensures |Display(all, live)| == |schemas| && forall i :: 0 <= i < |schemas| ==> |Display(all, live)[i]| == |schemas[i]|
    ensures Display(all[d := dc][s := sc], live') == Effect(Display(all, live), schemas, Op.Move(d, s))
  {
    assert forall i :: 0 <= i < |all| ==> Sound(all[i], schemas[i], live);
    EmptyOwns(sc);
    TwoKept(all, schemas, live, d, s, dc, sc, live', top);
    TwoShown(all, schemas, live, d, s, dc, sc, live', top);
    SameShown(dc, live', all[s], live);
    EmptyShown(sc, live');
  }

  // ----- any operations ----------------------------------------------------

  /** Empty views over a heap in which nothing lives are whole, and show nothing. */
  lemma FreshWhole(heap: Heap, views: seq<View>)
    requires heap.Valid() && heap.live == map[] && Apart(views)
    requires forall i :: 0 <= i < |views| ==> views[i].cells.Length == |views[i].managed|
    requires forall i, j :: 0 <= i < |views| && 0 <= j < views[i].cells.Length ==> views[i].cells[j] == Empty
    ensures Whole(heap, views)
    ensures forall i :: 0 <= i < |views| ==> Showing(heap, views)[i] == Blank(|views[i].managed|)
  {
    forall i | 0 <= i < |views|
      ensures Sound(All(views)[i], Schemas(views)[i], heap.live) && Owned(All(views)[i]) == {}
      ensures Shown(All(views)[i], heap.live) == Blank(|views[i].managed|)
    {
      EmptyOwns(views[i].cells[..]);
      EmptyShown(views[i].cells[..], heap.live);
    }
  }

  /** After any operations, successful or not, on any views that start out whole, every view is valid, none
      shares an object, none is lost; with WholeMeans, every object ever made has ended exactly once
      or is owned by exactly one view. The views show what the operations make of what they showed. */
  method Perform(heap: Heap, views: seq<View>, ops: seq<Op>)
    requires Whole(heap, views)
    modifies heap, set v | v in views :: v.cells
    ensures Whole(heap, views)
    ensures Showing(heap, views) == Effects(old(Showing(heap, views)), Schemas(views), ops)
  {
    ghost var shown := Showing(heap, views);
    for n := 0 to |ops|
      invariant Whole(heap, views)
      invariant Showing(heap, views) == Effects(shown, Schemas(views), ops[..n])
    {
      assert ops[..n + 1][..n] == ops[..n];
      PerformOne(heap, views, ops[n]);
    }
    assert ops[..|ops|] == ops;
  }

  method PerformOne(heap: Heap, views: seq<View>, op: Op)
    requires Whole(heap, views)
    modifies heap, set v | v in views :: v.cells
    ensures Whole(heap, views)
    ensures Showing(heap, views) == Effect(old(Showing(heap, views)), Schemas(views), op)
  {
    match op {
      case Assign(v, slot, value, made) => if v < |views| { DoAssign(heap, views, v, slot, value, made); }
      case ClearSlot(v, slot) => if v < |views| { DoClearSlot(heap, views, v, slot); }
      case Clear(v) => if v < |views| { DoClear(heap, views, v); }
      case Copy(d, s, copies, staged) => if d < |views| && s < |views| { DoCopy(heap, views, d, s, copies, staged); }
      case Move(d, s) => if d < |views| && s < |views| { DoMove(heap, views, d, s); }
    }
  }

  /** Destroying all views at the end leaves no object alive. */
  method Finish(heap: Heap, views: seq<View>)
    requires Whole(heap, views)
    modifies heap, set v | v in views :: v.cells
    ensures Whole(heap, views) && heap.live == map[] && heap.ended == heap.made
  {
    for n := 0 to |views|
      invariant Whole(heap, views)
      invariant forall i, j :: 0 <= i < n && 0 <= j < views[i].cells.Length ==> views[i].cells[j] == Empty
    {
      DoClear(heap, views, n);
    }
    NothingOwned(All(views), heap.live);
    MadeAre(heap.next, {}, heap.done);
  }

  lemma NothingOwned(all: seq<seq<Cell>>, live: map<nat, int>)
    requires Partition(all, live) && forall i, j :: 0 <= i < |all| && 0 <= j < |all[i]| ==> all[i][j] == Empty
    ensures live == map[]
  {
    assert forall o :: o !in live || OwnedBySome(all, o);
    assert forall o :: !OwnedBySome(all, o);
  }
}
