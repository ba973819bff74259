/**
 Lowering of an admitted action tree: copy items appended to a scratch array with
 back-patched branch links, then jump-coded action rows at absolute positions.
 */
module CcxmlCompile {
  import opened Basics
  import opened CcxmlTree

  const UNSET: nat := SIZE_MAX

  datatype ItemKind =
    | LeafItem(action: LeafAction)
    | IfItem(cond: string)
    | ElseIfItem(cond: string)
    | ElseItem
    | EndIfItem
    | ForeachItem(loop: string)
    | EndForeachItem
  {
    predicate Branch() { IfItem? || ElseIfItem? || ElseItem? }
  }

  /** Positions are relative to the transition's first item. */
  datatype Item = Item(kind: ItemKind, next: nat, end: nat, owner: nat)

  datatype Row =
    | LeafRow(action: LeafAction)
    | IfRow(cond: string, next: nat, end: nat)
    | ElseIfRow(cond: string, next: nat, end: nat)
    | ElseRow(next: nat, end: nat)
    | EndIfRow
    | ForeachRow(loop: string, next: nat, end: nat)
    | EndForeachRow(next: nat)

  // ----- which item a tree puts at a position ------------------------------

  /** Position of the next branch marker among `kids` laid out from `pos`, or just past them. */
  function NextMarker(kids: Nodes, pos: nat): (p: nat)
    ensures pos <= p <= pos + SizeAll(kids)
  {
    if kids.Nil? || kids.head.Marker() then pos
    else NextMarker(kids.tail, pos + Size(kids.head))
  }

  function MarkerKind(n: Node): ItemKind
    requires n.Marker()
  {
    if n.ElseIf? then ElseIfItem(n.cond) else ElseItem
  }

  function ItemAt(n: Node, pos: nat, j: nat): Item
    requires pos <= j < pos + Size(n)
  {
    match n
    case Leaf(a, _) => Item(LeafItem(a), UNSET, UNSET, UNSET)
    case If(c, _, kids) =>
      var end := pos + 1 + SizeAll(kids);
      if j == pos then Item(IfItem(c), NextMarker(kids, pos + 1), end, pos)
      else if j == end then Item(EndIfItem, UNSET, UNSET, pos)
      else ItemAtAll(kids, pos + 1, pos, end, j)
    case Foreach(l, _, kids) =>
      var end := pos + 1 + SizeAll(kids);
      if j == pos then Item(ForeachItem(l), pos + 1, end + 1, 0)
      else if j == end then Item(EndForeachItem, UNSET, UNSET, pos)
      else ItemAtAll(kids, pos + 1, pos, end, j)
    case _ => Item(MarkerKind(n), pos + 1, pos + 1, pos)
  }

  /** Children laid out from `pos`; the markers among them belong to the block `owner`..`end`. */
  function ItemAtAll(kids: Nodes, pos: nat, owner: nat, end: nat, j: nat): Item
    requires pos <= j < pos + SizeAll(kids)
  {
    if pos + Size(kids.head) <= j then ItemAtAll(kids.tail, pos + Size(kids.head), owner, end, j)
    else if kids.head.Marker() then Item(MarkerKind(kids.head), NextMarker(kids.tail, pos + 1), end, owner)
    else ItemAt(kids.head, pos, j)
  }

  /** Branch items below a node are owned by positions at or after the node. */
  lemma {:induction false} OwnersOf(n: Node, pos: nat, j: nat)
    requires pos <= j < pos + Size(n) && ItemAt(n, pos, j).kind.Branch()
    ensures pos <= ItemAt(n, pos, j).owner
  {
    if (n.If? || n.Foreach?) && pos < j <= pos + SizeAll(n.kids) {
      OwnersOfAll(n.kids, pos + 1, pos, pos + 1 + SizeAll(n.kids), j);
    }
  }

  lemma {:induction false} OwnersOfAll(kids: Nodes, pos: nat, owner: nat, end: nat, j: nat)
    requires pos <= j < pos + SizeAll(kids) && owner < pos
    requires ItemAtAll(kids, pos, owner, end, j).kind.Branch()
    ensures owner <= ItemAtAll(kids, pos, owner, end, j).owner
    ensures ItemAtAll(kids, pos, owner, end, j).owner == owner ==> ItemAtAll(kids, pos, owner, end, j).end == end
  {
    if pos + Size(kids.head) <= j {
      OwnersOfAll(kids.tail, pos + Size(kids.head), owner, end, j);
    } else if !kids.head.Marker() {
      OwnersOf(kids.head, pos, j);
    }
  }

  // ----- lowering to rows --------------------------------------------------

  function LowerItem(it: Item, first: nat): Row {
    match it.kind
    case LeafItem(a) => LeafRow(a)
    case IfItem(c) => IfRow(c, first + it.next, first + it.end)
    case ElseIfItem(c) => ElseIfRow(c, first + it.next, first + it.end)
    case ElseItem => ElseRow(first + it.next, first + it.end)
    case EndIfItem => EndIfRow
    case ForeachItem(l) => ForeachRow(l, first + it.next, first + it.end)
    case EndForeachItem => EndForeachRow(first + it.owner)
  }

  lemma {:induction false} NextMarkerShift(kids: Nodes, pos: nat, first: nat)
    ensures NextMarker(kids, first + pos) == first + NextMarker(kids, pos)
  {
    if kids.Cons? && !kids.head.Marker() {
      NextMarkerShift(kids.tail, pos + Size(kids.head), first);
      assert first + (pos + Size(kids.head)) == first + pos + Size(kids.head);
    }
  }

  /** Lowering commutes with moving a tree: the absolute rows are those of the tree laid out at `first + pos`. */
  lemma {:induction false} LowerShift(n: Node, pos: nat, first: nat, j: nat)
    requires pos <= j < pos + Size(n)
    ensures LowerItem(ItemAt(n, pos, j), first) == LowerItem(ItemAt(n, first + pos, first + j), 0)
  {
    if n.If? || n.Foreach? {
      var end := pos + 1 + SizeAll(n.kids);
      if pos < j < end {
        LowerShiftAll(n.kids, pos + 1, pos, end, first, j);
        assert first + (pos + 1) == first + pos + 1;
      } else if j == pos {
        NextMarkerShift(n.kids, pos + 1, first);
        assert first + (pos + 1) == first + pos + 1;
      }
    }
  }

  lemma {:induction false} LowerShiftAll(kids: Nodes, pos: nat, owner: nat, end: nat, first: nat, j: nat)
    requires pos <= j < pos + SizeAll(kids)
    ensures LowerItem(ItemAtAll(kids, pos, owner, end, j), first)
         == LowerItem(ItemAtAll(kids, first + pos, first + owner, first + end, first + j), 0)
  {
    assert first + (pos + Size(kids.head)) == first + pos + Size(kids.head);
    if pos + Size(kids.head) <= j {
      LowerShiftAll(kids.tail, pos + Size(kids.head), owner, end, first, j);
    } else if kids.head.Marker() {
      NextMarkerShift(kids.tail, pos + 1, first);
      assert first + (pos + 1) == first + pos + 1;
    } else {
      LowerShift(kids.head, pos, first, j);
    }
  }

  /** The rows of `n` sit at `pos`. */
  ghost predicate Coded(rows: seq<Row>, n: Node, pos: nat) {
    pos + Size(n) <= |rows|
    && forall j :: pos <= j < pos + Size(n) ==> rows[j] == LowerItem(ItemAt(n, pos, j), 0)
  }

  ghost predicate CodedAll(rows: seq<Row>, kids: Nodes, pos: nat, owner: nat, end: nat) {
    pos + SizeAll(kids) <= |rows|
    && forall j :: pos <= j < pos + SizeAll(kids) ==> rows[j] == LowerItem(ItemAtAll(kids, pos, owner, end, j), 0)
  }

  lemma CodedBody(rows: seq<Row>, n: Node, pos: nat)
    requires Coded(rows, n, pos) && (n.If? || n.Foreach?)
    ensures CodedAll(rows, n.kids, pos + 1, pos, pos + 1 + SizeAll(n.kids))
    ensures rows[pos] == if n.If? then IfRow(n.cond, NextMarker(n.kids, pos + 1), pos + Size(n) - 1)
                         else ForeachRow(n.loop, pos + 1, pos + Size(n))
    ensures rows[pos + Size(n) - 1] == if n.If? then EndIfRow else EndForeachRow(pos)
  {
    var end := pos + 1 + SizeAll(n.kids);
    forall j | pos + 1 <= j < end
      ensures rows[j] == LowerItem(ItemAtAll(n.kids, pos + 1, pos, end, j), 0)
    {
      assert ItemAt(n, pos, j) == ItemAtAll(n.kids, pos + 1, pos, end, j);
    }
  }

  lemma CodedSplit(rows: seq<Row>, kids: Nodes, pos: nat, owner: nat, end: nat)
    requires CodedAll(rows, kids, pos, owner, end) && kids.Cons?
    ensures CodedAll(rows, kids.tail, pos + Size(kids.head), owner, end)
    ensures !kids.head.Marker() ==> Coded(rows, kids.head, pos)
    ensures kids.head.Marker() ==>
              rows[pos] == LowerItem(Item(MarkerKind(kids.head), NextMarker(kids.tail, pos + 1), end, owner), 0)
  {
    var next := pos + Size(kids.head);
    forall j | next <= j < next + SizeAll(kids.tail)
      ensures rows[j] == LowerItem(ItemAtAll(kids.tail, next, owner, end, j), 0)
    {
      assert ItemAtAll(kids, pos, owner, end, j) == ItemAtAll(kids.tail, next, owner, end, j);
    }
    if !kids.head.Marker() {
      forall j | pos <= j < next ensures rows[j] == LowerItem(ItemAt(kids.head, pos, j), 0) {
        assert ItemAtAll(kids, pos, owner, end, j) == ItemAt(kids.head, pos, j);
      }
    } else {
      assert rows[pos] == LowerItem(ItemAtAll(kids, pos, owner, end, pos), 0);
    }
  }

  /** Children of an if as emission meets them: markers and admitted content. */
  predicate Emittable(kids: Nodes) {
    kids.Nil? || ((kids.head.Marker() || Admitted(kids.head)) && Emittable(kids.tail))
  }

  lemma {:induction false} AdmittedEmittable(kids: Nodes, seenElse: bool)
    requires BranchesAdmitted(kids, seenElse)
    ensures Emittable(kids)
  {
    if kids.Cons? { AdmittedEmittable(kids.tail, kids.head.Else? || (!kids.head.ElseIf? && seenElse)); }
  }

  /** From position `at` on, the if `n` laid out at `start` continues with the children `rest`. */
  ghost predicate Ahead(n: Node, start: nat, rest: Nodes, at: nat) {
    && n.If? && start < at && at + SizeAll(rest) == start + Size(n) - 1
    && forall j {:trigger ItemAt(n, start, j)} :: at <= j < start + Size(n) - 1 ==>
         ItemAt(n, start, j) == ItemAtAll(rest, at, start, start + Size(n) - 1, j)
  }

  lemma AheadStep(n: Node, start: nat, rest: Nodes, at: nat)
    requires Ahead(n, start, rest, at) && rest.Cons?
    ensures Ahead(n, start, rest.tail, at + Size(rest.head))
    ensures rest.head.Marker() ==>
              ItemAt(n, start, at)
              == Item(MarkerKind(rest.head), NextMarker(rest.tail, at + 1), start + Size(n) - 1, start)
    ensures !rest.head.Marker() ==>
              forall j {:trigger ItemAt(rest.head, at, j)} :: at <= j < at + Size(rest.head) ==>
                ItemAt(n, start, j) == ItemAt(rest.head, at, j)
  {
    var end := start + Size(n) - 1;
    assert ItemAt(n, start, at) == ItemAtAll(rest, at, start, end, at);
    if !rest.head.Marker() {
      forall j | at <= j < at + Size(rest.head)
        ensures ItemAt(n, start, j) == ItemAt(rest.head, at, j)
      {
        assert ItemAt(n, start, j) == ItemAtAll(rest, at, start, end, j);
      }
    }
  }

  // ----- emission ----------------------------------------------------------

  class Emitter {
    const items: array<Item>
    var count: nat

    constructor (capacity: nat)
      ensures items.Length == capacity && count == 0 && fresh(items)
    {
      items := new Item[capacity](_ => Item(EndIfItem, 0, 0, 0));
      count := 0;
    }

    ghost predicate Valid()
      reads this
    {
      count <= items.Length
    }

    method AppendItem(kind: ItemKind, owner: nat) returns (status: Status, index: nat)
      requires Valid()
      modifies `count, items
      ensures Valid() && old(count) <= count
      ensures status.Ok? <==> old(count) < items.Length
      ensures forall j :: 0 <= j < old(count) ==> items[j] == old(items[j])
      ensures status.Ok? ==> index == old(count) && count == old(count) + 1
                             && items[index] == Item(kind, UNSET, UNSET, owner)
    {
      index := 0;
      if count >= items.Length { return InvalidContract, index; }
      items[count] := Item(kind, UNSET, UNSET, owner);
      index := count;
      count := count + 1;
      return Ok, index;
    }

    /** Appends the items of one executable node; fails exactly when they do not fit. */
    method AppendExecutable(n: Node) returns (status: Status)
      requires Valid() && Admitted(n)
      modifies `count, items
      ensures Valid() && old(count) <= count
      ensures status.Ok? <==> old(count) + Size(n) <= items.Length
      ensures forall j :: 0 <= j < old(count) ==> items[j] == old(items[j])
      ensures status.Ok? ==> count == old(count) + Size(n)
      ensures status.Ok? ==> forall j :: old(count) <= j < count ==> items[j] == ItemAt(n, old(count), j)
      decreases n, 1
    {
      match n {
        case If(_, _, _) => status := AppendIf(n);
        case Foreach(_, _, _) => status := AppendForeach(n);
        case Leaf(a, _) =>
          var index;
          status, index := AppendItem(LeafItem(a), UNSET);
      }
    }

    method AppendForeach(n: Node) returns (status: Status)
      requires Valid() && n.Foreach? && Admitted(n)
      modifies `count, items
      ensures Valid() && old(count) <= count
      ensures status.Ok? <==> old(count) + Size(n) <= items.Length
      ensures forall j :: 0 <= j < old(count) ==> items[j] == old(items[j])
      ensures status.Ok? ==> count == old(count) + Size(n)
      ensures status.Ok? ==> forall j :: old(count) <= j < count ==> items[j] == ItemAt(n, old(count), j)
      decreases n, 0
    {
      var foreachIndex, endIndex;
      status, foreachIndex := AppendItem(ForeachItem(n.loop), 0);
      if !status.Ok? { return; }
      status := AppendBlock(n.kids, foreachIndex, foreachIndex + 1 + SizeAll(n.kids));
      if !status.Ok? { return; }
      status, endIndex := AppendItem(EndForeachItem, foreachIndex);
      if !status.Ok? { return; }
      items[foreachIndex] := items[foreachIndex].(next := foreachIndex + 1, end := endIndex + 1);
    }

    /** A marker-free run of children. */
    method AppendBlock(kids: Nodes, ghost owner: nat, ghost end: nat) returns (status: Status)
      requires Valid() && BlockAdmitted(kids)
      modifies `count, items
      ensures Valid() && old(count) <= count
      ensures status.Ok? <==> old(count) + SizeAll(kids) <= items.Length
      ensures forall j :: 0 <= j < old(count) ==> items[j] == old(items[j])
      ensures status.Ok? ==> count == old(count) + SizeAll(kids)
      ensures status.Ok? ==>
                forall j :: old(count) <= j < count ==> items[j] == ItemAtAll(kids, old(count), owner, end, j)
      decreases kids, 0
    {
      status := Ok;
      var rest := kids;
      ghost var start := count;
      while rest.Cons?
        invariant status.Ok? && start <= count <= items.Length && BlockAdmitted(rest)
        invariant rest == kids || rest < kids
        invariant count + SizeAll(rest) == start + SizeAll(kids)
        invariant forall j :: 0 <= j < start ==> items[j] == old(items[j])
        invariant forall j :: start <= j < count ==> items[j] == ItemAtAll(kids, start, owner, end, j)
        invariant forall j {:trigger ItemAtAll(kids, start, owner, end, j)} :: count <= j < start + SizeAll(kids) ==>
                    ItemAtAll(kids, start, owner, end, j) == ItemAtAll(rest, count, owner, end, j)
        decreases rest
      {
        status := AppendExecutable(rest.head);
        if !status.Ok? { return; }
        rest := rest.tail;
      }
    }

    /** A branch item of the block at `owner` before its links are patched; `last` has no successor yet. */
    static function Open(it: Item, at: nat, owner: nat, last: nat): Item {
      if it.kind.Branch() && it.owner == owner then
        it.(end := UNSET, next := if at == last then UNSET else it.next)
      else it
    }

    /** Positions `start`..`count` hold the items of the if `n`, with its own links still open. */
    ghost predicate Laid(n: Node, start: nat, previous: nat)
      reads this, items
    {
      && n.If? && start <= previous < count <= items.Length && count <= start + Size(n)
      && (forall j :: start <= j < count ==> items[j] == Open(ItemAt(n, start, j), j, start, previous))
      && ItemAt(n, start, previous).kind.Branch() && ItemAt(n, start, previous).owner == start
    }

    method AppendIf(n: Node) returns (status: Status)
      requires Valid() && n.If? && Admitted(n)
      modifies `count, items
      ensures Valid() && old(count) <= count
      ensures status.Ok? <==> old(count) + Size(n) <= items.Length
      ensures forall j :: 0 <= j < old(count) ==> items[j] == old(items[j])
      ensures status.Ok? ==> count == old(count) + Size(n)
      ensures status.Ok? ==> forall j :: old(count) <= j < count ==> items[j] == ItemAt(n, old(count), j)
      decreases n, 0
    {
      var ifIndex, previous;
      status, ifIndex := AppendItem(IfItem(n.cond), 0);
      if !status.Ok? { return; }
      items[ifIndex] := items[ifIndex].(owner := ifIndex);
      AdmittedEmittable(n.kids, false);
      status, previous := AppendBranches(n, ifIndex, n.kids);
      if !status.Ok? { return; }
      status := CloseIf(n, ifIndex, previous);
    }

    /** The end item, the last branch's successor, and every branch's end. */
    method CloseIf(n: Node, start: nat, previous: nat) returns (status: Status)
      requires Valid() && n.If? && Laid(n, start, previous) && count == start + Size(n) - 1
      requires ItemAt(n, start, previous).next == count
      modifies `count, items
      ensures Valid() && old(count) <= count && (status.Ok? <==> old(count) < items.Length)
      ensures forall j :: 0 <= j < start ==> items[j] == old(items[j])
      ensures status.Ok? ==> count == start + Size(n) && forall j :: start <= j < count ==> items[j] == ItemAt(n, start, j)
    {
      var endIndex;
      status, endIndex := AppendItem(EndIfItem, start);
      if !status.Ok? { return; }
      items[previous] := items[previous].(next := endIndex);
      PatchEnds(n, start, endIndex);
    }

    /** The children of an if; `previous` is the branch still waiting for its successor. */
    method AppendBranches(n: Node, start: nat, kids: Nodes) returns (status: Status, previous: nat)
      requires Valid() && n.If? && count == start + 1 && kids == n.kids && Emittable(kids)
      requires items[start] == Item(IfItem(n.cond), UNSET, UNSET, start)
      modifies `count, items
      ensures Valid() && old(count) <= count
      ensures status.Ok? <==> old(count) + SizeAll(n.kids) <= items.Length
      ensures forall j :: 0 <= j < start ==> items[j] == old(items[j])
      ensures status.Ok? ==> count == old(count) + SizeAll(n.kids)
                             && Laid(n, start, previous) && ItemAt(n, start, previous).next == count
      decreases kids, 1
    {
      status, previous := Ok, start;
      var rest := kids;
      while rest.Cons?
        invariant status.Ok? && Emittable(rest) && (rest == kids || rest < kids)
        invariant Midway(n, start, previous, rest)
        invariant forall j :: 0 <= j < start ==> items[j] == old(items[j])
        decreases rest
      {
        status, previous := AppendChild(n, start, previous, rest);
        if !status.Ok? { return; }
        rest := rest.tail;
      }
    }

    ghost predicate Midway(n: Node, start: nat, previous: nat, rest: Nodes)
      reads this, items
    {
      Laid(n, start, previous) && Ahead(n, start, rest, count)
      && ItemAt(n, start, previous).next == NextMarker(rest, count)
    }

    method AppendChild(ghost n: Node, start: nat, previous: nat, rest: Nodes) returns (status: Status, last: nat)
      requires rest.Cons? && Midway(n, start, previous, rest) && (rest.head.Marker() || Admitted(rest.head))
      modifies `count, items
      ensures Valid() && old(count) <= count
      ensures status.Ok? <==> old(count) + Size(rest.head) <= items.Length
      ensures forall j :: 0 <= j < start ==> items[j] == old(items[j])
      ensures status.Ok? ==> count == old(count) + Size(rest.head) && Midway(n, start, last, rest.tail)
      decreases rest, 0
    {
      last := previous;
      AheadStep(n, start, rest, count);
      if rest.head.Marker() {
        status, last := AppendMarker(n, start, previous, MarkerKind(rest.head));
      } else {
        status := AppendNested(n, start, previous, rest.head);
      }
    }

    method AppendMarker(ghost n: Node, start: nat, previous: nat, kind: ItemKind) returns (status: Status, index: nat)
      requires Laid(n, start, previous) && start < count < start + Size(n)
      requires kind.Branch() && ItemAt(n, start, count).kind == kind && ItemAt(n, start, count).owner == start
      requires ItemAt(n, start, previous).next == count
      modifies `count, items
      ensures Valid() && old(count) <= count
      ensures status.Ok? <==> old(count) < items.Length
      ensures forall j :: 0 <= j < start ==> items[j] == old(items[j])
      ensures status.Ok? ==> index == old(count) && count == old(count) + 1 && Laid(n, start, index)
    {
      status, index := AppendItem(kind, start);
      if !status.Ok? { return; }
      items[previous] := items[previous].(next := index);
    }

    method AppendNested(ghost n: Node, ghost start: nat, ghost previous: nat, kid: Node) returns (status: Status)
      requires Laid(n, start, previous) && Admitted(kid) && start < count && count + Size(kid) <= start + Size(n)
      requires forall j {:trigger ItemAt(kid, count, j)} :: count <= j < count + Size(kid) ==>
                 ItemAt(n, start, j) == ItemAt(kid, count, j)
      modifies `count, items
      ensures Valid() && old(count) <= count
      ensures status.Ok? <==> old(count) + Size(kid) <= items.Length
      ensures forall j :: 0 <= j < start ==> items[j] == old(items[j])
      ensures status.Ok? ==> count == old(count) + Size(kid) && Laid(n, start, previous)
      decreases kid, 2
    {
      ghost var at := count;
      status := AppendExecutable(kid);
      if !status.Ok? { return; }
      forall j | at <= j < count ensures items[j] == Open(ItemAt(n, start, j), j, start, previous) {
        if ItemAt(kid, at, j).kind.Branch() { OwnersOf(kid, at, j); }
      }
    }

    method PatchEnds(ghost n: Node, start: nat, endIndex: nat)
      requires n.If? && endIndex == start + Size(n) - 1 < items.Length
      requires forall j :: start <= j < endIndex ==> items[j] == Open(ItemAt(n, start, j), j, start, endIndex)
      modifies items
      ensures forall j :: start <= j < endIndex ==> items[j] == ItemAt(n, start, j)
      ensures forall j :: 0 <= j < start || endIndex <= j < items.Length ==> items[j] == old(items[j])
    {
      var i := start;
      while i < endIndex
        invariant start <= i <= endIndex
        invariant forall j :: start <= j < i ==> items[j] == ItemAt(n, start, j)
        invariant forall j :: i <= j < endIndex ==> items[j] == Open(ItemAt(n, start, j), j, start, endIndex)
        invariant forall j :: 0 <= j < start || endIndex <= j < items.Length ==> items[j] == old(items[j])
      {
        if start < i && ItemAt(n, start, i).kind.Branch() {
          OwnersOfAll(n.kids, start + 1, start, endIndex, i);
        }
        if items[i].owner == start && items[i].kind.Branch() {
          items[i] := items[i].(end := endIndex);
        }
        i := i + 1;
      }
    }
  }
}
