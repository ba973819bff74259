/**
 The event table: every distinct event name gets one id, numbered in order of first occurrence,
 and is found by binary search. `qsort` may order equal keys as it likes.
 */
module EventNames {
  import opened Basics

  type Name = seq<byte>

  datatype Ref = Ref(name: Name, order: nat, id: nat)

  // ----- comparing names ---------------------------------------------------

  /** Byte-wise lexicographic order. */
  predicate Less(a: Name, b: Name) {
    b != [] && (a == [] || a[0] < b[0] || (a[0] == b[0] && Less(a[1..], b[1..])))
  }

  predicate AtMost(a: Name, b: Name) { a == b || Less(a, b) }

  lemma {:induction false} LessTrans(a: Name, b: Name, c: Name)
    requires Less(a, b) && Less(b, c)
    ensures Less(a, c)
  {
    if a != [] && a[0] == b[0] == c[0] { LessTrans(a[1..], b[1..], c[1..]); }
  }

  lemma {:induction false} LessIrreflexive(a: Name)
    ensures !Less(a, a)
  {
    if a != [] { LessIrreflexive(a[1..]); }
  }

  /** scxml_analyze_compare_view: the common part first, then the lengths. */
  method Compare(a: Name, b: Name) returns (r: int)
    ensures r < 0 <==> Less(a, b)
    ensures r == 0 <==> a == b
  {
    var common := if |a| < |b| then |a| else |b|;
    var i := 0;
    while i < common && a[i] == b[i]
      invariant 0 <= i <= common && a[..i] == b[..i]
    {
      i := i + 1;
    }
    SamePrefix(a, b, i);
    if i < common {
      var x: int, y: int := a[i], b[i];
      return x - y;
    }
    assert a == a[..i] + a[i..] && b == b[..i] + b[i..];
    if |a| < |b| { return -1; }
    if |a| > |b| { return 1; }
    return 0;
  }

  lemma {:induction false} SamePrefix(a: Name, b: Name, i: nat)
    requires i <= |a| && i <= |b| && a[..i] == b[..i]
    ensures Less(a, b) <==> Less(a[i..], b[i..])
  {
    if i == 0 {
      assert a[0..] == a && b[0..] == b;
    } else {
      assert a[0] == a[..i][0] && b[0] == b[..i][0];
      assert a[1..][..i - 1] == a[..i][1..] && b[1..][..i - 1] == b[..i][1..];
      SamePrefix(a[1..], b[1..], i - 1);
      assert a[1..][i - 1..] == a[i..] && b[1..][i - 1..] == b[i..];
    }
  }

  // ----- sorting -----------------------------------------------------------

  predicate ByName(s: seq<Ref>) { forall i, j :: 0 <= i < j < |s| ==> AtMost(s[i].name, s[j].name) }

  predicate ByOrder(s: seq<Ref>) { forall i, j :: 0 <= i < j < |s| ==> s[i].order <= s[j].order }

  /** Same elements, as often; all that is assumed of qsort besides the order. */
  predicate Rearranges(s: seq<Ref>, t: seq<Ref>) { multiset(s) == multiset(t) }

  ghost predicate SortsByName(f: seq<Ref> -> seq<Ref>) { forall s :: ByName(f(s)) && Rearranges(s, f(s)) }

  ghost predicate SortsByOrder(f: seq<Ref> -> seq<Ref>) { forall s :: ByOrder(f(s)) && Rearranges(s, f(s)) }

  lemma SameElements(s: seq<Ref>, t: seq<Ref>)
    requires Rearranges(s, t)
    ensures |s| == |t| && forall x :: x in s <==> x in t
  {
    assert |s| == |multiset(s)| == |multiset(t)| == |t|;
    forall x ensures x in s <==> x in t { assert x in multiset(s) <==> x in multiset(t); }
  }

  predicate Distinct(s: seq<Ref>) { forall i, j :: 0 <= i < j < |s| ==> s[i] != s[j] }

  lemma {:induction false} DistinctOnce(s: seq<Ref>, x: Ref)
    requires Distinct(s)
    ensures multiset(s)[x] <= 1
  {
    if s != [] {
      var n := |s| - 1;
      DistinctOnce(s[..n], x);
      assert s == s[..n] + [s[n]];
      if s[n] == x { assert x !in multiset(s[..n]) by { assert x !in s[..n]; } }
    }
  }

  lemma StillDistinct(s: seq<Ref>, t: seq<Ref>)
    requires Distinct(s) && Rearranges(s, t)
    ensures Distinct(t)
  {
    forall i, j | 0 <= i < j < |t| ensures t[i] != t[j] {
      if t[i] == t[j] {
        assert t == t[..j] + t[j..];
        assert t[i] in t[..j] && t[j] in t[j..];
        assert multiset(t)[t[i]] == multiset(t[..j])[t[i]] + multiset(t[j..])[t[i]];
        DistinctOnce(s, t[i]);
        assert false;
      }
    }
  }

  // ----- what the table must be --------------------------------------------

  /** Occurrences are numbered as they are collected. */
  predicate Collected(occ: seq<Ref>) { forall i :: 0 <= i < |occ| ==> occ[i].order == i }

  /** `k` is where `name` first occurs. */
  predicate First(occ: seq<Ref>, name: Name, k: nat) {
    k < |occ| && occ[k].name == name && forall i :: 0 <= i < k ==> occ[i].name != name
  }

  predicate Occurs(occ: seq<Ref>, name: Name) { exists i :: 0 <= i < |occ| && occ[i].name == name }

  predicate Listed(s: seq<Ref>, name: Name) { exists i :: 0 <= i < |s| && s[i].name == name }

  /** Every occurring name once, with its first occurrence. */
  predicate Complete(occ: seq<Ref>, s: seq<Ref>) {
    && (forall i, j :: 0 <= i < j < |s| ==> s[i].name != s[j].name)
    && (forall i :: 0 <= i < |s| ==> First(occ, s[i].name, s[i].order))
    && (forall i :: 0 <= i < |occ| ==> Listed(s, occ[i].name))
  }

  predicate StrictByName(s: seq<Ref>) { forall i, j :: 0 <= i < j < |s| ==> Less(s[i].name, s[j].name) }

  /** Rearranging a complete list leaves it complete. */
  lemma CompleteRearranged(occ: seq<Ref>, s: seq<Ref>, t: seq<Ref>)
    requires Complete(occ, s) && Rearranges(s, t)
    ensures Complete(occ, t) && |t| == |s|
  {
    SameElements(s, t);
    StillDistinct(s, t);
    forall i, j | 0 <= i < j < |t| ensures t[i].name != t[j].name {
      assert t[i] in s && t[j] in s;
    }
    forall i | 0 <= i < |t| ensures First(occ, t[i].name, t[i].order) { assert t[i] in s; }
    forall i | 0 <= i < |occ| ensures Listed(t, occ[i].name) {
      var k :| 0 <= k < |s| && s[k].name == occ[i].name;
      assert s[k] in t;
    }
  }

  // ----- building the table ------------------------------------------------

  /** Everything before `at` sorts strictly before everything from `at` on. */
  predicate Boundary(s: seq<Ref>, at: nat) {
    at <= |s| && forall i, j :: 0 <= i < at <= j < |s| ==> Less(s[i].name, s[j].name)
  }

  /** The group starting at `index` ends at `next`. */
  predicate Group(s: seq<Ref>, index: nat, next: nat) {
    index < next <= |s| && forall i :: index <= i < next ==> s[i].name == s[index].name
  }

  lemma GroupEnds(s: seq<Ref>, index: nat, next: nat)
    requires ByName(s) && Boundary(s, index) && Group(s, index, next)
    requires next < |s| ==> s[next].name != s[index].name
    ensures Boundary(s, next)
  {
    forall i, j | 0 <= i < next <= j < |s| ensures Less(s[i].name, s[j].name) {
      if i >= index {
        assert AtMost(s[index].name, s[next].name) && AtMost(s[next].name, s[j].name);
        if s[next].name != s[j].name { LessTrans(s[index].name, s[next].name, s[j].name); }
      }
    }
  }

  /** The least order in a whole group is where the name first occurs. */
  lemma LeastIsFirst(occ: seq<Ref>, s: seq<Ref>, index: nat, next: nat, m: nat)
    requires Collected(occ) && Rearranges(occ, s) && Boundary(s, index) && Boundary(s, next) && Group(s, index, next)
    requires index <= m < next && forall i :: index <= i < next ==> s[m].order <= s[i].order
    ensures First(occ, s[m].name, s[m].order)
  {
    SameElements(occ, s);
    assert s[m] in occ;
    forall i | 0 <= i < s[m].order && i < |occ| ensures occ[i].name != s[m].name {
      assert occ[i] in s;
      var k :| 0 <= k < |s| && s[k] == occ[i];
      LessIrreflexive(s[m].name);
      if k < index {
        assert Less(s[k].name, s[m].name);
      } else if next <= k {
        assert Less(s[m].name, s[k].name);
      }
    }
  }

  /** What the first `index` sorted occurrences have contributed. */
  predicate Covers(occ: seq<Ref>, s: seq<Ref>, index: nat, unique: seq<Ref>) {
    && Boundary(s, index) && StrictByName(unique)
    && (forall i :: 0 <= i < |unique| ==> First(occ, unique[i].name, unique[i].order))
    && (forall i :: 0 <= i < index ==> Listed(unique, s[i].name))
    && (forall i, j :: 0 <= i < |unique| && index <= j < |s| ==> Less(unique[i].name, s[j].name))
  }

  lemma CoversMore(occ: seq<Ref>, s: seq<Ref>, index: nat, next: nat, m: nat, unique: seq<Ref>)
    requires Covers(occ, s, index, unique) && Group(s, index, next) && Boundary(s, next)
    requires index <= m < next && First(occ, s[m].name, s[m].order)
    ensures Covers(occ, s, next, unique + [s[m]])
  {
    var more := unique + [s[m]];
    forall i | 0 <= i < next ensures Listed(more, s[i].name) {
      if i < index {
        var k :| 0 <= k < |unique| && unique[k].name == s[i].name;
        assert more[k].name == s[i].name;
      } else {
        assert more[|unique|].name == s[i].name;
      }
    }
    forall i, j | 0 <= i < |more| && next <= j < |s| ensures Less(more[i].name, s[j].name) {
      if i == |unique| { assert Less(s[m].name, s[j].name); }
    }
    forall i, j | 0 <= i < j < |more| ensures Less(more[i].name, more[j].name) {
      if j == |unique| { assert Less(unique[i].name, s[m].name); }
    }
  }

  /** One representative of each name, the earliest. */
  method Deduplicate(s: seq<Ref>, ghost occ: seq<Ref>) returns (unique: seq<Ref>)
    requires ByName(s) && Rearranges(occ, s) && Collected(occ)
    ensures Complete(occ, unique) && StrictByName(unique)
  {
    unique := [];
    var index: nat := 0;
    while index < |s|
      invariant index <= |s| && Covers(occ, s, index, unique)
    {
      var next, m := index + 1, index;
      while next < |s| && s[next].name == s[index].name
        invariant Group(s, index, next) && index <= m < next
        invariant forall i :: index <= i < next ==> s[m].order <= s[i].order
      {
        if s[next].order < s[m].order { m := next; }
        next := next + 1;
      }
      GroupEnds(s, index, next);
      LeastIsFirst(occ, s, index, next, m);
      CoversMore(occ, s, index, next, m, unique);
      unique := unique + [s[m]];
      index := next;
    }
    SameElements(occ, s);
    forall i | 0 <= i < |occ| ensures Listed(unique, occ[i].name) {
      assert occ[i] in s;
      var k :| 0 <= k < |s| && s[k] == occ[i];
    }
    StrictDistinct(unique);
  }

  lemma StrictDistinct(s: seq<Ref>)
    requires StrictByName(s)
    ensures forall i, j :: 0 <= i < j < |s| ==> s[i].name != s[j].name
  {
    forall i, j | 0 <= i < j < |s| ensures s[i].name != s[j].name { LessIrreflexive(s[i].name); }
  }

  /** Ids are 1..n, in order of first occurrence. */
  predicate Numbered(s: seq<Ref>) {
    && (forall i :: 0 <= i < |s| ==> 1 <= s[i].id <= |s|)
    && (forall i, j :: 0 <= i < |s| && 0 <= j < |s| ==> (s[i].id < s[j].id <==> s[i].order < s[j].order))
    && (forall v :: 1 <= v <= |s| ==> HasId(s, v))
  }

  predicate HasId(s: seq<Ref>, v: int) { exists i :: 0 <= i < |s| && s[i].id == v }

  predicate StrictByOrder(s: seq<Ref>) { forall i, j :: 0 <= i < j < |s| ==> s[i].order < s[j].order }

  /** Different names first occur at different places. */
  lemma OrdersDiffer(occ: seq<Ref>, s: seq<Ref>)
    requires Complete(occ, s) && ByOrder(s)
    ensures StrictByOrder(s)
  {
    forall i, j | 0 <= i < j < |s| ensures s[i].order < s[j].order {
      assert First(occ, s[i].name, s[i].order) && First(occ, s[j].name, s[j].order);
    }
  }

  /** Position `i` is where its name first occurs. */
  predicate IsFirst(occ: seq<Ref>, i: nat)
    requires i < |occ|
  {
    forall j :: 0 <= j < i ==> occ[j].name != occ[i].name
  }

  /** How many distinct names occur before position `k`. */
  function Distincts(occ: seq<Ref>, k: nat): nat
    requires k <= |occ|
  {
    if k == 0 then 0 else Distincts(occ, k - 1) + if IsFirst(occ, k - 1) then 1 else 0
  }

  /** Each id is one more than the number of names that first occur earlier. */
  predicate Ranked(occ: seq<Ref>, s: seq<Ref>) {
    forall i :: 0 <= i < |s| ==> s[i].order <= |occ| && s[i].id == 1 + Distincts(occ, s[i].order)
  }

  lemma {:induction false} DistinctsBefore(occ: seq<Ref>, s: seq<Ref>, k: nat, i: nat)
    requires Complete(occ, s) && StrictByOrder(s) && k <= |occ| && i <= |s|
    requires (forall j :: 0 <= j < i ==> s[j].order < k) && forall j :: i <= j < |s| ==> k <= s[j].order
    ensures Distincts(occ, k) == i
    decreases k
  {
    if k != 0 {
      if IsFirst(occ, k - 1) {
        assert Listed(s, occ[k - 1].name);
        var m :| 0 <= m < |s| && s[m].name == occ[k - 1].name;
        assert First(occ, s[m].name, s[m].order);
        assert s[m].order == k - 1 && m < i;
        forall j | m < j < |s| ensures k <= s[j].order { assert s[m].order < s[j].order; }
        assert s[i - 1].order < k;
        DistinctsBefore(occ, s, k - 1, i - 1);
      } else {
        forall j | 0 <= j < |s| ensures s[j].order != k - 1 { assert First(occ, s[j].name, s[j].order); }
        DistinctsBefore(occ, s, k - 1, i);
      }
    }
  }

  /** A complete list is as long as there are distinct names. */
  lemma AsManyAsDistinct(occ: seq<Ref>, names: seq<Ref>, byOrder: seq<Ref> -> seq<Ref>)
    requires Complete(occ, names) && SortsByOrder(byOrder)
    ensures |names| == Distincts(occ, |occ|)
  {
    var sorted := byOrder(names);
    CompleteRearranged(occ, names, sorted);
    OrdersDiffer(occ, sorted);
    forall j | 0 <= j < |sorted| ensures sorted[j].order < |occ| { assert First(occ, sorted[j].name, sorted[j].order); }
    DistinctsBefore(occ, sorted, |occ|, |sorted|);
  }

  method Renumber(s: seq<Ref>, ghost occ: seq<Ref>) returns (t: seq<Ref>)
    requires Complete(occ, s) && StrictByOrder(s)
    ensures Complete(occ, t) && Numbered(t) && Ranked(occ, t) && |t| == |s|
  {
    t := s;
    for index := 0 to |s|
      invariant |t| == |s| && forall i :: 0 <= i < |s| ==> t[i].name == s[i].name && t[i].order == s[i].order
      invariant forall i :: 0 <= i < index ==> t[i].id == i + 1
    {
      t := t[index := t[index].(id := index + 1)];
    }
    RenumberedOk(s, t, occ);
  }

  lemma RanksFollow(s: seq<Ref>, t: seq<Ref>, occ: seq<Ref>)
    requires Complete(occ, s) && StrictByOrder(s) && |t| == |s|
    requires forall i :: 0 <= i < |s| ==> t[i] == Ref(s[i].name, s[i].order, i + 1)
    ensures Ranked(occ, t)
  {
    forall i | 0 <= i < |t| ensures t[i].order <= |occ| && t[i].id == 1 + Distincts(occ, t[i].order) {
      assert First(occ, s[i].name, s[i].order);
      DistinctsBefore(occ, s, s[i].order, i);
    }
  }

  lemma RenumberedComplete(s: seq<Ref>, t: seq<Ref>, occ: seq<Ref>)
    requires Complete(occ, s) && |t| == |s|
    requires forall i :: 0 <= i < |s| ==> t[i] == Ref(s[i].name, s[i].order, i + 1)
    ensures Complete(occ, t)
  {
    forall i | 0 <= i < |occ| ensures Listed(t, occ[i].name) {
      assert Listed(s, occ[i].name);
      var k :| 0 <= k < |s| && s[k].name == occ[i].name;
      assert t[k].name == occ[i].name;
    }
  }

  lemma RenumberedOk(s: seq<Ref>, t: seq<Ref>, occ: seq<Ref>)
    requires Complete(occ, s) && StrictByOrder(s) && |t| == |s|
    requires forall i :: 0 <= i < |s| ==> t[i] == Ref(s[i].name, s[i].order, i + 1)
    ensures Complete(occ, t) && Numbered(t) && Ranked(occ, t)
  {
    RenumberedComplete(s, t, occ);
    RanksFollow(s, t, occ);
    NumbersFollow(s, t);
  }

  lemma NumbersFollow(s: seq<Ref>, t: seq<Ref>)
    requires StrictByOrder(s) && |t| == |s|
    requires forall i :: 0 <= i < |s| ==> t[i] == Ref(s[i].name, s[i].order, i + 1)
    ensures Numbered(t)
  {
    forall v | 1 <= v <= |t| ensures HasId(t, v) { assert t[v - 1].id == v; }
  }

  lemma NumberedRearranged(s: seq<Ref>, t: seq<Ref>)
    requires Numbered(s) && Rearranges(s, t)
    ensures Numbered(t)
  {
    SameElements(s, t);
    forall i | 0 <= i < |t| ensures 1 <= t[i].id <= |t| { assert t[i] in s; }
    forall i, j | 0 <= i < |t| && 0 <= j < |t| ensures t[i].id < t[j].id <==> t[i].order < t[j].order {
      assert t[i] in s && t[j] in s;
    }
    forall v | 1 <= v <= |t| ensures HasId(t, v) {
      assert HasId(s, v);
      var k :| 0 <= k < |s| && s[k].id == v;
      assert s[k] in t;
    }
  }

  lemma RankedRearranged(occ: seq<Ref>, s: seq<Ref>, t: seq<Ref>)
    requires Ranked(occ, s) && Rearranges(s, t)
    ensures Ranked(occ, t)
  {
    SameElements(s, t);
    forall i | 0 <= i < |t| ensures t[i].order <= |occ| && t[i].id == 1 + Distincts(occ, t[i].order) { assert t[i] in s; }
  }

  lemma Strict(occ: seq<Ref>, s: seq<Ref>)
    requires Complete(occ, s) && ByName(s)
    ensures StrictByName(s)
  {
  }

  /** scxml_analyze_build_event_names, for any sorting routine. */
  method BuildEventNames(occ: seq<Ref>, byName: seq<Ref> -> seq<Ref>, byOrder: seq<Ref> -> seq<Ref>, maxEvents: nat)
    returns (ok: bool, names: seq<Ref>)
    requires Collected(occ) && SortsByName(byName) && SortsByOrder(byOrder)
    ensures Complete(occ, names) && StrictByName(names) && |names| == Distincts(occ, |occ|)
    ensures ok <==> Distincts(occ, |occ|) <= maxEvents
    ensures ok ==> Numbered(names) && Ranked(occ, names)
  {
    if occ == [] { return true, []; }
    names := Deduplicate(byName(occ), occ);
    AsManyAsDistinct(occ, names, byOrder);
    if |names| > maxEvents { return false, names; }
    var sorted := byOrder(names);
    CompleteRearranged(occ, names, sorted);
    OrdersDiffer(occ, sorted);
    var numbered := Renumber(sorted, occ);
    names := byName(numbered);
    CompleteRearranged(occ, numbered, names);
    NumberedRearranged(numbered, names);
    RankedRearranged(occ, numbered, names);
    Strict(occ, names);
    ok := true;
  }

  /** scxml_analyze_find_name_ref: finds the entry of a listed name and nothing else. */
  method FindName(names: seq<Ref>, name: Name) returns (found: bool, at: nat)
    requires StrictByName(names)
    ensures found <==> Listed(names, name)
    ensures found ==> at < |names| && names[at].name == name
  {
    var low: nat, high: nat := 0, |names|;
    while low < high
      invariant low <= high <= |names|
      invariant forall i :: 0 <= i < low ==> Less(names[i].name, name)
      invariant forall i :: high <= i < |names| ==> !Less(names[i].name, name)
    {
      var middle := low + (high - low) / 2;
      var compared := Compare(names[middle].name, name);
      if compared < 0 {
        forall i | 0 <= i <= middle ensures Less(names[i].name, name) {
          if i < middle { LessTrans(names[i].name, names[middle].name, name); }
        }
        low := middle + 1;
      } else {
        forall i | middle <= i < |names| ensures !Less(names[i].name, name) {
          if i > middle && Less(names[i].name, name) { LessTrans(names[middle].name, names[i].name, name); }
        }
        high := middle;
      }
    }
    found, at := low < |names| && names[low].name == name, low;
    forall i | 0 <= i < |names| && i != low ensures names[i].name != name {
      LessIrreflexive(name);
      if low < i { assert Less(names[low].name, names[i].name); }
    }
  }

  /** In a built table exactly the collected names are listed, each with its id: one more than the number
      of distinct names that first occur before it. */
  lemma LookupIsExact(occ: seq<Ref>, names: seq<Ref>, name: Name)
    requires Complete(occ, names) && Ranked(occ, names)
    ensures Listed(names, name) <==> Occurs(occ, name)
    ensures forall at, k :: 0 <= at < |names| && names[at].name == name && First(occ, name, k) ==>
              names[at].id == 1 + Distincts(occ, k)
  {
    if Listed(names, name) {
      var k :| 0 <= k < |names| && names[k].name == name;
      assert First(occ, names[k].name, names[k].order);
    }
    forall at, k | 0 <= at < |names| && names[at].name == name && First(occ, name, k)
      ensures names[at].id == 1 + Distincts(occ, k)
    {
      assert First(occ, names[at].name, names[at].order);
      assert names[at].order == k;
    }
  }

  /** Collect, build, look up: any collected name gives its id, any other gives nothing. */
  method LookupEvent(
    occ: seq<Ref>, byName: seq<Ref> -> seq<Ref>, byOrder: seq<Ref> -> seq<Ref>, maxEvents: nat, name: Name)
    returns (built: bool, found: bool, id: nat)
    requires Collected(occ) && SortsByName(byName) && SortsByOrder(byOrder)
    ensures built <==> Distincts(occ, |occ|) <= maxEvents
    ensures built ==> (found <==> Occurs(occ, name))
    ensures built && found ==> exists k :: First(occ, name, k) && id == 1 + Distincts(occ, k)
  {
    var names, at;
    built, names := BuildEventNames(occ, byName, byOrder, maxEvents);
    if !built { return false, false, 0; }
    found, at := FindName(names, name);
    LookupIsExact(occ, names, name);
    id := if found then names[at].id else 0;
    if found { assert First(occ, names[at].name, names[at].order); }
  }
}
