/**
 The typed scope: registering names lays out aligned, disjoint slots in one block of storage.
 */
module ScopeLayout {
  import opened Basics

  datatype Support = Unsupported | Trivial | Managed

  /** A value's type: identity, size, alignment, and what may be done with it. */
  datatype Desc = Desc(typeId: nat, size: nat, align: nat, traits: Support)

  datatype Slot = Slot(name: string, desc: Desc, offset: nat, managed: bool)

  // ----- alignment ---------------------------------------------------------

  function Pow2(k: nat): (p: nat)
    ensures 1 <= p
  {
    if k == 0 then 1 else 2 * Pow2(k - 1)
  }

  ghost predicate IsPow2(a: nat) { exists k :: a == Pow2(k) }

  /** scope_type_supported */
  ghost predicate Supported(d: Desc) { d.size != 0 && IsPow2(d.align) && !d.traits.Unsupported? }

  lemma {:induction false} Pow2Divides(j: nat, k: nat)
    requires j <= k
    ensures Pow2(k) == Pow2(j) * Pow2(k - j)
  {
    if j < k {
      Pow2Divides(j, k - 1);
      assert Pow2(k) == 2 * (Pow2(j) * Pow2(k - 1 - j)) == Pow2(j) * (2 * Pow2(k - 1 - j));
    }
  }

  lemma {:induction false} Pow2Grows(j: nat, k: nat)
    requires j < k
    ensures Pow2(j) < Pow2(k)
  {
    if j < k - 1 { Pow2Grows(j, k - 1); }
  }

  function Times(q: nat, a: nat): nat { q * a }

  ghost predicate Divides(a: nat, b: nat) { exists q :: b == Times(q, a) }

  /** Of two powers of two the smaller divides the larger. */
  lemma SmallerDivides(a: nat, b: nat)
    requires IsPow2(a) && IsPow2(b) && a <= b
    ensures Divides(a, b)
  {
    var j: nat :| a == Pow2(j);
    var k: nat :| b == Pow2(k);
    if k < j { Pow2Grows(k, j); }
    Pow2Divides(j, k);
    assert b == Times(Pow2(k - j), a);
  }

  /** The first multiple of `a` at or after `x`; for a power of two the mask form gives the same. */
  function AlignUp(x: nat, a: nat): nat
    requires a != 0
  {
    (x + a - 1) / a * a
  }

  lemma AlignUpOk(x: nat, a: nat)
    requires a != 0
    ensures x <= AlignUp(x, a) < x + a && Divides(a, AlignUp(x, a))
  {
    var y := x + a - 1;
    assert y == y / a * a + y % a;
    assert AlignUp(x, a) == Times(y / a, a);
  }

  lemma DividesTrans(a: nat, b: nat, x: nat)
    requires Divides(a, b) && Divides(b, x)
    ensures Divides(a, x)
  {
    var p: nat :| b == Times(p, a);
    var q: nat :| x == Times(q, b);
    assert q * (p * a) == (q * p) * a;
    assert x == Times(q * p, a);
  }

  lemma DividesSum(a: nat, x: nat, y: nat)
    requires Divides(a, x) && Divides(a, y)
    ensures Divides(a, x + y)
  {
    var p: nat :| x == Times(p, a);
    var q: nat :| y == Times(q, a);
    assert x + y == Times(p + q, a);
  }

  // ----- the layout --------------------------------------------------------

  function End(s: Slot): nat { s.offset + s.desc.size }

  ghost predicate SlotOk(s: Slot, align: nat) {
    && s.name != "" && Supported(s.desc) && (s.managed <==> s.desc.traits.Managed?)
    && Divides(s.desc.align, s.offset) && s.desc.align <= align
  }

  /** Slots with distinct names, each after the one before it, all inside the storage. */
  ghost predicate Laid(slots: seq<Slot>, size: nat, align: nat) {
    && IsPow2(align)
    && (forall i :: 0 <= i < |slots| ==> SlotOk(slots[i], align) && End(slots[i]) <= size)
    && (forall i, j :: 0 <= i < j < |slots| ==> slots[i].name != slots[j].name && End(slots[i]) <= slots[j].offset)
  }

  /** In any block that starts at a multiple of the storage alignment, every slot is aligned. */
  lemma SlotsAligned(slots: seq<Slot>, size: nat, align: nat, base: nat, i: nat)
    requires Laid(slots, size, align) && i < |slots| && Divides(align, base)
    ensures Divides(slots[i].desc.align, base + slots[i].offset)
  {
    var s := slots[i];
    assert SlotOk(s, align);
    SmallerDivides(s.desc.align, align);
    DividesTrans(s.desc.align, align, base);
    DividesSum(s.desc.align, base, s.offset);
  }

  /** The value fits behind `size` bytes without overflow and within the limit. */
  ghost predicate Room(size: nat, d: Desc, max: nat) {
    && d.align != 0 && size + (d.align - 1) <= SIZE_MAX
    && AlignUp(size, d.align) + d.size <= SIZE_MAX && AlignUp(size, d.align) + d.size <= max
  }

  datatype Outcome = Registered(slot: nat) | Conflict | Refused

  class Schema {
    const slots: array<Slot>
    const maxStorage: nat
    var count: nat
    var storageSize: nat
    var storageAlign: nat
    var frozen: bool

    ghost predicate Valid()
      reads this, slots
    {
      && count <= slots.Length && storageSize <= maxStorage && storageAlign != 0
      && Laid(slots[..count], storageSize, storageAlign)
    }

    constructor (capacity: nat, maxStorageBytes: nat)
      ensures Valid() && fresh(slots) && slots.Length == capacity && maxStorage == maxStorageBytes && count == 0 && !frozen
    {
      slots := new Slot[capacity](_ => Slot("", Desc(0, 0, 0, Unsupported), 0, false));
      maxStorage := maxStorageBytes;
      count, storageSize, storageAlign, frozen := 0, 0, 1, false;
      new;
      assert Pow2(0) == 1;
    }

    method Find(name: string) returns (at: nat)
      requires Valid()
      ensures at <= count && (at < count ==> slots[at].name == name)
      ensures forall i :: 0 <= i < at ==> slots[i].name != name
    {
      at := 0;
      while at < count && slots[at].name != name
        invariant 0 <= at <= count && forall i :: 0 <= i < at ==> slots[i].name != name
      {
        at := at + 1;
      }
    }

    /** Adds a slot, or finds it again; never moves one. `supported` is scope_type_supported's answer,
        `copied` whether the name could be copied. */
    method Register(name: string, d: Desc, supported: bool, copied: bool) returns (outcome: Outcome)
      requires Valid() && (supported <==> Supported(d))
      modifies this`count, this`storageSize, this`storageAlign, slots
      ensures Valid()
      ensures old(count) <= count <= old(count) + 1 && slots[..old(count)] == old(slots[..count])
      ensures count == old(count) ==> storageSize == old(storageSize) && storageAlign == old(storageAlign)
      ensures outcome.Registered? ==> outcome.slot < count && slots[outcome.slot].name == name
                                      && slots[outcome.slot].desc.typeId == d.typeId
      ensures outcome.Conflict? ==> exists i :: 0 <= i < old(count) && slots[i].name == name && slots[i].desc.typeId != d.typeId
      ensures count == old(count) + 1 ==> outcome == Registered(old(count)) && slots[old(count)].desc == d
      ensures outcome.Refused? <==>
        || name == "" || frozen
        || ((forall i :: 0 <= i < old(count) ==> old(slots[i]).name != name)
            && (old(count) >= slots.Length || !supported || !Room(old(storageSize), d, maxStorage) || !copied))
    {
      if name == "" || frozen { return Refused; }
      var at := Find(name);
      if at < count {
        if slots[at].desc.typeId != d.typeId { return Conflict; }
        return Registered(at);
      }
      if count >= slots.Length || !supported { return Refused; }
      if storageSize > SIZE_MAX - (d.align - 1) { return Refused; }
      var aligned := AlignUp(storageSize, d.align);
      if aligned > SIZE_MAX - d.size || aligned + d.size > maxStorage { return Refused; }
      if !copied { return Refused; }
      AlignUpOk(storageSize, d.align);
      ghost var was := slots[..count];
      slots[count] := Slot(name, d, aligned, d.traits.Managed?);
      storageSize := aligned + d.size;
      if d.align > storageAlign { storageAlign := d.align; }
      count := count + 1;
      assert slots[..count] == was + [Slot(name, d, aligned, d.traits.Managed?)];
      return Registered(count - 1);
    }
  }
}
