/**
 The invariant of the egress protocol: rows match what threads outside the lock owe,
 references and counters match the rows.
 */
module EgressInvariant {
  import opened EgressModel

  // ----- counting rows -----------------------------------------------------

  datatype Kind = Waiting | Flying | Sending | OwnedBy(b: Ref)

  predicate Is(r: Row, k: Kind) {
    match k
    case Waiting => r.phase.Reserved? || r.phase.Ready?
    case Flying => r.phase.Submitting? || r.phase.Submitted?
    case Sending => r.phase.Ready? || r.phase.Submitting? || r.phase.Submitted?
    case OwnedBy(b) => !r.phase.Free? && r.binding == b
  }

  function One(r: Row, k: Kind): nat { if Is(r, k) then 1 else 0 }

  function Count(rows: seq<Row>, k: Kind): nat {
    if rows == [] then 0 else Count(rows[..|rows| - 1], k) + One(rows[|rows| - 1], k)
  }

  lemma {:induction false} CountUpdate(rows: seq<Row>, i: nat, r: Row, k: Kind)
    requires i < |rows|
    ensures Count(rows[i := r], k) + One(rows[i], k) == Count(rows, k) + One(r, k)
  {
    var n := |rows| - 1;
    if i < n {
      CountUpdate(rows[..n], i, r, k);
      assert rows[i := r][..n] == rows[..n][i := r];
    } else {
      assert rows[i := r][..n] == rows[..n];
    }
  }

  lemma {:induction false} CountPositive(rows: seq<Row>, i: nat, k: Kind)
    requires i < |rows| && Is(rows[i], k)
    ensures 0 < Count(rows, k)
  {
    if i < |rows| - 1 { CountPositive(rows[..|rows| - 1], i, k); }
  }

  lemma {:induction false} CountZero(rows: seq<Row>, k: Kind)
    requires forall i :: 0 <= i < |rows| ==> !Is(rows[i], k)
    ensures Count(rows, k) == 0
  {
    if rows != [] { CountZero(rows[..|rows| - 1], k); }
  }

  /** A set that changes at most at `i`. */
  lemma CardUpdate(x: set<nat>, y: set<nat>, i: nat)
    requires x - {i} == y - {i}
    ensures |y| + (if i in x then 1 else 0) == |x| + (if i in y then 1 else 0)
  {
    var rest := x - {i};
    if i in x { assert x == rest + {i}; } else { assert x == rest; }
    if i in y { assert y == rest + {i}; } else { assert y == rest; }
  }

  // ----- what is owed about a row ------------------------------------------

  /** Everything outside the lock that concerns one row. */
  datatype Duty = Duty(preparing: bool, forBinding: Ref, ticketed: bool, outstanding: bool, finishing: bool,
                       submitting: bool, taken: bool, stopping: bool, request: nat)

  function DutyOf(s: Sys, i: nat): Duty {
    Duty(i in s.preparing, if i in s.preparing then s.preparing[i] else 0,
         i in s.ticketed, i in s.outstanding, i in s.finishing,
         s.worker.AtSubmit? && s.worker.row == i, s.worker == AtSubmit(i, true),
         s.worker.AtCancel? && s.worker.row == i,
         if s.worker.AtCancel? && s.worker.row == i then s.worker.request else 0)
  }

  /** A generation counter after the row was taken `n` times; zero is skipped on wrap-around. */
  function GenOf(n: nat): nat { if n == 0 then 0 else (n - 1) % U32_MAX + 1 }

  predicate RowOk(r: Row) {
    && (r.phase.Free? <==> r.binding == 0)
    && (r.phase.Free? ==> r == Blank(r))
    && (!r.phase.Free? ==> 1 <= r.inc)
    && (r.cancel ==> r.wanted) && (r.phase.Reserved? ==> !r.wanted)
    && (r.told ==> r.phase.Submitted? || r.phase.Completing?)
    && r.gen == GenOf(r.inc)
  }

  /** The phase of a row says exactly who owes it a step. */
  predicate DutyOk(r: Row, d: Duty) {
    && (r.phase.Reserved? <==> d.preparing || d.ticketed)
    && !(d.preparing && d.ticketed)
    && (d.preparing ==> d.forBinding == r.binding)
    && (r.phase.Completing? <==> d.finishing)
    && (r.phase.Submitting? ==> d.submitting)
    && (d.outstanding <==> r.phase.Submitted? || (r.phase.Submitting? && d.taken))
    && (d.submitting && !d.taken ==> r.phase.Submitting?)
    && (d.submitting ==> !r.phase.Submitted?)
    && (d.stopping && r.phase.Submitted? ==> d.request == r.request && r.wanted)
  }

  /** A stop request on a committed row is flagged, or being passed on, or taken on by the client. */
  predicate StopKept(r: Row, d: Duty) {
    r.wanted && !r.phase.Completing? ==> r.cancel || r.told || (d.stopping && r.phase.Submitted?)
  }

  predicate Fits(r: Row, d: Duty) { RowOk(r) && DutyOk(r, d) && StopKept(r, d) }

  // ----- the invariant -----------------------------------------------------

  ghost predicate Rows(s: Sys) { forall i :: 0 <= i < |s.rows| ==> Fits(s.rows[i], DutyOf(s, i)) }

  /** A live row's binding exists and has not become quiescent. */
  predicate OwnerOk(s: Sys, r: Row) {
    !r.phase.Free? ==> r.binding in s.bindings && !s.bindings[r.binding].state.Quiescent?
  }

  ghost predicate Owners(s: Sys) { forall i :: 0 <= i < |s.rows| ==> OwnerOk(s, s.rows[i]) }

  /** Everything owed refers to existing rows and slots. */
  ghost predicate Shape(s: Sys) {
    && |s.slots| == |s.rows|
    && (forall i :: i in s.preparing ==> i < |s.rows|) && (forall i :: i in s.ticketed ==> i < |s.rows|)
    && (forall i :: i in s.outstanding ==> i < |s.rows|) && (forall i :: i in s.finishing ==> i < |s.rows|)
    && (forall k :: k in s.cancels ==> k < |s.slots|)
    && (!s.worker.Idle? ==> s.worker.row < |s.rows|)
  }

  ghost predicate BindingOk(s: Sys, b: Ref)
    requires b in s.bindings
  {
    var d := s.bindings[b];
    && b != 0 && b in s.used
    && d.outbound == Count(s.rows, OwnedBy(b))
    && d.callbacks == s.handlers[b]
    && (d.state.Quiescent? ==> d.outbound == 0 && d.callbacks == 0)
    && (d.state.Active? ==> d.hasSession)
  }

  ghost predicate Bindings(s: Sys) {
    && (forall b :: b in s.bindings ==> BindingOk(s, b))
    && (forall b :: b in s.handlers ==> b in s.bindings)
    && (s.bindings != map[] ==> s.running)
  }

  predicate SlotOk(s: Sys, k: nat)
    requires k < |s.slots|
  {
    var t := s.slots[k];
    && (t.reserved <==> k in s.cancels)
    && (t.reserved ==> t.index < |s.rows| && 1 <= t.inc <= s.rows[t.index].inc && t.gen == GenOf(t.inc))
  }

  ghost predicate Slots(s: Sys) { forall k :: 0 <= k < |s.slots| ==> SlotOk(s, k) }

  /** Accepted sends without an outcome. */
  function Unsettled(s: Sys): int { s.accepted - s.completed - s.failed - s.cancelled - s.dropped }

  ghost predicate Totals(s: Sys) {
    && s.queued == Count(s.rows, Waiting)
    && s.inFlight == Count(s.rows, Flying)
    && Unsettled(s) == |s.ticketed| + Count(s.rows, Sending)
  }

  /** An accepted request whose completion overtook submit_one. */
  predicate Overtaken(s: Sys) {
    s.worker.AtSubmit? && s.worker.accepted && s.worker.row !in s.outstanding
  }

  /** The fault counter counts overtaken submissions, cancels of absent requests, odd client answers and poll errors. */
  predicate Diagnosed(s: Sys) {
    s.faults + (if Overtaken(s) then 1 else 0) == s.early + s.absent + s.odd + s.polls
  }

  ghost predicate Inv(s: Sys) {
    Shape(s) && Rows(s) && Owners(s) && Bindings(s) && Slots(s) && Totals(s) && Diagnosed(s)
  }

  // ----- steps that change one row -----------------------------------------

  /** Only row `i` and what is owed about it differ. */
  ghost predicate OnlyRow(s: Sys, s': Sys, i: nat) {
    && i < |s.rows| == |s'.rows| && s'.rows == s.rows[i := s'.rows[i]]
    && s'.ticketed - {i} == s.ticketed - {i}
    && (forall j :: 0 <= j < |s.rows| && j != i ==> DutyOf(s', j) == DutyOf(s, j))
    && s.rows[i].inc <= s'.rows[i].inc
  }

  /** Bindings keep their life; references follow row `i`. */
  ghost predicate References(s: Sys, s': Sys, i: nat)
    requires i < |s.rows| && i < |s'.rows|
  {
    && s'.bindings.Keys == s.bindings.Keys && s'.used == s.used && s'.handlers == s.handlers && s'.running == s.running
    && forall c :: c in s.bindings ==>
         && s'.bindings[c].state == s.bindings[c].state && s'.bindings[c].callbacks == s.bindings[c].callbacks
         && s'.bindings[c].hasSession == s.bindings[c].hasSession
         && s'.bindings[c].outbound + One(s.rows[i], OwnedBy(c)) == s.bindings[c].outbound + One(s'.rows[i], OwnedBy(c))
  }

  function Stake(s: Sys, i: nat): nat
    requires i < |s.rows|
  {
    One(s.rows[i], Sending) + if i in s.ticketed then 1 else 0
  }

  /** The counters follow row `i`. */
  predicate Counters(s: Sys, s': Sys, i: nat)
    requires i < |s.rows| && i < |s'.rows|
  {
    && s'.queued + One(s.rows[i], Waiting) == s.queued + One(s'.rows[i], Waiting)
    && s'.inFlight + One(s.rows[i], Flying) == s.inFlight + One(s'.rows[i], Flying)
    && Unsettled(s') + Stake(s, i) == Unsettled(s) + Stake(s', i)
  }

  lemma RowsKept(s: Sys, s': Sys, i: nat)
    requires Rows(s) && Owners(s) && OnlyRow(s, s', i) && References(s, s', i)
    requires Fits(s'.rows[i], DutyOf(s', i)) && OwnerOk(s', s'.rows[i])
    ensures Rows(s') && Owners(s')
  {
    forall j | 0 <= j < |s'.rows| ensures Fits(s'.rows[j], DutyOf(s', j)) && OwnerOk(s', s'.rows[j]) {
      if j != i { assert Fits(s.rows[j], DutyOf(s, j)) && OwnerOk(s, s.rows[j]); }
    }
  }

  lemma ReferencesKept(s: Sys, s': Sys, i: nat)
    requires Bindings(s) && OnlyRow(s, s', i) && References(s, s', i) && OwnerOk(s', s'.rows[i])
    ensures Bindings(s')
  {
    forall c | c in s'.bindings ensures BindingOk(s', c) {
      assert BindingOk(s, c);
      CountUpdate(s.rows, i, s'.rows[i], OwnedBy(c));
    }
    if s.bindings == map[] { assert s'.bindings == map[]; }
  }

  lemma TotalsKept(s: Sys, s': Sys, i: nat)
    requires Totals(s) && OnlyRow(s, s', i) && Counters(s, s', i)
    ensures Totals(s')
  {
    CountUpdate(s.rows, i, s'.rows[i], Waiting);
    CountUpdate(s.rows, i, s'.rows[i], Flying);
    CountUpdate(s.rows, i, s'.rows[i], Sending);
    CardUpdate(s.ticketed, s'.ticketed, i);
  }

  lemma SlotsKept(s: Sys, s': Sys, i: nat)
    requires Slots(s) && OnlyRow(s, s', i) && s'.slots == s.slots && s'.cancels == s.cancels
    ensures Slots(s')
  {
    forall k | 0 <= k < |s'.slots| ensures SlotOk(s', k) { assert SlotOk(s, k); }
  }

  /** What the invariant says around one row. */
  ghost predicate At(s: Sys, i: nat) {
    && i < |s.rows| && Fits(s.rows[i], DutyOf(s, i)) && OwnerOk(s, s.rows[i]) && Shape(s) && Diagnosed(s)
    && One(s.rows[i], Waiting) <= s.queued && One(s.rows[i], Flying) <= s.inFlight
    && (!s.rows[i].phase.Free? ==> 0 < s.bindings[s.rows[i].binding].outbound)
  }

  /** The counters and references a live row is in are not zero, so no decrement saturates. */
  lemma AtRow(s: Sys, i: nat)
    requires Inv(s) && i < |s.rows|
    ensures At(s, i)
  {
    assert Fits(s.rows[i], DutyOf(s, i)) && OwnerOk(s, s.rows[i]);
    if Is(s.rows[i], Waiting) { CountPositive(s.rows, i, Waiting); }
    if Is(s.rows[i], Flying) { CountPositive(s.rows, i, Flying); }
    if !s.rows[i].phase.Free? {
      CountPositive(s.rows, i, OwnedBy(s.rows[i].binding));
      assert BindingOk(s, s.rows[i].binding);
    }
  }

  /** A step confined to row `i` that leaves it consistent. */
  ghost predicate LocalRow(s: Sys, s': Sys, i: nat) {
    && OnlyRow(s, s', i) && Fits(s'.rows[i], DutyOf(s', i)) && OwnerOk(s', s'.rows[i])
    && s'.slots == s.slots && s'.cancels == s.cancels && Shape(s')
  }

  /** References and counters follow the row. */
  ghost predicate LocalBooks(s: Sys, s': Sys, i: nat) {
    i < |s.rows| && i < |s'.rows| && References(s, s', i) && Counters(s, s', i) && Diagnosed(s')
  }

  ghost predicate Local(s: Sys, s': Sys, i: nat) { LocalRow(s, s', i) && LocalBooks(s, s', i) }

  lemma LocalInv(s: Sys, s': Sys, i: nat)
    requires Inv(s) && Local(s, s', i)
    ensures Inv(s')
  {
    RowsKept(s, s', i);
    ReferencesKept(s, s', i);
    TotalsKept(s, s', i);
    SlotsKept(s, s', i);
  }

  lemma NextGenOf(n: nat)
    ensures NextGen(GenOf(n)) == GenOf(n + 1)
  {
    if n != 0 {
      var q, r := (n - 1) / U32_MAX, (n - 1) % U32_MAX;
      assert n == q * U32_MAX + (r + 1);
      if r + 1 < U32_MAX {
        Remainder(n, q, r + 1);
      } else {
        Remainder(n, q + 1, 0);
      }
    }
  }

  lemma Remainder(n: nat, q: nat, r: nat)
    requires n == q * U32_MAX + r && r < U32_MAX
    ensures n % U32_MAX == r
  {
  }
}
