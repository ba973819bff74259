/**
 The endpoint table: the bindings of the protocol are those that hold a row, each the one it was
 given, so destroy never finds it taken by another binding or generation.
 */
module EgressEndpoints {
  import opened EgressModel
  import opened EgressInvariant
  import opened EgressSteps
  import opened EgressLife
  import opened EgressRuns

  /** `binding` is 0 in a free row. */
  datatype Endpoint = Endpoint(binding: Ref, generation: nat)

  /** What a binding remembers of its row. */
  datatype Claim = Claim(index: nat, generation: nat)

  predicate Held(rows: seq<Endpoint>, claims: map<Ref, Claim>, b: Ref)
    requires b in claims
  {
    b != 0 && claims[b].index < |rows| && rows[claims[b].index] == Endpoint(b, claims[b].generation)
  }

  /** Rows and bindings agree, both ways. */
  ghost predicate Consistent(rows: seq<Endpoint>, claims: map<Ref, Claim>) {
    && (forall b :: b in claims ==> Held(rows, claims, b))
    && (forall i :: 0 <= i < |rows| && rows[i].binding != 0 ==> rows[i].binding in claims && claims[rows[i].binding].index == i)
  }

  /** The first row without a binding. */
  predicate FirstVacant(rows: seq<Endpoint>, i: nat) {
    i < |rows| && rows[i].binding == 0 && forall j :: 0 <= j < i ==> rows[j].binding != 0
  }

  /** Binding `b` was given the first vacant row, in its next generation, and nothing else changed. */
  predicate Given(was: seq<Endpoint>, rows: seq<Endpoint>, claims: map<Ref, Claim>, claims': map<Ref, Claim>, b: Ref) {
    && b in claims' && claims' == claims[b := claims'[b]]
    && var Claim(i, generation) := claims'[b];
    && FirstVacant(was, i) && generation == NextGen(was[i].generation) && rows == was[i := Endpoint(b, generation)]
  }

  predicate SameBindings(was: seq<Endpoint>, rows: seq<Endpoint>) {
    |rows| == |was| && forall i :: 0 <= i < |rows| ==> rows[i].binding == was[i].binding
  }

  datatype InitStatus = Bound | NoRow | UriTooLong

  /** A vacant row goes to a new binding, or only gets its next generation. */
  lemma RowTaken(rows: seq<Endpoint>, claims: map<Ref, Claim>, i: nat, b: Ref, generation: nat)
    requires Consistent(rows, claims) && i < |rows| && rows[i].binding == 0 && b != 0 && b !in claims
    ensures Consistent(rows[i := Endpoint(b, generation)], claims[b := Claim(i, generation)])
    ensures Consistent(rows[i := Endpoint(0, generation)], claims)
  {
    var taken, claims' := rows[i := Endpoint(b, generation)], claims[b := Claim(i, generation)];
    forall c | c in claims' ensures Held(taken, claims', c) { if c != b { assert Held(rows, claims, c); } }
    forall c | c in claims ensures Held(rows[i := Endpoint(0, generation)], claims, c) { assert Held(rows, claims, c); }
  }

  /** A binding's memory is not that of another that is still there. */
  predicate New(s: Sys, b: Ref) { b != 0 && b !in s.bindings }

  /** So it is whenever the protocol can make the binding. */
  lemma InitIsNew(s: Sys, b: Ref)
    requires Reached(s) && Enabled(s, DoInit(b))
    ensures New(s, b)
  {
    Reachable(s);
  }

  lemma InitKeys(s: Sys, b: Ref)
    ensures Init(s, b).bindings.Keys == s.bindings.Keys + {b}
  {
  }

  class Endpoints {
    const rows: array<Endpoint>
    var claims: map<Ref, Claim>
    var liveBindings: nat

    ghost predicate Valid()
      reads this, rows
    {
      Consistent(rows[..], claims) && liveBindings == |claims.Keys|
    }

    /** The bindings of the protocol are those with a row. */
    ghost predicate Tracks(s: Sys)
      reads this
    {
      claims.Keys == s.bindings.Keys
    }

    constructor (capacity: nat)
      ensures Valid() && fresh(rows) && claims == map[] && rows.Length == capacity
    {
      rows := new Endpoint[capacity](_ => Endpoint(0, 0));
      claims := map[];
      liveBindings := 0;
    }

    /** Takes the first free row; `fits` says whether its access URI could be built. Only a binding that
        got its row enters the protocol. */
    method Init(ghost s: Sys, b: Ref, fits: bool) returns (status: InitStatus)
      requires Valid() && Tracks(s) && New(s, b)
      modifies this, rows
      ensures Valid() && (status.Bound? ==> Tracks(EgressModel.Init(s, b))) && (!status.Bound? ==> Tracks(s))
      ensures status.NoRow? <==> forall i :: 0 <= i < rows.Length ==> old(rows[i]).binding != 0
      ensures status.Bound? ==> Given(old(rows[..]), rows[..], old(claims), claims, b)
      ensures !status.Bound? ==> claims == old(claims) && SameBindings(old(rows[..]), rows[..])
    {
      var i := FirstRow();
      if i == rows.Length { return NoRow; }
      Take(i, b, fits);
      InitKeys(s, b);
      return if fits then Bound else UriTooLong;
    }

    method FirstRow() returns (i: nat)
      ensures i == rows.Length || FirstVacant(rows[..], i)
      ensures i == rows.Length <==> forall j :: 0 <= j < rows.Length ==> rows[j].binding != 0
    {
      i := 0;
      while i < rows.Length && rows[i].binding != 0
        invariant 0 <= i <= rows.Length && forall j :: 0 <= j < i ==> rows[j].binding != 0
      {
        i := i + 1;
      }
    }

    method Take(i: nat, b: Ref, fits: bool)
      requires Valid() && FirstVacant(rows[..], i) && b != 0 && b !in claims
      modifies this, rows
      ensures Valid()
      ensures fits ==> Given(old(rows[..]), rows[..], old(claims), claims, b) && claims.Keys == old(claims.Keys) + {b}
      ensures !fits ==> claims == old(claims) && SameBindings(old(rows[..]), rows[..])
    {
      ghost var was := rows[..];
      var generation := NextGen(rows[i].generation);
      RowTaken(was, claims, i, b, generation);
      rows[i] := Endpoint(if fits then b else 0, generation);
      assert rows[..] == was[i := Endpoint(if fits then b else 0, generation)];
      if fits {
        claims := claims[b := Claim(i, generation)];
        liveBindings := liveBindings + 1;
        assert claims.Keys == old(claims.Keys) + {b};
      }
    }

    /** The row is always still this binding's; releasing it leaves the others theirs. */
    method Destroy(ghost s: Sys, b: Ref) returns (matched: bool)
      requires Valid() && Tracks(s) && Enabled(s, DoDestroy(b))
      modifies this, rows
      ensures Valid() && Tracks(EgressModel.Destroy(s, b))
      ensures matched && claims == old(claims) - {b} && liveBindings == old(liveBindings) - 1
      ensures var i := old(claims)[b].index;
        i < rows.Length && rows[..] == old(rows[..])[i := Endpoint(0, old(claims)[b].generation)]
    {
      assert Held(rows[..], claims, b);
      var i := claims[b].index;
      matched := rows[i].binding == b && rows[i].generation == claims[b].generation;
      if matched {
        rows[i] := rows[i].(binding := 0);
        claims := claims - {b};
        liveBindings := liveBindings - 1;
        assert claims.Keys == old(claims.Keys) - {b};
      }
    }
  }

  /** No other step of the protocol makes or frees a binding, so the table goes on tracking it. */
  lemma BindingsKept(s: Sys, step: Step)
    requires Enabled(s, step) && !step.DoInit? && !step.DoDestroy?
    ensures Apply(s, step).bindings.Keys == s.bindings.Keys
  {
    if BySession(step) {
      SessionLife(s, step);
    } else if ByWorker(step) {
      WorkerLife(s, step);
    } else if step.DoClose? && s.bindings[step.b].Open() {
      CloseRowsLife(SetClosing(s, step.b), step.b, 0);
    }
  }
}
