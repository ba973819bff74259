/**
 How many steps rows still have to take until they are free.
 */
module EgressWork {
  import opened EgressModel

  /** Whose rows are weighed. */
  datatype Whose = Everyone | Of(b: Ref)
  {
    predicate Owns(r: Row) { Everyone? || r.binding == b }
  }

  function Weight(r: Row, whose: Whose): nat {
    if !whose.Owns(r) then 0
    else
      match r.phase
      case Free => 0
      case Reserved => 1
      case Ready => 4
      case Submitting => 3
      case Submitted => 2
      case Completing => 1
  }

  function Load(rows: seq<Row>, whose: Whose): nat {
    if rows == [] then 0 else Load(rows[..|rows| - 1], whose) + Weight(rows[|rows| - 1], whose)
  }

  lemma {:induction false} LoadUpdate(rows: seq<Row>, i: nat, r: Row, whose: Whose)
    requires i < |rows|
    ensures Load(rows[i := r], whose) + Weight(rows[i], whose) == Load(rows, whose) + Weight(r, whose)
  {
    var n := |rows| - 1;
    if i < n {
      LoadUpdate(rows[..n], i, r, whose);
      assert rows[i := r][..n] == rows[..n][i := r];
    } else {
      assert rows[i := r][..n] == rows[..n];
    }
  }

  lemma {:induction false} LoadShrinks(rows: seq<Row>, rows': seq<Row>, whose: Whose)
    requires |rows'| == |rows| && forall i :: 0 <= i < |rows| ==> Weight(rows'[i], whose) <= Weight(rows[i], whose)
    ensures Load(rows', whose) <= Load(rows, whose)
    ensures (exists i :: 0 <= i < |rows| && Weight(rows'[i], whose) < Weight(rows[i], whose)) ==>
              Load(rows', whose) < Load(rows, whose)
  {
    if rows != [] { LoadShrinks(rows[..|rows| - 1], rows'[..|rows| - 1], whose); }
  }

  /** Nothing is left exactly when every weighed row is free. */
  lemma {:induction false} LoadZero(rows: seq<Row>, whose: Whose)
    ensures Load(rows, whose) == 0 <==> forall i :: 0 <= i < |rows| && whose.Owns(rows[i]) ==> rows[i].phase.Free?
  {
    if rows != [] {
      var n := |rows| - 1;
      LoadZero(rows[..n], whose);
      assert forall i :: 0 <= i < n ==> rows[i] == rows[..n][i];
    }
  }
}
