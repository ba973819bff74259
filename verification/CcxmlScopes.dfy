/**
 The committed, staged and checkpoint scopes during a transition.
 */
module CcxmlScopes {
  import opened CcxmlTree
  import opened CcxmlCompile
  import opened CcxmlMachine
  import opened CcxmlSession

  /** What a step may do to the scopes: nothing that touches the committed bindings, and within a
      block it keeps the checkpoint until the block is settled. */
  ghost predicate Staged(before: Scopes, after: Scopes, faulted: bool) {
    && after.committed == before.committed
    && (before.checkpointLive && before.pending ==>
          || (after.checkpointLive && after.pending && after.checkpoint == before.checkpoint)
          || (!after.checkpointLive && (faulted ==> after.Visible() == before.checkpoint.content)))
  }

  lemma ForeachStaged(c: Config, m: Machine, row: Row)
    requires row.ForeachRow?
    ensures Staged(m.scopes, StepForeach(c, m, row).scopes, StepForeach(c, m, row).halt.Faulted?)
  {
  }

  lemma EndForeachStaged(c: Config, m: Machine, row: Row)
    requires c.Valid() && row.EndForeachRow? && m.halt.Running?
    ensures Staged(m.scopes, StepEndForeach(c, m, row).scopes, StepEndForeach(c, m, row).halt.Faulted?)
  {
  }

  lemma StepStaged(c: Config, m: Machine)
    requires c.Valid()
    ensures Staged(m.scopes, Step(c, m).scopes, Step(c, m).halt.Faulted?)
  {
    if m.halt.Running? && m.pc < c.Limit() {
      var row := c.rows[m.pc];
      match row
      case ForeachRow(_, _, _) => ForeachStaged(c, m, row);
      case EndForeachRow(_) => EndForeachStaged(c, m, row);
      case LeafRow(_) =>
      case IfRow(_, _, _) => BranchScopes(c, m, row);
      case ElseIfRow(_, _, _) => BranchScopes(c, m, row);
      case ElseRow(_, _) => BranchScopes(c, m, row);
      case EndIfRow => BranchScopes(c, m, row);
    }
  }

  /** Running rows, any rows, never changes the committed bindings and keeps the three views on
      three different allocations; committing then makes the staged bindings the committed ones. */
  lemma {:induction false} CommittedUntouched(c: Config, m: Machine, k: nat)
    requires c.Valid() && Buffers(m.scopes)
    ensures var s := Iterate(c, m, k).scopes;
      && s.committed == m.scopes.committed && Buffers(s)
      && s.Commit().committed.content == s.Visible() && Buffers(s.Commit())
      && s.Discard().committed.content == m.scopes.committed.content && Buffers(s.Discard())
    decreases k
  {
    if k > 0 {
      StepStaged(c, m);
      StepBuffers(c, m);
      CommittedUntouched(c, Step(c, m), k - 1);
    }
  }

  /** Opening a block saves what is visible at its entry. */
  lemma BlockSavesEntry(w: World, m: Machine)
    requires BeginScopes(w, m).0
    ensures var s := BeginScopes(w, m).1.scopes;
      s.checkpointLive && s.pending && s.checkpoint.content == m.scopes.Visible() && s.Visible() == m.scopes.Visible()
  {
  }

  /** A block that is settled by a failure, however many steps later, shows again what was visible at its entry. */
  lemma {:induction false} FailedBlockRestores(c: Config, m: Machine, k: nat)
    requires c.Valid() && m.scopes.checkpointLive && m.scopes.pending
    requires forall j :: 0 <= j < k ==> Iterate(c, m, j).scopes.checkpointLive
    requires !Iterate(c, m, k).scopes.checkpointLive && Iterate(c, m, k).halt.Faulted?
    ensures Iterate(c, m, k).scopes.Visible() == m.scopes.checkpoint.content
    decreases k
  {
    StepStaged(c, m);
    var m1 := Step(c, m);
    if k == 1 {
      assert Iterate(c, m, 1) == Iterate(c, m1, 0) == m1;
    } else if k > 1 {
      assert Iterate(c, m, 1) == Iterate(c, m1, 0) == m1;
      forall j | 0 <= j < k - 1 ensures Iterate(c, m1, j).scopes.checkpointLive {
        assert Iterate(c, m, j + 1) == Iterate(c, m1, j);
      }
      FailedBlockRestores(c, m1, k - 1);
    }
  }
}
