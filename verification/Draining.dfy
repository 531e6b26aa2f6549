/** Draining the log batch by batch: what is emitted, in what order, and how many batches it takes. */
module Draining {
  import opened Wrappers
  import opened Text
  import opened Ledgers
  import opened LedgerLaws
  import opened SettlementLogs
  import opened TransitionOrder
  import opened SettlementBuilders
  import opened Witnesses
  import opened Commitments
  import opened SettlementModel
  import opened ChainInvariant
  import opened PendingBatches
  import opened PendingWitnesses
  import opened SettlementRuns

  // ------------------------------------------- marks do not change what a batch contains

  lemma {:induction false} RemarkedDeposits(a: seq<Row>, b: seq<Row>)
    requires Remarked(a, b)
    ensures Remarked(DepositsIn(a), DepositsIn(b))
  {
    hide Select;
    if a == [] {
      SelectNone(IsDeposit);
      assert b == [];
    } else {
      var (fa, ra, fb, rb) := (a[..|a| - 1], a[|a| - 1], b[..|b| - 1], b[|b| - 1]);
      assert a == fa + [ra] && b == fb + [rb] && rb == ra.Marked(rb.mark);
      assert Remarked(fa, fb) by { assert forall i :: 0 <= i < |fa| ==> fa[i] == a[i] && fb[i] == b[i]; }
      RemarkedDeposits(fa, fb);
      SelectOne(fa, ra, IsDeposit);
      SelectOne(fb, rb, IsDeposit);
    }
  }

  lemma {:induction false} RemarkedWithdrawals(a: seq<Row>, b: seq<Row>)
    requires Remarked(a, b)
    ensures Remarked(WithdrawalsIn(a), WithdrawalsIn(b))
  {
    hide Select;
    if a == [] {
      SelectNone(IsWithdrawal);
      assert b == [];
    } else {
      var (fa, ra, fb, rb) := (a[..|a| - 1], a[|a| - 1], b[..|b| - 1], b[|b| - 1]);
      assert a == fa + [ra] && b == fb + [rb] && rb == ra.Marked(rb.mark);
      assert Remarked(fa, fb) by { assert forall i :: 0 <= i < |fa| ==> fa[i] == a[i] && fb[i] == b[i]; }
      RemarkedWithdrawals(fa, fb);
      SelectOne(fa, ra, IsWithdrawal);
      SelectOne(fb, rb, IsWithdrawal);
    }
  }

  lemma RemarkedRecords(a: seq<Row>, b: seq<Row>)
    requires Remarked(a, b)
    requires (forall r <- a :: r.DepositRow?) && forall r <- b :: r.DepositRow?
    ensures Records(a) == Records(b)
  {
    forall i | 0 <= i < |a| ensures a[i].record == b[i].record {
      assert b[i] == a[i].Marked(b[i].mark) && a[i] in a;
    }
  }

  lemma RemarkedInputs(a: seq<Row>, b: seq<Row>)
    requires Remarked(a, b)
    requires (forall r <- a :: r.WithdrawalRow?) && forall r <- b :: r.WithdrawalRow?
    ensures Inputs(a) == Inputs(b)
  {
    forall i | 0 <= i < |a|
      ensures a[i].request == b[i].request && a[i].nullifier == b[i].nullifier &&
                a[i].destinationHash == b[i].destinationHash
    {
      assert b[i] == a[i].Marked(b[i].mark) && a[i] in a;
    }
  }

  lemma RemarkedInput(root: string, a: seq<Row>, b: seq<Row>)
    requires Remarked(a, b) && a != []
    ensures InputOf(root, a) == InputOf(root, b)
  {
    hide Select, Records, Inputs;
    RemarkedDeposits(a, b);
    RemarkedWithdrawals(a, b);
    RemarkedRecords(DepositsIn(a), DepositsIn(b));
    RemarkedInputs(WithdrawalsIn(a), WithdrawalsIn(b));
    assert b[|b| - 1] == a[|a| - 1].Marked(b[|b| - 1].mark);
  }

  lemma RemarkedLast(a: seq<Row>, b: seq<Row>)
    requires Remarked(a, b)
    ensures |a| == |b|
    ensures a != [] ==> Remarked(a[..|a| - 1], b[..|b| - 1]) && b[|b| - 1] == a[|a| - 1].Marked(b[|b| - 1].mark)
  {
  }

  lemma GroupedRemarked(g: seq<OwnerBalance>, r: Row, m: Mark)
    ensures Grouped(g, r.Marked(m)) == Grouped(g, r)
  {
    hide Trim, Position;
  }

  lemma {:induction false} RemarkedGroups(a: seq<Row>, b: seq<Row>)
    requires Remarked(a, b)
    ensures GroupByOwner(a) == GroupByOwner(b)
    decreases |a|
  {
    hide *;
    RemarkedLast(a, b);
    if a != [] {
      var (fa, ra, fb, rb) := (a[..|a| - 1], a[|a| - 1], b[..|b| - 1], b[|b| - 1]);
      assert a == fa + [ra] && b == fb + [rb];
      RemarkedGroups(fa, fb);
      GroupByOwnerOne(fa, ra);
      GroupByOwnerOne(fb, rb);
      if GroupByOwner(fa).Success? { GroupedRemarked(GroupByOwner(fa).value, ra, rb.mark); }
    } else {
      assert b == [];
    }
  }

  lemma {:induction false} RemarkedBound(a: seq<Row>, b: seq<Row>)
    requires Remarked(a, b)
    ensures BoundLength(a) == BoundLength(b)
  {
    if a != [] {
      assert b[0] == a[0].Marked(b[0].mark);
      assert Remarked(a[1..], b[1..]) by {
        assert forall i :: 0 <= i < |a[1..]| ==> a[1..][i] == a[i + 1] && b[1..][i] == b[i + 1];
      }
      RemarkedBound(a[1..], b[1..]);
    }
  }

  lemma RemarkedSlice(a: seq<Row>, b: seq<Row>, i: nat, j: nat)
    requires Remarked(a, b) && i <= j <= |a|
    ensures Remarked(a[i..j], b[i..j])
  {
  }

  lemma RemarkedNextBatch(a: seq<Row>, b: seq<Row>, p: nat)
    requires Remarked(a, b) && p <= |a|
    ensures |NextBatch(a, p)| == |NextBatch(b, p)| && Remarked(NextBatch(a, p), NextBatch(b, p))
  {
    hide Remarked, BoundLength;
    assert |a| == |b| by { assert Remarked(a, b); RemarkedLength(a, b); }
    RemarkedSlice(a, b, p, |a|);
    assert a[p..|a|] == a[p..] && b[p..|a|] == b[p..];
    RemarkedBound(a[p..], b[p..]);
    RemarkedSlice(a[p..], b[p..], 0, BoundLength(a[p..]));
  }

  lemma RemarkedLength(a: seq<Row>, b: seq<Row>)
    requires Remarked(a, b)
    ensures |a| == |b|
  {
  }

  lemma RemarkedTransitive(a: seq<Row>, b: seq<Row>, c: seq<Row>)
    requires Remarked(a, b) && Remarked(b, c)
    ensures Remarked(a, c)
  {
    forall i | 0 <= i < |a| ensures c[i] == a[i].Marked(c[i].mark) {
      assert b[i] == a[i].Marked(b[i].mark) && c[i] == b[i].Marked(c[i].mark);
    }
  }

  // ----------------------------------------------------------- a failed pass costs a number

  /** The same output under another batch number. */
  ghost predicate SameBatch(a: BuildOutput, b: BuildOutput) {
    b.update == a.update.(batchId := b.update.batchId) && b.commitments == a.commitments && b.accounts == a.accounts
  }

  lemma EmitIs(s: State, plan: Plan, secrets: seq<AccountSecret>)
    ensures Emit(s, plan, secrets).1.Success? <==>
            && Acceptable(plan.input) && WitnessAccounts(plan.bounded, secrets).Success?
            && WitnessAcceptable(plan.input, WitnessAccounts(plan.bounded, secrets).value)
    ensures Emit(s, plan, secrets).1.Success? ==>
              var u := UpdateFor(plan.input, s.counter + 1);
              Emit(s, plan, secrets).1.value ==
              BuildOutput(u, CommitmentsFor(u), WitnessFor(plan.input, WitnessAccounts(plan.bounded, secrets).value))
  {
    hide Acceptable, WitnessAcceptable, WitnessAccounts, UpdateFor, WitnessFor, CommitmentsFor, WithIncluded, Ids;
  }

  /** Only the number of an update depends on the counter; the commitments do not. */
  lemma UpdateRenumbered(input: SettlementInputs, m: nat, n: nat)
    ensures UpdateFor(input, n) == UpdateFor(input, m).(batchId := BatchId(n)) &&
              UpdateFor(input, n).batchId == BatchId(n)
    ensures CommitmentsFor(UpdateFor(input, n)) == CommitmentsFor(UpdateFor(input, m))
  {
    hide Preimage, DepositEntry, WithdrawalEntry, BatchId;
  }

  lemma RemarkedAccounts(a: seq<Row>, b: seq<Row>, secrets: seq<AccountSecret>)
    requires Remarked(a, b)
    ensures WitnessAccounts(a, secrets) == WitnessAccounts(b, secrets)
  {
    hide IndexSecrets, GroupByOwner, Remarked;
    RemarkedGroups(a, b);
  }

  lemma RemarkedSome(a: seq<Row>, b: seq<Row>)
    requires Remarked(a, b) && a != []
    ensures b != []
  {
  }

  lemma SameButNumber(a: BuildOutput, b: BuildOutput)
    requires a.commitments == b.commitments && a.accounts == b.accounts &&
              b.update == a.update.(batchId := b.update.batchId)
    ensures SameBatch(a, b)
  {
  }

  lemma EmitAgain(s: State, batch: seq<Row>, s2: State, batch2: seq<Row>, root: string, secrets: seq<AccountSecret>)
    requires batch != [] && batch2 != [] && Remarked(batch, batch2)
    requires var plan := Plan(batch, DepositsIn(batch), WithdrawalsIn(batch), InputOf(root, batch));
             Emit(s, plan, secrets).1.Success?
    ensures var plan := Plan(batch, DepositsIn(batch), WithdrawalsIn(batch), InputOf(root, batch));
            var plan2 := Plan(batch2, DepositsIn(batch2), WithdrawalsIn(batch2), InputOf(root, batch2));
            && Emit(s2, plan2, secrets).1.Success?
            && SameBatch(Emit(s, plan, secrets).1.value, Emit(s2, plan2, secrets).1.value)
            && Emit(s2, plan2, secrets).1.value.update.batchId == BatchId(s2.counter + 1)
  {
    hide *;
    RemarkedInput(root, batch, batch2);
    RemarkedAccounts(batch, batch2, secrets);
    var plan := Plan(batch, DepositsIn(batch), WithdrawalsIn(batch), InputOf(root, batch));
    var plan2 := Plan(batch2, DepositsIn(batch2), WithdrawalsIn(batch2), InputOf(root, batch2));
    EmitIs(s, plan, secrets);
    EmitIs(s2, plan2, secrets);
    UpdateRenumbered(InputOf(root, batch), s.counter + 1, s2.counter + 1);
    SameButNumber(Emit(s, plan, secrets).1.value, Emit(s2, plan2, secrets).1.value);
  }

  /**
   * After a pass that failed before commit, the work is all there and the next build emits the same
   * batch, one number later.
   */
  lemma FailedPassIsRetried(g: string, s: State, c: nat, p: nat, secrets: seq<AccountSecret>, reason: string)
    requires GenesisApart(g) && Inv(g, s, c, p) && BuildPendingBatch(s, secrets).1.Success?
    ensures var (s1, r) := BuildPendingBatch(s, secrets);
            var s2 := CancelIncludedBatch(s1, r.value.update.batchId, reason).0;
            var (s3, r3) := BuildPendingBatch(s2, secrets);
            && RestoredRows(s.rows, s2.rows) && s2.ledger == s.ledger
            && r3.Success? && SameBatch(r.value, r3.value)
            && r.value.update.batchId == BatchId(s.counter + 1) && r3.value.update.batchId == BatchId(s.counter + 2)
  {
    hide Chained, GenesisApart, BuildPendingBatch, CancelIncludedBatch, NextBatch, Emit, InputOf, Select,
         RootsPresent, EmitsRows, BatchId, SameBatch, RestoredRows, Remarked, LedgerAt;
    var (s1, r) := BuildPendingBatch(s, secrets);
    var s2 := CancelIncludedBatch(s1, r.value.update.batchId, reason).0;
    BuildEmitsNextBatch(g, s, c, p, secrets);
    ReopenUndoesBuild(g, s, c, p, secrets, reason);
    RestoredIsRemarked(s.rows, s2.rows);
    SuccessMeansRoots(g, s, p, secrets);
    BuildEmitsNextBatch(g, s2, p, p, secrets);
    RemarkedNextBatchRoots(s.rows, s2.rows, p);
    NextBatchSlice(s.rows, p);
    EmitsNumber(s, NextBatch(s.rows, p), (s1, r));
    RemarkedSome(NextBatch(s.rows, p), NextBatch(s2.rows, p));
    EmitAgain(WithCursor(s), NextBatch(s.rows, p), WithCursor(s2), NextBatch(s2.rows, p), CursorOf(s).committedRoot,
      secrets);
  }

  lemma EmitsNumber(s: State, batch: seq<Row>, built: (State, Result<BuildOutput>))
    requires EmitsRows(s, batch, built)
    ensures built.1.value.update.batchId == BatchId(s.counter + 1) && built.0.counter == s.counter + 1
  {
    UpdateNumber(InputOf(CursorOf(s).committedRoot, batch), s.counter + 1);
    hide *;
  }

  lemma RestoredIsRemarked(a: seq<Row>, b: seq<Row>)
    requires RestoredRows(a, b)
    ensures Remarked(a, b)
  {
  }

  lemma SuccessMeansRoots(g: string, s: State, p: nat, secrets: seq<AccountSecret>)
    requires GenesisApart(g) && Inv(g, s, p, p) && p < |s.rows| && BuildPendingBatch(s, secrets).1.Success?
    ensures RootsPresent(s.rows[p..])
  {
    hide Faithful, LedgerAt, Phased, GenesisApart, Select, PlanFor, Emit, RootsPresent, Replayable;
    InvParts(g, s, p, p);
    ListedWhenPending(s.rows, p);
    PlansOnlyWithRoots(s.rows, p, CursorOf(s).committedRoot);
  }

  lemma RemarkedNextBatchRoots(a: seq<Row>, b: seq<Row>, p: nat)
    requires Remarked(a, b) && p <= |a| && RootsPresent(a[p..])
    ensures |a| == |b| && RootsPresent(b[p..]) && Remarked(NextBatch(a, p), NextBatch(b, p))
  {
    RemarkedNextBatch(a, b, p);
    hide Blank, NextBatch;
    forall t | t in b[p..] ensures !Blank(t.rootBefore) && !Blank(t.rootAfter) {
      var i :| 0 <= i < |b[p..]| && b[p..][i] == t;
      assert b[p + i] == a[p + i].Marked(b[p + i].mark) && a[p + i] == a[p..][i];
    }
  }
}
