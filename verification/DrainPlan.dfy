/** The batches a drain emits, described without running it, and the step that emits one. */
module DrainPlan {
  import opened Wrappers
  import opened Text
  import opened Decimals
  import opened Hashing
  import opened LedgerLaws
  import opened SettlementLogs
  import opened TransitionOrder
  import opened SettlementBuilders
  import opened Commitments
  import opened SettlementModel
  import opened ChainInvariant
  import opened PendingBatches
  import opened SettlementRuns
  import opened Settleability
  import opened Draining

  /** The log from row `p` cut after each withdrawal, numbered from `n + 1`. */
  function BatchesOf(rows: seq<Row>, p: nat, n: nat): seq<SettlementUpdate>
    requires p <= |rows|
    decreases |rows| - p
  {
    if p == |rows| then [] else
      var batch := NextBatch(rows, p);
      NextBatchSlice(rows, p);
      [UpdateFor(InputOf(rows[p].rootBefore, batch), n + 1)] + BatchesOf(rows, p + |batch|, n + 1)
  }

  lemma SplitAtNextBatch(rows: seq<Row>, p: nat)
    requires p < |rows|
    ensures var q := p + |NextBatch(rows, p)|; p < q <= |rows| && rows[p..] == NextBatch(rows, p) + rows[q..]
  {
    NextBatchSlice(rows, p);
  }

  lemma {:induction false} SelectConcat(a: seq<Row>, b: seq<Row>, f: Row -> bool)
    ensures Select(a + b, f) == Select(a, f) + Select(b, f)
    decreases |b|
  {
    hide Select;
    if b == [] {
      SelectNone(f);
      assert a + b == a;
    } else {
      var front, r := b[..|b| - 1], b[|b| - 1];
      SelectConcat(a, front, f);
      assert a + b == (a + front) + [r] && b == front + [r];
      SelectOne(a + front, r, f);
      SelectOne(front, r, f);
    }
  }

  lemma BatchesOfStep(rows: seq<Row>, p: nat, n: nat)
    requires p <= |rows|
    ensures p == |rows| ==> BatchesOf(rows, p, n) == []
    ensures p < |rows| ==>
              NextBatch(rows, p) != [] && p + |NextBatch(rows, p)| <= |rows| &&
              BatchesOf(rows, p, n) ==
              [UpdateFor(InputOf(rows[p].rootBefore, NextBatch(rows, p)), n + 1)] +
              BatchesOf(rows, p + |NextBatch(rows, p)|, n + 1)
  {
    hide NextBatch, UpdateFor, InputOf;
    NextBatchSlice(rows, p);
  }

  lemma WithdrawalsConcat(a: seq<Row>, b: seq<Row>)
    ensures WithdrawalsIn(a + b) == WithdrawalsIn(a) + WithdrawalsIn(b)
    ensures WithdrawalsIn([]) == []
  {
    hide Select;
    SelectConcat(a, b, IsWithdrawal);
    SelectNone(IsWithdrawal);
  }

  /** One batch for each withdrawal, and one more if the log ends in a deposit. */
  lemma {:induction false} BatchCount(rows: seq<Row>, p: nat, n: nat)
    requires p <= |rows|
    ensures |BatchesOf(rows, p, n)| ==
            |WithdrawalsIn(rows[p..])| + if p < |rows| && rows[|rows| - 1].DepositRow? then 1 else 0
    decreases |rows| - p
  {
    hide *;
    BatchesOfStep(rows, p, n);
    if p == |rows| {
      WithdrawalsConcat([], []);
      assert rows[p..] == [];
    } else {
      var batch := NextBatch(rows, p);
      var q := p + |batch|;
      SplitAtNextBatch(rows, p);
      NextBatchHasOneWithdrawal(rows, p);
      WithdrawalsConcat(batch, rows[q..]);
      BatchCount(rows, q, n + 1);
      if q == |rows| {
        assert rows[q..] == [] && batch[|batch| - 1] == rows[p..][|rows| - p - 1] == rows[|rows| - 1];
      }
    }
  }

  // ------------------------------------------------------ the operations, in log order

  datatype SettledOp = SettledDeposit(deposit: SettlementDeposit) | SettledWithdrawal(withdrawal: SettlementWithdrawal)

  /** The operation of a row, field by field; the amount in plain notation. */
  function OpOf(r: Row): SettledOp {
    match r
    case DepositRow(d, _, _, _, _, _) =>
      SettledDeposit(SettlementDeposit(d.depositId, d.owner, d.denom, Decimal(Value(d.amount))))
    case WithdrawalRow(w, nullifier, hash, _, _, _, _, _) =>
      SettledWithdrawal(SettlementWithdrawal(w.withdrawId, w.owner, w.denom, Decimal(Value(w.amount)),
                                             w.destination, hash, nullifier))
  }

  function OpsOf(rows: seq<Row>): seq<SettledOp> {
    seq(|rows|, i requires 0 <= i < |rows| => OpOf(rows[i]))
  }

  /** The operations of an update: its deposits, then its withdrawals. */
  function UpdateOps(u: SettlementUpdate): seq<SettledOp> {
    seq(|u.deposits|, i requires 0 <= i < |u.deposits| => SettledDeposit(u.deposits[i])) +
    seq(|u.withdrawals|, i requires 0 <= i < |u.withdrawals| => SettledWithdrawal(u.withdrawals[i]))
  }

  function AllOps(us: seq<SettlementUpdate>): seq<SettledOp> {
    if us == [] then [] else UpdateOps(us[0]) + AllOps(us[1..])
  }

  lemma {:induction false} OnlyDeposits(rows: seq<Row>)
    requires forall i :: 0 <= i < |rows| ==> rows[i].DepositRow?
    ensures DepositsIn(rows) == rows
  {
    if rows != [] { OnlyDeposits(rows[..|rows| - 1]); }
  }

  lemma UpdateOpsSplit(root: string, batch: seq<Row>, n: nat)
    requires batch != []
    ensures UpdateOps(UpdateFor(InputOf(root, batch), n)) == OpsOf(DepositsIn(batch)) + OpsOf(WithdrawalsIn(batch))
  {
    hide Select, Decimal, Value;
    var ds, ws := DepositsIn(batch), WithdrawalsIn(batch);
    var u := UpdateFor(InputOf(root, batch), n);
    assert |u.deposits| == |ds| && |u.withdrawals| == |ws|;
    forall i | 0 <= i < |ds| ensures SettledDeposit(u.deposits[i]) == OpOf(ds[i]) { assert ds[i] in ds; }
    forall i | 0 <= i < |ws| ensures SettledWithdrawal(u.withdrawals[i]) == OpOf(ws[i]) { assert ws[i] in ws; }
  }

  /** Deposits first, withdrawals after, is the batch's own order. */
  lemma BatchOpsInOrder(root: string, rows: seq<Row>, p: nat, n: nat)
    requires p < |rows|
    ensures NextBatch(rows, p) != []
    ensures UpdateOps(UpdateFor(InputOf(root, NextBatch(rows, p)), n)) == OpsOf(NextBatch(rows, p))
  {
    hide NextBatch, Select, UpdateOps, UpdateFor, InputOf, OpsOf;
    NextBatchSlice(rows, p);
    NextBatchHasOneWithdrawal(rows, p);
    var batch := NextBatch(rows, p);
    var front, last := batch[..|batch| - 1], batch[|batch| - 1];
    assert batch == front + [last];
    OnlyDeposits(front);
    SelectOne(front, last, IsDeposit);
    UpdateOpsSplit(root, batch, n);
    OpsSplit(front, [last]);
    OpsSplit(batch, []);
    assert batch + [] == batch;
  }

  lemma OpsSplit(a: seq<Row>, b: seq<Row>)
    ensures OpsOf(a + b) == OpsOf(a) + OpsOf(b)
  {
    hide OpOf;
  }

  /** The emitted batches, one after another, carry the log's operations in the log's order. */
  lemma {:induction false} BatchesCoverLog(rows: seq<Row>, p: nat, n: nat)
    requires p <= |rows|
    ensures AllOps(BatchesOf(rows, p, n)) == OpsOf(rows[p..])
    decreases |rows| - p
  {
    hide UpdateFor, InputOf, NextBatch, UpdateOps, OpOf;
    if p < |rows| {
      var batch := NextBatch(rows, p);
      var q := p + |batch|;
      SplitAtNextBatch(rows, p);
      BatchOpsInOrder(rows[p].rootBefore, rows, p, n + 1);
      BatchesCoverLog(rows, q, n + 1);
      var rest := BatchesOf(rows, q, n + 1);
      assert ([UpdateFor(InputOf(rows[p].rootBefore, batch), n + 1)] + rest)[1..] == rest;
      assert OpsOf(rows[p..]) == OpsOf(batch) + OpsOf(rows[q..]);
    }
  }

  // ---------------------------------------------------------------- roots and numbers

  /** Each update starts at the root where the one before it ended, the first at `root`. */
  ghost predicate ChainedUpdates(us: seq<SettlementUpdate>, root: string, end: string) {
    if us == [] then root == end else us[0].oldStateRoot == root && ChainedUpdates(us[1..], us[0].newStateRoot, end)
  }

  lemma UpdateRoots(root: string, batch: seq<Row>, n: nat)
    requires batch != []
    ensures var u := UpdateFor(InputOf(root, batch), n);
            u.oldStateRoot == root && u.newStateRoot == batch[|batch| - 1].rootAfter && u.batchId == BatchId(n)
  {
  }

  lemma {:induction false} BatchesChain(rows: seq<Row>, p: nat, n: nat)
    requires Consecutive(rows) && p < |rows|
    ensures ChainedUpdates(BatchesOf(rows, p, n), rows[p].rootBefore, rows[|rows| - 1].rootAfter)
    decreases |rows| - p
  {
    hide UpdateFor, InputOf, NextBatch;
    var batch := NextBatch(rows, p);
    var q := p + |batch|;
    SplitAtNextBatch(rows, p);
    UpdateRoots(rows[p].rootBefore, batch, n + 1);
    assert batch[|batch| - 1] == rows[p..][|batch| - 1] == rows[q - 1];
    var rest := BatchesOf(rows, q, n + 1);
    assert ([UpdateFor(InputOf(rows[p].rootBefore, batch), n + 1)] + rest)[1..] == rest;
    if q < |rows| {
      BatchesChain(rows, q, n + 1);
      assert rows[q - 1].rootAfter == rows[q].rootBefore;
    }
  }

  lemma {:induction false} BatchesNumbered(rows: seq<Row>, p: nat, n: nat, i: nat)
    requires p <= |rows| && i < |BatchesOf(rows, p, n)|
    ensures BatchesOf(rows, p, n)[i].batchId == BatchId(n + 1 + i)
    decreases i
  {
    hide UpdateFor, InputOf, NextBatch, BatchId;
    var batch := NextBatch(rows, p);
    SplitAtNextBatch(rows, p);
    UpdateRoots(rows[p].rootBefore, batch, n + 1);
    if i > 0 { BatchesNumbered(rows, p + |batch|, n + 1, i - 1); }
  }

  lemma {:induction false} RemarkedBatches(a: seq<Row>, b: seq<Row>, p: nat, n: nat)
    requires Remarked(a, b) && p <= |a|
    ensures |a| == |b| && BatchesOf(a, p, n) == BatchesOf(b, p, n)
    decreases |a| - p
  {
    hide UpdateFor, InputOf, NextBatch;
    if p < |a| {
      RemarkedNextBatch(a, b, p);
      NextBatchSlice(a, p);
      assert b[p] == a[p].Marked(b[p].mark);
      RemarkedInput(a[p].rootBefore, NextBatch(a, p), NextBatch(b, p));
      RemarkedBatches(a, b, p + |NextBatch(a, p)|, n + 1);
    }
  }

  // -------------------------------------------------------------------- one pass of a drain

  /** A row the sequencer can settle: plain owner, the one denom, an id, the default secret. */
  predicate OrdinaryRow(r: Row, denom: string) {
    && Trimmed(r.Owner()) && r.Denom() == denom && Trimmed(denom)
    && (r.DepositRow? ==> !Blank(r.Id()))
    && (r.WithdrawalRow? ==> NullifierFor(DEFAULT_SECRET, r.request.nonce) == Success(r.nullifier))
  }

  ghost predicate OrdinaryFrom(rows: seq<Row>, p: nat, denom: string) {
    p <= |rows| && forall i :: p <= i < |rows| ==> OrdinaryRow(rows[i], denom)
  }

  lemma OrdinaryBatchSettles(batch: seq<Row>, denom: string)
    requires batch != [] && forall r <- batch :: OrdinaryRow(r, denom)
    ensures Settleable(batch, [])
  {
    hide Trimmed, Blank, Trim, NullifierFor;
    assert batch[0] in batch && Trim(denom) == denom;
    TrimmedBatchSettles(batch, []);
  }

  lemma NextBatchOrdinary(rows: seq<Row>, p: nat, denom: string)
    requires OrdinaryFrom(rows, p, denom) && p < |rows|
    ensures NextBatch(rows, p) != [] && forall r <- NextBatch(rows, p) :: OrdinaryRow(r, denom)
  {
    NextBatchSlice(rows, p);
    hide NextBatch, OrdinaryRow;
    var batch := NextBatch(rows, p);
    forall r | r in batch ensures OrdinaryRow(r, denom) {
      var i :| 0 <= i < |batch| && batch[i] == r;
      assert r == rows[p..p + |batch|][i] == rows[p + i];
    }
  }

  /**
   * Build and commit of one batch: exactly the next rows are emitted, the invariant moves its
   * frontier past them, and nothing of the log but marks has changed.
   */
  lemma CommittedPass(g: string, s: State, p: nat, secrets: seq<AccountSecret>, txHash: string)
    requires GenesisApart(g) && Inv(g, s, p, p) && BuildPendingBatch(s, secrets).1.Success?
    ensures p < |s.rows| && NextBatch(s.rows, p) != []
    ensures var (s1, r) := BuildPendingBatch(s, secrets);
            && r.value.update == UpdateFor(InputOf(s.rows[p].rootBefore, NextBatch(s.rows, p)), s.counter + 1)
            && var s2 := CommitBatch(s1, r.value.update.batchId, txHash, r.value.update.newStateRoot);
               var q := p + |NextBatch(s.rows, p)|;
               Inv(g, s2, q, q) && Remarked(s.rows, s2.rows) && s2.ledger == s.ledger && s2.counter == s.counter + 1
  {
    hide Chained, GenesisApart, BuildPendingBatch, NextBatch, InputOf, UpdateFor, CommitmentsFor, BatchId, LedgerAt,
         Faithful, Replayable, Select, WithIncluded, RootsPresent, Phased, Acceptable;
    BuildEmitsNextBatch(g, s, p, p, secrets);
    BuildKeeps(g, s, p, p, secrets);
    InvParts(g, s, p, p);
    var (s1, r) := BuildPendingBatch(s, secrets);
    var batch := NextBatch(s.rows, p);
    var q := p + |batch|;
    SplitAtNextBatch(s.rows, p);
    UpdateRoots(CursorOf(s).committedRoot, batch, s.counter + 1);
    RowRoots(g, s.rows, s.ledger, p);
    RowRoots(g, s.rows, s.ledger, q - 1);
    assert batch[|batch| - 1] == s.rows[p..][|batch| - 1] == s.rows[q - 1];
    IncludedRemarked(s.rows, s1.rows, BatchId(s.counter + 1), Ids(DepositsIn(batch)), Ids(WithdrawalsIn(batch)));
    RemarkedMoves(g, s.rows, s1.rows);
    CommitKeeps(g, s1, p, q, Included, txHash, r.value.update.newStateRoot);
    CommittedRemarked(s1.rows, r.value.update.batchId, txHash);
    var s2 := CommitBatch(s1, r.value.update.batchId, txHash, r.value.update.newStateRoot);
    RemarkedTransitive(s.rows, s1.rows, s2.rows);
  }

  /** Ordinary rows never make a build fail. */
  lemma OrdinaryBuilds(g: string, s: State, p: nat, denom: string)
    requires GenesisApart(g) && ValidHex(g) && Inv(g, s, p, p) && p < |s.rows| && OrdinaryFrom(s.rows, p, denom)
    ensures BuildPendingBatch(s, []).1.Success?
  {
    hide Chained, GenesisApart, ValidHex, OrdinaryFrom, BuildPendingBatch, NextBatch, Settleable, OrdinaryRow;
    NextBatchOrdinary(s.rows, p, denom);
    OrdinaryBatchSettles(NextBatch(s.rows, p), denom);
    BuildSucceedsExactly(g, s, p, []);
  }

  lemma IncludedRemarked(rows: seq<Row>, rows': seq<Row>, batchId: string, ds: seq<string>, ws: seq<string>)
    requires rows' == WithIncluded(rows, batchId, ds, ws)
    ensures Remarked(rows, rows')
  {
  }

  lemma CommittedRemarked(rows: seq<Row>, batchId: string, txHash: string)
    ensures Remarked(rows, WithStatus(rows, batchId, Committed, txHash, ""))
  {
  }

  lemma RemarkedOrdinary(a: seq<Row>, b: seq<Row>, p: nat, q: nat, denom: string)
    requires Remarked(a, b) && OrdinaryFrom(a, p, denom) && p <= q <= |a|
    ensures OrdinaryFrom(b, q, denom)
  {
    forall i | q <= i < |b| ensures OrdinaryRow(b[i], denom) {
      assert b[i] == a[i].Marked(b[i].mark) && OrdinaryRow(a[i], denom);
    }
  }
}
