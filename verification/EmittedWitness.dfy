/** The circuit binding of the batches the service really emits. */
module EmittedWitnesses {
  import opened Wrappers
  import opened Text
  import opened Decimals
  import opened Hashing
  import opened Ledgers
  import opened LedgerLaws
  import opened SettlementLogs
  import opened TransitionOrder
  import opened SettlementBuilders
  import opened Witnesses
  import opened SettlementModel
  import opened ChainInvariant
  import opened PendingBatches
  import opened PendingWitnesses
  import opened SettlementRuns
  import opened Settleability
  import opened Draining

  lemma AbsentAt(g: seq<OwnerBalance>, i: nat, owner: string)
    requires i < |g| && g[i].owner == owner
    ensures Position(g, owner) < |g|
  {
  }

  lemma {:induction false} GroupHasOwner(ts: seq<Row>, r: Row)
    requires GroupByOwner(ts).Success? && r in ts
    ensures Position(GroupByOwner(ts).value, Trim(r.Owner())) < |GroupByOwner(ts).value|
  {
    hide Trim, Position;
    var front, last := ts[..|ts| - 1], ts[|ts| - 1];
    assert ts == front + [last];
    var g, g' := GroupByOwner(front).value, GroupByOwner(ts).value;
    var owner := Trim(r.Owner());
    if r == last {
      AbsentAt(g', if Position(g, owner) < |g| then Position(g, owner) else |g|, owner);
    } else {
      GroupHasOwner(front, r);
      AbsentAt(g', Position(g, owner), owner);
    }
  }

  lemma EnabledNonce(l: Ledger, r: Row)
    requires r.WithdrawalRow? && MoveOf(r.Op()).Some? && Enabled(l, MoveOf(r.Op()).value)
    ensures Value(r.request.nonce) > 0
  {
    hide ParseNonNegative, Trim;
  }

  /** A withdrawal of a faithful log carries a positive nonce and a derived nullifier. */
  lemma WithdrawalRowShape(g: string, rows: seq<Row>, ledger: Ledger, i: nat)
    requires Faithful(g, rows, ledger) && i < |rows| && rows[i].WithdrawalRow?
    ensures Value(rows[i].request.nonce) > 0
    ensures exists secret :: NullifierFor(secret, rows[i].request.nonce) == Success(rows[i].nullifier)
  {
    hide Faithful, LedgerAt, Value, NullifierFor, WithdrawAddressHash, After, Enabled, MoveOf, Replayable;
    FaithfulLedger(g, rows, ledger);
    StepOfRow(g, rows, ledger, i);
    FaithfulRow(g, rows, ledger, i);
    EnabledNonce(LedgerAt(g, rows, i), rows[i]);
  }

  lemma OwnerHasAccount(batch: seq<Row>, secrets: seq<AccountSecret>, r: Row) returns (i: nat)
    requires WitnessAccounts(batch, secrets).Success? && r in batch
    ensures i < |WitnessAccounts(batch, secrets).value|
    ensures WitnessAccounts(batch, secrets).value[i].owner == Trim(r.Owner())
  {
    hide Trim, Position, GroupByOwner, IndexSecrets;
    GroupHasOwner(batch, r);
    i := Position(GroupByOwner(batch).value, Trim(r.Owner()));
  }

  lemma WitnessForAt(input: SettlementInputs, accounts: seq<AccountWitnessSecret>, i: nat)
    requires i < |accounts|
    ensures |WitnessFor(input, accounts).accounts| == |accounts|
    ensures WitnessFor(input, accounts).accounts[i].owner == Trim(accounts[i].owner)
  {
  }

  lemma InputWithdrawals(root: string, batch: seq<Row>, r: Row)
    requires batch != [] && r.WithdrawalRow? && WithdrawalsIn(batch) == [r]
    ensures InputOf(root, batch).withdrawals == [WithdrawalInput(r.request, r.nullifier, r.destinationHash)]
  {
    hide Select;
  }

  /**
   * One-withdrawal circuit binding of every emitted batch that ends in a withdrawal: the witness
   * holds an account under the withdrawal's trimmed owner, and that account's secret and nonce
   * derive the withdrawal's nullifier if and only if the owner was recorded trimmed.
   */
  lemma EmittedWithdrawalBound(g: string, s: State, p: nat, secrets: seq<AccountSecret>) returns (i: nat)
    requires GenesisApart(g) && Inv(g, s, p, p) && BuildPendingBatch(s, secrets).1.Success?
    requires p < |s.rows| && var batch := NextBatch(s.rows, p); batch != [] && batch[|batch| - 1].WithdrawalRow?
    ensures var out := BuildPendingBatch(s, secrets).1.value;
            var batch := NextBatch(s.rows, p);
            var r := batch[|batch| - 1];
            && out.update.withdrawals == [WithdrawalEntry(WithdrawalInput(r.request, r.nullifier, r.destinationHash))]
            && i < |out.accounts.accounts|
            && var account := out.accounts.accounts[i];
               && account.owner == Trim(r.Owner())
               && (NullifierFor(account.userSecret, account.nonce) == Success(r.nullifier) <==> Trimmed(r.Owner()))
  {
    hide Chained, GenesisApart, BuildPendingBatch, NextBatch, Emit, InputOf, RootsPresent, EmitsRows, LedgerAt,
         Trim, Trimmed, NullifierFor, Faithful, Replayable, Phased, Select, WitnessAcceptable, WitnessAccounts,
         WitnessFor, Value, WithdrawalEntry;
    InvParts(g, s, p, p);
    SuccessMeansRoots(g, s, p, secrets);
    BuildEmitsNextBatch(g, s, p, p, secrets);
    NextBatchSlice(s.rows, p);
    NextBatchHasOneWithdrawal(s.rows, p);
    var root, batch := CursorOf(s).committedRoot, NextBatch(s.rows, p);
    var r, input := batch[|batch| - 1], InputOf(CursorOf(s).committedRoot, batch);
    var plan := Plan(batch, DepositsIn(batch), WithdrawalsIn(batch), input);
    EmitIs(WithCursor(s), plan, secrets);
    assert r == s.rows[p + |batch| - 1];
    WithdrawalRowShape(g, s.rows, s.ledger, p + |batch| - 1);
    InputWithdrawals(root, batch, r);
    i := OwnerHasAccount(batch, secrets, r);
    var accounts := WitnessAccounts(batch, secrets).value;
    WitnessForAt(input, accounts, i);
    TrimIdempotent(r.Owner());
    WitnessBindsWithdrawal(input, accounts, WithdrawalInput(r.request, r.nullifier, r.destinationHash), i);
  }
}
