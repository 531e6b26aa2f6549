/** The settlement service over the live manager, the store and the builders. */
module SettlementServices {
  import opened Wrappers
  import opened Text
  import opened Decimals
  import opened Hashing
  import opened Types
  import opened Ledgers
  import opened LedgerLaws
  import opened LocalStates
  import opened OffchainManagers
  import opened SettlementLogs
  import opened TransitionOrder
  import opened SettlementBuilders
  import opened Witnesses
  import opened Commitments
  import opened SettlementModel
  import opened SettlementOutcomes

  lemma {:induction false} IndexSecretsFails(secrets: seq<AccountSecret>, n: nat)
    requires n <= |secrets| && IndexSecrets(secrets[..n]).Failure?
    ensures IndexSecrets(secrets) == IndexSecrets(secrets[..n])
    decreases |secrets|
  {
    if n < |secrets| {
      var front := secrets[..|secrets| - 1];
      assert front[..n] == secrets[..n];
      IndexSecretsFails(front, n);
    } else {
      assert secrets[..n] == secrets;
    }
  }

  method IndexAccountSecrets(secrets: seq<AccountSecret>) returns (r: Result<map<string, string>>)
    ensures r == IndexSecrets(secrets)
  {
    hide Trim;
    var out: map<string, string> := map[];
    for i := 0 to |secrets|
      invariant IndexSecrets(secrets[..i]) == Success(out)
    {
      assert secrets[..i + 1][..i] == secrets[..i];
      var owner, secret := Trim(secrets[i].owner), Trim(secrets[i].userSecret);
      if owner == "" || secret == "" || owner in out {
        IndexSecretsFails(secrets, i + 1);
        return Failure(InvalidPendingSettlement);
      }
      out := out[owner := secret];
    }
    assert secrets[..|secrets|] == secrets;
    return Success(out);
  }

  lemma {:induction false} GroupByOwnerFails(ts: seq<Row>, n: nat)
    requires n <= |ts| && GroupByOwner(ts[..n]).Failure?
    ensures GroupByOwner(ts) == GroupByOwner(ts[..n])
    decreases |ts|
  {
    hide Grouped;
    if n < |ts| {
      var front := ts[..|ts| - 1];
      assert front[..n] == ts[..n];
      GroupByOwnerFails(front, n);
    } else {
      assert ts[..n] == ts;
    }
  }

  /** The order list and the map the source keeps hold the same grouping. */
  ghost predicate Represents(order: seq<string>, byOwner: map<string, OwnerBalance>, g: seq<OwnerBalance>) {
    && |order| == |g|
    && (forall i :: 0 <= i < |g| ==> g[i].owner == order[i] && order[i] in byOwner && byOwner[order[i]] == g[i])
    && (forall owner <- byOwner :: owner in order)
    && (forall i, j :: 0 <= i < j < |g| ==> order[i] != order[j])
  }

  lemma RepresentsLookup(order: seq<string>, byOwner: map<string, OwnerBalance>, g: seq<OwnerBalance>, owner: string)
    requires Represents(order, byOwner, g)
    ensures owner in byOwner <==> Position(g, owner) < |g|
    ensures owner in byOwner ==> byOwner[owner] == g[Position(g, owner)]
  {
    var n := Position(g, owner);
    if n < |g| {
      assert g[n].owner == order[n];
    }
  }

  lemma RepresentsNew(order: seq<string>, byOwner: map<string, OwnerBalance>, g: seq<OwnerBalance>, b: OwnerBalance)
    requires Represents(order, byOwner, g) && b.owner !in byOwner
    ensures Represents(order + [b.owner], byOwner[b.owner := b], g + [b])
  {
  }

  lemma RepresentsSet(order: seq<string>, byOwner: map<string, OwnerBalance>, g: seq<OwnerBalance>, n: nat,
                      b: OwnerBalance)
    requires Represents(order, byOwner, g) && n < |g| && g[n].owner == b.owner
    ensures Represents(order, byOwner[b.owner := b], g[n := b])
  {
  }

  /** One transition: a new owner is appended, a known one takes the later balance. */
  method GroupOne(order: seq<string>, byOwner: map<string, OwnerBalance>, ghost g: seq<OwnerBalance>, t: Row)
    returns (ok: bool, order': seq<string>, byOwner': map<string, OwnerBalance>, ghost g': seq<OwnerBalance>)
    requires Represents(order, byOwner, g)
    ensures if ok then Grouped(g, t) == Success(g') && Represents(order', byOwner', g')
            else Grouped(g, t) == Failure(InvalidPendingSettlement)
  {
    hide Trim, Represents, Position;
    ok, order', byOwner', g' := false, order, byOwner, g;
    var owner, denom := Trim(t.Owner()), Trim(t.Denom());
    if owner == "" || denom == "" {
      return;
    }
    RepresentsLookup(order, byOwner, g, owner);
    if owner !in byOwner {
      var b := OwnerBalance(owner, denom, t.balanceBefore, t.balanceAfter);
      RepresentsNew(order, byOwner, g, b);
      order', byOwner', g' := order + [owner], byOwner[owner := b], g + [b];
    } else {
      var current := byOwner[owner];
      if current.denom != denom {
        return;
      }
      current := current.(newBalance := t.balanceAfter);
      RepresentsSet(order, byOwner, g, Position(g, owner), current);
      byOwner', g' := byOwner[owner := current], g[Position(g, owner) := current];
    }
    ok := true;
  }

  method GroupTransitions(ts: seq<Row>) returns (r: Result<seq<OwnerBalance>>)
    ensures r == GroupByOwner(ts)
  {
    hide Grouped, Represents;
    var order: seq<string> := [];
    var byOwner: map<string, OwnerBalance> := map[];
    ghost var g: seq<OwnerBalance> := [];
    RepresentsNothing();
    for i := 0 to |ts|
      invariant GroupByOwner(ts[..i]) == Success(g) && Represents(order, byOwner, g)
    {
      assert ts[..i + 1][..i] == ts[..i];
      var ok;
      ok, order, byOwner, g := GroupOne(order, byOwner, g, ts[i]);
      if !ok {
        GroupByOwnerFails(ts, i + 1);
        return Failure(InvalidPendingSettlement);
      }
    }
    assert ts[..|ts|] == ts;
    var out := InOrder(order, byOwner, g);
    return Success(out);
  }

  lemma RepresentsNothing()
    ensures Represents([], map[], [])
  {
  }

  method InOrder(order: seq<string>, byOwner: map<string, OwnerBalance>, ghost g: seq<OwnerBalance>)
    returns (out: seq<OwnerBalance>)
    requires Represents(order, byOwner, g)
    ensures out == g
  {
    out := [];
    for i := 0 to |order|
      invariant out == g[..i]
    {
      assert g[i].owner == order[i];
      out := out + [byOwner[order[i]]];
    }
  }

  method BuildWitnessAccounts(ts: seq<Row>, secrets: seq<AccountSecret>) returns (r: Result<seq<AccountWitnessSecret>>)
    ensures r == WitnessAccounts(ts, secrets)
  {
    hide IndexSecrets, GroupByOwner;
    var index :- IndexAccountSecrets(secrets);
    var g :- GroupTransitions(ts);
    var out: seq<AccountWitnessSecret> := [];
    for i := 0 to |g|
      invariant out == AccountsWithSecrets(g[..i], index)
    {
      out := out + [AccountWitnessSecret(g[i].owner, SecretFor(index, g[i].owner), g[i].oldBalance, g[i].newBalance)];
    }
    assert g[..|g|] == g;
    return Success(out);
  }

  method SelectDeposits(pending: seq<Row>, bounded: seq<Row>) returns (deposits: seq<DepositRecord>, ids: seq<string>)
    requires forall r <- pending :: r.DepositRow?
    ensures deposits == Records(Chosen(pending, bounded)) && ids == Ids(Chosen(pending, bounded))
  {
    deposits, ids := [], [];
    for i := 0 to |pending|
      invariant forall r <- pending[..i] :: r.DepositRow?
      invariant deposits == Records(Chosen(pending[..i], bounded)) && ids == Ids(Chosen(pending[..i], bounded))
    {
      assert pending[..i + 1][..i] == pending[..i];
      if exists t <- bounded :: t.DepositRow? && t.Id() == pending[i].Id() {
        deposits := deposits + [pending[i].record];
        ids := ids + [pending[i].Id()];
      }
    }
    assert pending[..|pending|] == pending;
  }

  method SelectWithdrawals(pending: seq<Row>, bounded: seq<Row>)
    returns (withdrawals: seq<WithdrawalInput>, ids: seq<string>)
    requires forall r <- pending :: r.WithdrawalRow?
    ensures withdrawals == Inputs(Chosen(pending, bounded)) && ids == Ids(Chosen(pending, bounded))
  {
    withdrawals, ids := [], [];
    for i := 0 to |pending|
      invariant forall r <- pending[..i] :: r.WithdrawalRow?
      invariant withdrawals == Inputs(Chosen(pending[..i], bounded)) && ids == Ids(Chosen(pending[..i], bounded))
    {
      assert pending[..i + 1][..i] == pending[..i];
      var r := pending[i];
      if exists t <- bounded :: t.WithdrawalRow? && t.Id() == r.Id() {
        withdrawals := withdrawals + [WithdrawalInput(r.request, r.nullifier, r.destinationHash)];
        ids := ids + [r.Id()];
      }
    }
    assert pending[..|pending|] == pending;
  }

  class OffchainSettlementService {
    const manager: OffchainStateManager
    const repository: OffchainSettlementRepository
    const settlementBuilder: SettlementUpdateBuilder
    const witnessBuilder: WitnessBuilder

    ghost function Repr(): set<object>
      reads manager
    {
      {this, repository, settlementBuilder} + manager.Repr()
    }

    ghost predicate Valid()
      reads manager, manager.ls
    {
      manager.Valid()
    }

    ghost function View(): State
      reads Repr()
    {
      State(manager.Model(), repository.rows, repository.cursor, settlementBuilder.counter)
    }

    constructor (manager: OffchainStateManager, repository: OffchainSettlementRepository)
      requires manager.Valid()
      ensures Valid() && this.manager == manager && this.repository == repository
      ensures View() == State(manager.Model(), repository.rows, repository.cursor, 0)
    {
      this.manager := manager;
      this.repository := repository;
      settlementBuilder := new SettlementUpdateBuilder();
      witnessBuilder := new WitnessBuilder();
    }

    method GetOrInitCursor() returns (c: Cursor)
      requires Valid()
      modifies repository`cursor
      ensures c == CursorOf(old(View())) && View() == WithCursor(old(View()))
    {
      var found := repository.GetCursor();
      if found.Success? {
        return found.value;
      }
      c := Cursor(manager.ls.root, manager.ls.root, "");
      repository.UpsertCursor(c);
    }

    /**
     * Replays the pending deposits, then the pending withdrawals, into the manager; calls that
     * fail are counted and skipped. The store is only read.
     */
    method RehydrateFromStore() returns (depositsSkipped: nat, withdrawalsSkipped: nat)
      requires Valid()
      modifies manager.Repr()
      ensures Valid() && manager.ls == old(manager.ls)
      ensures View() == old(View()).(ledger := Run(old(manager.Model()), ReplayOps(repository.rows)))
      ensures depositsSkipped + withdrawalsSkipped == Skips(old(manager.Model()), ReplayOps(repository.rows))
      ensures depositsSkipped == Skips(old(manager.Model()), OpsIn(Select(repository.rows, IsPendingDeposit)))
    {
      hide Run, Skips, Select, Apply;
      var deposits := repository.ListPendingDeposits();
      var withdrawals := repository.ListPendingWithdrawals();
      depositsSkipped := Replay(deposits);
      ghost var between := manager.Model();
      withdrawalsSkipped := Replay(withdrawals);
      RunConcat(old(manager.Model()), OpsIn(deposits), OpsIn(withdrawals));
      SkipsConcat(old(manager.Model()), OpsIn(deposits), OpsIn(withdrawals));
    }

    method Replay(rows: seq<Row>) returns (skipped: nat)
      requires Valid()
      modifies manager.Repr()
      ensures Valid() && manager.ls == old(manager.ls)
      ensures manager.Model() == Run(old(manager.Model()), OpsIn(rows))
      ensures skipped == Skips(old(manager.Model()), OpsIn(rows))
    {
      hide Apply;
      skipped := 0;
      for i := 0 to |rows|
        invariant Valid() && manager.ls == old(manager.ls)
        invariant manager.Model() == Run(old(manager.Model()), OpsIn(rows[..i]))
        invariant skipped == Skips(old(manager.Model()), OpsIn(rows[..i]))
      {
        ghost var before := manager.Model();
        assert OpsIn(rows[..i + 1]) == OpsIn(rows[..i]) + [rows[i].Op()];
        RunOne(old(manager.Model()), OpsIn(rows[..i]), rows[i].Op());
        SkipsOne(old(manager.Model()), OpsIn(rows[..i]), rows[i].Op());
        var applied;
        match rows[i] {
          case DepositRow(record, _, _, _, _, _) =>
            applied := manager.ApplyDeposit(record);
          case WithdrawalRow(request, nullifier, _, _, _, _, _, _) =>
            applied := manager.ApplyWithdrawRequest(request, nullifier);
        }
        assert Outcome(before, rows[i].Op(), applied, manager.Model());
        if applied.Failure? {
          skipped := skipped + 1;
        }
      }
      assert rows[..|rows|] == rows;
    }

    method ApplyIndexedDeposit(d: DepositRecord) returns (r: Result<Row>)
      requires Valid()
      modifies Repr()
      ensures Valid() && manager.ls == old(manager.ls)
      ensures (View(), r) == SettlementModel.ApplyIndexedDeposit(old(View()), d)
      ensures r.Success? ==> repository.cursor.Some? && repository.cursor.value.pendingRoot == manager.Model().root
      ensures r.Success? ==> r.value.DepositRow? && r.value.record == d && r.value.mark == FRESH
      ensures CursorKept(old(View()), View())
    {
      hide Apply, Decimal, AccountAt, Upserted, CursorKept, BalancesRecorded;
      DepositRecorded(View(), d);
      var before := manager.Snapshot();
      var beforeAccount := before.Account(d.owner, d.denom);
      var c := GetOrInitCursor();
      var rootAfter := manager.ApplyDeposit(d);
      if rootAfter.Failure? {
        return Failure(rootAfter.error);
      }
      var after := manager.Snapshot();
      var afterAccount := after.Account(d.owner, d.denom);
      var row := DepositRow(d, before.root, rootAfter.value,
                            Decimal(beforeAccount.balance), Decimal(afterAccount.balance), FRESH);
      repository.SavePending(row);
      c := GetOrInitCursor();
      repository.UpsertCursor(c.(pendingRoot := after.root));
      return Success(row);
    }

    method ApplyWithdrawRequest(w: WithdrawRequest, userSecret: string) returns (r: Result<Row>)
      requires Valid()
      modifies Repr()
      ensures Valid() && manager.ls == old(manager.ls)
      ensures (View(), r) == SettlementModel.ApplyWithdrawRequest(old(View()), w, userSecret)
      ensures r.Success? ==> repository.cursor.Some? && repository.cursor.value.pendingRoot == manager.Model().root
      ensures r.Success? ==>
                && r.value.WithdrawalRow? && r.value.request == w && r.value.mark == FRESH
                && NullifierFor(if Blank(userSecret) then DEFAULT_SECRET else userSecret, w.nonce) ==
                   Success(r.value.nullifier)
                && WithdrawAddressHash(w.destination) == Success(r.value.destinationHash)
      ensures r.Success? ==> CursorKept(old(View()), View())
    {
      hide Apply, Decimal, AccountAt, Upserted, NullifierFor, WithdrawAddressHash, Trim, CursorKept, BalancesRecorded;
      WithdrawalRecorded(View(), w, userSecret);
      var secret := if Blank(userSecret) then DEFAULT_SECRET else userSecret;
      var nullifier := NullifierFor(secret, w.nonce);
      if nullifier.Failure? {
        return Failure(nullifier.error);
      }
      var hash := WithdrawAddressHash(w.destination);
      if hash.Failure? {
        return Failure(hash.error);
      }
      var before := manager.Snapshot();
      var beforeAccount := before.Account(w.owner, w.denom);
      var c := GetOrInitCursor();
      var rootAfter := manager.ApplyWithdrawRequest(w, nullifier.value);
      if rootAfter.Failure? {
        return Failure(rootAfter.error);
      }
      var after := manager.Snapshot();
      var afterAccount := after.Account(w.owner, w.denom);
      var row := WithdrawalRow(w, nullifier.value, hash.value, before.root, rootAfter.value,
                               Decimal(beforeAccount.balance), Decimal(afterAccount.balance), FRESH);
      repository.SavePending(row);
      c := GetOrInitCursor();
      repository.UpsertCursor(c.(pendingRoot := after.root));
      return Success(row);
    }

    method BuildPendingBatch(secrets: seq<AccountSecret>) returns (r: Result<BuildOutput>)
      requires Valid()
      modifies Repr()
      ensures Valid() && manager.ls == old(manager.ls) && manager.Model() == old(manager.Model())
      ensures (View(), r) == SettlementModel.BuildPendingBatch(old(View()), secrets)
    {
      hide PlanFor, Emit, Select, Chosen, Ids;
      var c := GetOrInitCursor();
      var pendingDeposits := repository.ListPendingDeposits();
      var pendingWithdrawals := repository.ListPendingWithdrawals();
      if pendingDeposits == [] && pendingWithdrawals == [] {
        return Failure(NoPendingSettlementOperations);
      }
      ghost var planned := PlanFor(c.committedRoot, pendingDeposits, pendingWithdrawals);
      var selected := SelectBatch(c.committedRoot, pendingDeposits, pendingWithdrawals);
      if selected.Failure? {
        return Failure(selected.error);
      }
      var (bounded, input, depositIds, withdrawIds) := selected.value;
      r := EmitBatch(planned.value, bounded, input, depositIds, withdrawIds, secrets);
    }

    /** Order, bound, select: the first half of BuildPendingBatch, which only reads. */
    method SelectBatch(committedRoot: string, pendingDeposits: seq<Row>, pendingWithdrawals: seq<Row>)
      returns (r: Result<(seq<Row>, SettlementInputs, seq<string>, seq<string>)>)
      requires forall d <- pendingDeposits :: d.DepositRow? && d in repository.rows
      requires forall w <- pendingWithdrawals :: w.WithdrawalRow? && w in repository.rows
      requires pendingDeposits != [] || pendingWithdrawals != []
      ensures match PlanFor(committedRoot, pendingDeposits, pendingWithdrawals)
              case Failure(e) => r == Failure(e)
              case Success(plan) =>
                && r == Success((plan.bounded, plan.input, Ids(plan.deposits), Ids(plan.withdrawals)))
                && (forall d <- plan.deposits :: d.DepositRow? && d in repository.rows)
                && (forall w <- plan.withdrawals :: w.WithdrawalRow? && w in repository.rows)
    {
      hide Ordered, BoundLength, Chosen, Records, Inputs, Ids, LinkedFrom, RootsPresent;
      var ordered := OrderPendingSettlementTransitions(committedRoot, pendingDeposits, pendingWithdrawals);
      if ordered.Failure? {
        return Failure(ordered.error);
      }
      OrderSound(committedRoot, pendingDeposits, pendingWithdrawals);
      var bounded := BoundSingleWithdrawalPrefix(ordered.value);
      var deposits, depositIds := SelectDeposits(pendingDeposits, bounded);
      var withdrawals, withdrawIds := SelectWithdrawals(pendingWithdrawals, bounded);
      var input := SettlementInputs(committedRoot, bounded[|bounded| - 1].rootAfter, deposits, withdrawals);
      return Success((bounded, input, depositIds, withdrawIds));
    }

    /** Settlement, witness, commitments, marking: the second half. */
    method EmitBatch(ghost plan: Plan, bounded: seq<Row>, input: SettlementInputs,
                     depositIds: seq<string>, withdrawIds: seq<string>, secrets: seq<AccountSecret>)
      returns (r: Result<BuildOutput>)
      requires Valid() && plan.bounded == bounded && plan.input == input
      requires depositIds == Ids(plan.deposits) && withdrawIds == Ids(plan.withdrawals)
      requires forall d <- plan.deposits :: d.DepositRow? && d in repository.rows
      requires forall w <- plan.withdrawals :: w.WithdrawalRow? && w in repository.rows
      modifies settlementBuilder, repository`rows
      ensures Valid() && manager.Model() == old(manager.Model())
      ensures (View(), r) == Emit(old(View()), plan, secrets)
    {
      hide Acceptable, WitnessAcceptable, WitnessAccounts, UpdateFor, CommitmentsFor, WitnessFor, WithIncluded, Ids;
      var update := settlementBuilder.Build(input);
      if update.Failure? {
        return Failure(update.error);
      }
      var accounts := BuildWitnessAccounts(bounded, secrets);
      if accounts.Failure? {
        return Failure(accounts.error);
      }
      var built := witnessBuilder.Build(input, accounts.value, []);
      if built.Failure? {
        return Failure(built.error);
      }
      var commitments := BuildCommitments(update.value);
      ChosenFound(repository.rows, plan.deposits, plan.withdrawals);
      var marked := repository.MarkIncluded(update.value.batchId, depositIds, withdrawIds);
      assert marked.Success?; // every id was read from the table in this very call
      return Success(BuildOutput(update.value, commitments, built.value));
    }

    method MarkIncluded(batchId: string, depositIds: seq<string>, withdrawIds: seq<string>) returns (r: Result<()>)
      requires Valid()
      modifies repository`rows
      ensures (View(), r) == SettlementModel.MarkIncluded(old(View()), batchId, depositIds, withdrawIds)
    {
      hide AllFound, WithIncluded;
      r := repository.MarkIncluded(batchId, depositIds, withdrawIds);
      assert r.Success? ==> r.value == ();
    }

    method CommitBatch(batchId: string, txHash: string, newRoot: string)
      requires Valid()
      modifies repository
      ensures View() == SettlementModel.CommitBatch(old(View()), batchId, txHash, newRoot)
      ensures repository.cursor == Some(Cursor(newRoot, newRoot, batchId))
    {
      repository.MarkByBatch(batchId, Committed, txHash, "");
      var c := GetOrInitCursor();
      repository.UpsertCursor(c.(committedRoot := newRoot, pendingRoot := newRoot, lastCommittedBatchId := batchId));
    }

    method FailBatch(batchId: string, reason: string)
      requires Valid()
      modifies repository
      ensures View() == SettlementModel.FailBatch(old(View()), batchId, reason)
      ensures repository.cursor == old(repository.cursor)
    {
      repository.MarkByBatch(batchId, Failed, "", reason);
    }

    method CancelIncludedBatch(batchId: string, reason: string) returns (r: Result<()>)
      requires Valid()
      modifies repository
      ensures (View(), r) == SettlementModel.CancelIncludedBatch(old(View()), batchId, reason)
    {
      r := repository.ReopenIncluded(batchId, reason);
    }
  }
}
