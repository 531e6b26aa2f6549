/** How a build ends when it yields no batch: which error, which numbers are spent, what is left alone. */
module BuildFailures {
  import opened Wrappers
  import opened Text
  import opened Decimals
  import opened Hashing
  import opened Types
  import opened Ledgers
  import opened SettlementLogs
  import opened TransitionOrder
  import opened SettlementBuilders
  import opened Witnesses
  import opened Commitments
  import opened SettlementModel
  import opened SnapshotBuilders
  import opened SnapshotSimulation
  import opened SequencerModel

  // ------------------------------------------------------------- builds from the log

  lemma {:induction false} IndexSecretsErrors(secrets: seq<AccountSecret>)
    ensures IndexSecrets(secrets).Failure? ==> IndexSecrets(secrets) == Failure(InvalidPendingSettlement)
  {
    hide Trim;
    if secrets != [] { IndexSecretsErrors(secrets[..|secrets| - 1]); }
  }

  lemma WitnessAccountsErrors(ts: seq<Row>, secrets: seq<AccountSecret>)
    ensures WitnessAccounts(ts, secrets).Success? <==> IndexSecrets(secrets).Success? && GroupByOwner(ts).Success?
    ensures WitnessAccounts(ts, secrets).Failure? ==> WitnessAccounts(ts, secrets) == Failure(InvalidPendingSettlement)
  {
    hide IndexSecrets, GroupByOwner;
    IndexSecretsErrors(secrets);
    GroupErrors(ts);
  }

  lemma OrderedErrors(root: string, deposits: seq<Row>, withdrawals: seq<Row>)
    ensures Ordered(root, deposits, withdrawals).Failure? ==>
              Ordered(root, deposits, withdrawals) == Failure(InvalidPendingSettlement)
  {
    hide IndexAll, Walk;
    var all := deposits + withdrawals;
    IndexAllExactly(all);
    if IndexAll(all).Success? { WalkErrors(IndexAll(all).value, root, |IndexAll(all).value|); }
  }

  /**
   * A build that yields no batch leaves ledger and log alone and at most sets the cursor up. It
   * fails first for an empty queue, then for rows that cannot be ordered, then for inputs that make
   * no settlement; only a build that gets past these spends a batch number, whether or not it then
   * fails for its witness.
   */
  lemma PendingBuildEnds(s: State, secrets: seq<AccountSecret>)
    ensures var (s', r) := BuildPendingBatch(s, secrets);
            var ds, ws := Select(s.rows, IsPendingDeposit), Select(s.rows, IsPendingWithdrawal);
            && s'.ledger == s.ledger && s'.cursor == Some(CursorOf(s)) && (r.Failure? ==> s'.rows == s.rows)
            && (r == Failure(NoPendingSettlementOperations) <==> ds == [] && ws == [])
            && (ds == [] && ws == [] ==> s'.counter == s.counter)
            && (ds != [] || ws != [] ==>
                  match PlanFor(CursorOf(s).committedRoot, ds, ws)
                  case Failure(e) => e == InvalidPendingSettlement && r == Failure(e) && s'.counter == s.counter
                  case Success(plan) =>
                    && (!Acceptable(plan.input) ==>
                          r == Failure(InvalidSettlementInputs) && s'.counter == s.counter)
                    && (Acceptable(plan.input) ==>
                          var accounts := WitnessAccounts(plan.bounded, secrets);
                          && s'.counter == s.counter + 1
                          && (r == Failure(InvalidPendingSettlement) <==> accounts.Failure?)
                          && (r == Failure(InvalidWitnessInputs) <==>
                              accounts.Success? && !WitnessAcceptable(plan.input, accounts.value))
                          && (r.Success? ==> r.value.update.batchId == "batch-" + Decimal(s'.counter))))
  {
    hide Select, Acceptable, WitnessAccounts, WitnessAcceptable, UpdateFor, CommitmentsFor, WitnessFor, WithIncluded,
         Ordered, BoundLength, Chosen, Decimal, Records, Inputs, Ids;
    var ds, ws := Select(s.rows, IsPendingDeposit), Select(s.rows, IsPendingWithdrawal);
    if ds != [] || ws != [] {
      var root := CursorOf(s).committedRoot;
      OrderedErrors(root, ds, ws);
      if PlanFor(root, ds, ws).Success? {
        var plan := PlanFor(root, ds, ws).value;
        WitnessAccountsErrors(plan.bounded, secrets);
        NumberedId(plan.input, s.counter + 1);
      }
    }
  }

  // --------------------------------------------------------------- builds on a snapshot

  /** Request `k` is the first that cannot be carried out after the ones before it, and why. */
  ghost predicate RefusedAt(l: Ledger, index: map<string, string>, reqs: seq<WithdrawRequest>,
                            done: seq<WithdrawalInput>, k: int, error: Error)
  {
    && 0 <= k < |reqs|
    && SimulateRequests(l, index, reqs[..k], done).Success?
    && var (m, _) := SimulateRequests(l, index, reqs[..k], done).value;
       var derived := Derive(index, reqs[k]);
       if derived.Failure? then error == InvalidBuildInput
       else
         var applied := Apply(m, WithdrawOp(reqs[k], derived.value.nullifier));
         && applied.Failure?
         && error == if applied.error == InsufficientBalance then InsufficientOffchainBalance else InvalidBuildInput
  }

  /** The simulation of the requests fails only at a refused one, and says whether the balance was too low. */
  lemma {:induction false} RequestsFailAt(l: Ledger, index: map<string, string>, reqs: seq<WithdrawRequest>,
                                          done: seq<WithdrawalInput>) returns (k: int)
    requires SimulateRequests(l, index, reqs, done).Failure?
    ensures RefusedAt(l, index, reqs, done, k, SimulateRequests(l, index, reqs, done).error)
    decreases |reqs|
  {
    hide Apply, Derive, NullifierFor, WithdrawAddressHash, Trim;
    DeriveKeepsRequest(index, reqs[0]);
    DeriveExactly(index, reqs[0]);
    assert reqs[..0] == [] && SimulateRequests(l, index, reqs[..0], done) == Success((l, done));
    k := 0;
    if Derive(index, reqs[0]).Success? {
      var w := Derive(index, reqs[0]).value;
      if Apply(l, WithdrawOp(w.request, w.nullifier)).Success? {
        var m := Apply(l, WithdrawOp(w.request, w.nullifier)).value;
        var j := RequestsFailAt(m, index, reqs[1..], done + [w]);
        k := j + 1;
        var front := reqs[..k];
        assert front[0] == reqs[0] && front[1..] == reqs[1..][..j] && reqs[k] == reqs[1..][j];
        assert SimulateRequests(l, index, front, done) == SimulateRequests(m, index, front[1..], done + [w]);
      }
    }
  }

  /**
   * Why a snapshot build yields no batch, in the order in which it is checked, and whether a batch
   * number was spent: by every build whose simulation makes a settlement, and by no other.
   */
  lemma SnapshotBuildEnds(l: Ledger, counter: nat, input: BuildInput)
    ensures var (n, r) := SnapshotBuild(l, counter, input);
            var index, parts := IndexSecrets(input.secrets), Collected([], Names(input.deposits, input.requests));
            && (r.Success? ==> n == counter + 1 && r.value.update.batchId == "batch-" + Decimal(n))
            && (index.Failure? || parts.Failure? ==> r == Failure(InvalidBuildInput) && n == counter)
            && (index.Success? && parts.Success? && !ValidHex(l.root) ==>
                  r == Failure(InvalidSettlementInputs) && n == counter)
            && (index.Success? && parts.Success? && ValidHex(l.root) ==>
                  var deposited, simulated := SimulateDeposits(l, input.deposits), Simulate(l, index.value, input);
                  && (deposited.Failure? ==> r == Failure(InvalidBuildInput) && n == counter)
                  && (deposited.Success? && simulated.Failure? ==>
                        && r.Failure? && n == counter
                        && exists k :: RefusedAt(deposited.value, index.value, input.requests, [], k, r.error))
                  && (simulated.Success? ==>
                        var settlement := SettlementOf(l, index.value, input);
                        && (r == Failure(InvalidSettlementInputs) <==> !Acceptable(settlement))
                        && (r == Failure(InvalidWitnessInputs) <==> Acceptable(settlement) && r.Failure?)
                        && n == counter + if Acceptable(settlement) then 1 else 0))
  {
    hide Names, Collected, IndexSecrets, SimulateDeposits, SimulateRequests, Acceptable, WitnessAcceptable, AccountsOf,
         UpdateFor, CommitmentsFor, WitnessFor, ValidHex, RefusedAt, Decimal;
    CollectErrors([], Names(input.deposits, input.requests));
    DepositErrors(l, input.deposits);
    if IndexSecrets(input.secrets).Success? && SimulateDeposits(l, input.deposits).Success? {
      var index, m := IndexSecrets(input.secrets).value, SimulateDeposits(l, input.deposits).value;
      if SimulateRequests(m, index, input.requests, []).Failure? {
        var k := RequestsFailAt(m, index, input.requests, []);
      } else {
        NumberedId(SettlementOf(l, index, input), counter + 1);
      }
    }
  }
}
