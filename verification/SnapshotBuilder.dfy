/** Building a batch on a working copy of the manager's state. */
module SnapshotBuilders {
  import opened Wrappers
  import opened Text
  import opened Decimals
  import opened Hashing
  import opened Types
  import opened StateRoot
  import opened Ledgers
  import opened LocalStates
  import opened OffchainManagers
  import opened SettlementBuilders
  import opened Witnesses
  import opened Commitments
  import opened SettlementModel
  import opened SettlementServices

  datatype BuildInput = BuildInput(
    deposits: seq<DepositRecord>, requests: seq<WithdrawRequest>, secrets: seq<AccountSecret>)

  datatype Participant = Participant(owner: string, denom: string)

  // ------------------------------------------------------------------ the build on values

  /** The owner and denom texts of the operations, deposits first. */
  function Names(deposits: seq<DepositRecord>, requests: seq<WithdrawRequest>): seq<(string, string)> {
    seq(|deposits|, i requires 0 <= i < |deposits| => (deposits[i].owner, deposits[i].denom)) +
    seq(|requests|, i requires 0 <= i < |requests| => (requests[i].owner, requests[i].denom))
  }

  predicate Joined(parts: seq<Participant>, owner: string) { exists p <- parts :: p.owner == owner }

  function Join(parts: seq<Participant>, name: (string, string)): Result<seq<Participant>> {
    if Blank(name.0) || Blank(name.1) then Failure(InvalidBuildInput)
    else if Joined(parts, Trim(name.0)) then Success(parts)
    else Success(parts + [Participant(Trim(name.0), Trim(name.1))])
  }

  /** collectParticipants, with `parts` already collected. */
  function Collected(parts: seq<Participant>, names: seq<(string, string)>): Result<seq<Participant>>
    decreases |names|
  {
    if names == [] then Success(parts) else
      var joined :- Join(parts, names[0]);
      Collected(joined, names[1..])
  }

  ghost function SimulateDeposits(l: Ledger, ds: seq<DepositRecord>): Result<Ledger>
    decreases |ds|
  {
    if ds == [] then Success(l) else
      match Apply(l, DepositOp(ds[0]))
      case Failure(_) => Failure(InvalidBuildInput)
      case Success(m) => SimulateDeposits(m, ds[1..])
  }

  function Derive(index: map<string, string>, req: WithdrawRequest): Result<WithdrawalInput> {
    match NullifierFor(SecretFor(index, Trim(req.owner)), req.nonce)
    case Failure(_) => Failure(InvalidBuildInput)
    case Success(nullifier) =>
      match WithdrawAddressHash(req.destination)
      case Failure(_) => Failure(InvalidBuildInput)
      case Success(hash) => Success(WithdrawalInput(req, nullifier, hash))
  }

  /** Requests in order, each derived and then applied; `done` holds the ones before. */
  ghost function SimulateRequests(l: Ledger, index: map<string, string>, reqs: seq<WithdrawRequest>,
                                  done: seq<WithdrawalInput>)
    : Result<(Ledger, seq<WithdrawalInput>)>
    decreases |reqs|
  {
    if reqs == [] then Success((l, done)) else
      var w :- Derive(index, reqs[0]);
      match Apply(l, WithdrawOp(w.request, w.nullifier))
      case Failure(e) => Failure(if e == InsufficientBalance then InsufficientOffchainBalance else InvalidBuildInput)
      case Success(m) => SimulateRequests(m, index, reqs[1..], done + [w])
  }

  ghost function Simulate(l: Ledger, index: map<string, string>, input: BuildInput)
    : Result<(Ledger, seq<WithdrawalInput>)>
  {
    var m :- SimulateDeposits(l, input.deposits);
    SimulateRequests(m, index, input.requests, [])
  }

  /** Old balances from the snapshot, new ones from the working copy. */
  function AccountsOf(parts: seq<Participant>, index: map<string, string>, m: Accounts, m': Accounts)
    : seq<AccountWitnessSecret>
  {
    seq(|parts|, i requires 0 <= i < |parts| =>
      AccountWitnessSecret(parts[i].owner, SecretFor(index, parts[i].owner),
                           Decimal(AccountAt(m, parts[i].owner, parts[i].denom).balance),
                           Decimal(AccountAt(m', parts[i].owner, parts[i].denom).balance)))
  }

  /** Settlement, witness and commitments over a finished simulation. */
  function Finished(counter: nat, settlement: SettlementInputs, accounts: seq<AccountWitnessSecret>)
    : (nat, Result<BuildOutput>)
  {
    if !Acceptable(settlement) then (counter, Failure(InvalidSettlementInputs))
    else if !WitnessAcceptable(settlement, accounts) then (counter + 1, Failure(InvalidWitnessInputs))
    else
      var update := UpdateFor(settlement, counter + 1);
      (counter + 1, Success(BuildOutput(update, CommitmentsFor(update), WitnessFor(settlement, accounts))))
  }

  ghost function SnapshotBuild(l: Ledger, counter: nat, input: BuildInput): (nat, Result<BuildOutput>) {
    match IndexSecrets(input.secrets)
    case Failure(_) => (counter, Failure(InvalidBuildInput))
    case Success(index) =>
      match Collected([], Names(input.deposits, input.requests))
      case Failure(e) => (counter, Failure(e))
      case Success(parts) =>
        if !ValidHex(l.root) then (counter, Failure(InvalidSettlementInputs)) else
          match Simulate(l, index, input)
          case Failure(e) => (counter, Failure(e))
          case Success((l', ws)) =>
            Finished(counter, SettlementInputs(l.root, l'.root, input.deposits, ws),
                     AccountsOf(parts, index, l.accounts, l'.accounts))
  }

  // ------------------------------------------------------------------------ the builder

  method CollectParticipants(deposits: seq<DepositRecord>, requests: seq<WithdrawRequest>)
    returns (r: Result<seq<Participant>>)
    ensures r == Collected([], Names(deposits, requests))
  {
    hide Trim, Joined;
    var names := Names(deposits, requests);
    var seen: set<string> := {};
    var out: seq<Participant> := [];
    assert names[0..] == names;
    NobodyJoined();
    for i := 0 to |names|
      invariant Collected([], names) == Collected(out, names[i..])
      invariant forall owner :: owner in seen <==> Joined(out, owner)
    {
      assert names[i..][1..] == names[i + 1..] && names[i..][0] == names[i];
      var owner, denom := Trim(names[i].0), Trim(names[i].1);
      if owner == "" || denom == "" {
        return Failure(InvalidBuildInput);
      }
      if owner !in seen {
        forall o ensures Joined(out + [Participant(owner, denom)], o) <==> Joined(out, o) || o == owner {
          JoinedOne(out, Participant(owner, denom), o);
        }
        seen := seen + {owner};
        out := out + [Participant(owner, denom)];
      }
    }
    return Success(out);
  }

  lemma NobodyJoined()
    ensures forall owner :: !Joined([], owner)
  {
  }

  lemma JoinedOne(parts: seq<Participant>, p: Participant, owner: string)
    ensures Joined(parts + [p], owner) <==> Joined(parts, owner) || owner == p.owner
  {
    assert forall q <- parts :: q in parts + [p];
    assert p in parts + [p];
  }

  class SnapshotBuilder {
    const manager: OffchainStateManager
    const settlement: SettlementUpdateBuilder
    const witnessBuilder: WitnessBuilder

    constructor (manager: OffchainStateManager)
      ensures this.manager == manager && settlement.counter == 0 && fresh(settlement)
    {
      this.manager := manager;
      settlement := new SettlementUpdateBuilder();
      witnessBuilder := new WitnessBuilder();
    }

    /** NewLocalStateFromSnapshot: a working state that shares nothing with the snapshot. */
    method WorkingCopy(snap: Snapshot) returns (working: LocalState)
      requires snap.Valid()
      ensures working.Valid() && fresh(working.Repr) && working.Model() == snap.Model()
    {
      var accounts := CopyAccounts(snap.accounts);
      var deposits := CopyIds(snap.appliedDeposits);
      var nullifiers := CopyIds(snap.appliedNullifiers);
      working := new LocalState.Adopt(accounts, deposits, nullifiers, snap.root);
    }

    method PlayDeposits(working: LocalState, ds: seq<DepositRecord>) returns (r: Result<()>)
      requires working.Valid()
      modifies working.Repr
      ensures working.Valid()
      ensures match SimulateDeposits(old(working.Model()), ds)
              case Failure(e) => r == Failure(e)
              case Success(l) => r == Success(()) && working.Model() == l
    {
      hide Apply;
      ghost var start := working.Model();
      assert ds[0..] == ds;
      for i := 0 to |ds|
        invariant working.Valid()
        invariant SimulateDeposits(start, ds) == SimulateDeposits(working.Model(), ds[i..])
      {
        assert ds[i..][1..] == ds[i + 1..] && ds[i..][0] == ds[i];
        ghost var before := working.Model();
        var applied := working.ApplyDeposit(ds[i]);
        assert Outcome(before, DepositOp(ds[i]), applied, working.Model());
        if applied.Failure? {
          return Failure(InvalidBuildInput);
        }
      }
      return Success(());
    }

    method DeriveRequest(index: map<string, string>, req: WithdrawRequest) returns (r: Result<WithdrawalInput>)
      ensures r == Derive(index, req)
    {
      hide NullifierFor, WithdrawAddressHash, Trim;
      var secret := SecretFor(index, Trim(req.owner));
      var nullifier := NullifierFor(secret, req.nonce);
      if nullifier.Failure? {
        return Failure(InvalidBuildInput);
      }
      var hash := WithdrawAddressHash(req.destination);
      if hash.Failure? {
        return Failure(InvalidBuildInput);
      }
      return Success(WithdrawalInput(req, nullifier.value, hash.value));
    }

    method PlayRequests(working: LocalState, index: map<string, string>, reqs: seq<WithdrawRequest>)
      returns (r: Result<seq<WithdrawalInput>>)
      requires working.Valid()
      modifies working.Repr
      ensures working.Valid()
      ensures match SimulateRequests(old(working.Model()), index, reqs, [])
              case Failure(e) => r == Failure(e)
              case Success((l, ws)) => r == Success(ws) && working.Model() == l
    {
      hide Apply, Derive;
      ghost var start := working.Model();
      var out: seq<WithdrawalInput> := [];
      assert reqs[0..] == reqs;
      for i := 0 to |reqs|
        invariant working.Valid()
        invariant SimulateRequests(start, index, reqs, []) == SimulateRequests(working.Model(), index, reqs[i..], out)
      {
        assert reqs[i..][1..] == reqs[i + 1..] && reqs[i..][0] == reqs[i];
        var derived := DeriveRequest(index, reqs[i]);
        if derived.Failure? {
          return Failure(derived.error);
        }
        DeriveKeepsRequest(index, reqs[i]);
        ghost var before := working.Model();
        var applied := working.ApplyWithdrawal(reqs[i], derived.value.nullifier);
        assert Outcome(before, WithdrawOp(reqs[i], derived.value.nullifier), applied, working.Model());
        if applied.Failure? {
          var short := applied.error == InsufficientBalance;
          return Failure(if short then InsufficientOffchainBalance else InvalidBuildInput);
        }
        out := out + [derived.value];
      }
      return Success(out);
    }

    method Finish(input: SettlementInputs, accounts: seq<AccountWitnessSecret>) returns (r: Result<BuildOutput>)
      modifies settlement
      ensures (settlement.counter, r) == Finished(old(settlement.counter), input, accounts)
    {
      hide Acceptable, WitnessAcceptable, UpdateFor, CommitmentsFor, WitnessFor;
      var update := settlement.Build(input);
      if update.Failure? {
        return Failure(update.error);
      }
      var built := witnessBuilder.Build(input, accounts, []);
      if built.Failure? {
        return Failure(built.error);
      }
      var commitments := BuildCommitments(update.value);
      return Success(BuildOutput(update.value, commitments, built.value));
    }

    method RunOnCopy(snap: Snapshot, index: map<string, string>, input: BuildInput)
      returns (working: LocalState, r: Result<seq<WithdrawalInput>>)
      requires snap.Valid()
      ensures working.Valid() && fresh(working.Repr)
      ensures match Simulate(snap.Model(), index, input)
              case Failure(e) => r == Failure(e)
              case Success((l, ws)) => r == Success(ws) && working.Model() == l
    {
      hide SimulateDeposits, SimulateRequests;
      working := WorkingCopy(snap);
      var deposited := PlayDeposits(working, input.deposits);
      if deposited.Failure? {
        r := Failure(deposited.error);
        return;
      }
      r := PlayRequests(working, index, input.requests);
    }

    method ReadAccounts(parts: seq<Participant>, index: map<string, string>, before: AccountState, after: AccountState)
      returns (out: seq<AccountWitnessSecret>)
      ensures out == AccountsOf(parts, index, before.accounts, after.accounts)
    {
      hide AccountAt, Decimal, AccountsOf;
      AccountsOfNone(index, before.accounts, after.accounts);
      out := [];
      for i := 0 to |parts|
        invariant out == AccountsOf(parts[..i], index, before.accounts, after.accounts)
      {
        var p := parts[i];
        var oldAccount := before.GetOrZero(p.owner, p.denom);
        var newAccount := after.GetOrZero(p.owner, p.denom);
        AccountsOfOne(parts[..i], p, index, before.accounts, after.accounts);
        assert parts[..i + 1] == parts[..i] + [p];
        out := out + [AccountWitnessSecret(p.owner, SecretFor(index, p.owner),
                                           Decimal(oldAccount.balance), Decimal(newAccount.balance))];
      }
      assert parts[..|parts|] == parts;
    }

    /** Simulates the batch on a copy: only the batch counter may change. */
    method Build(input: BuildInput) returns (r: Result<BuildOutput>)
      requires manager.Valid()
      modifies settlement
      ensures manager.Valid() && manager.Model() == old(manager.Model())
      ensures (settlement.counter, r) == SnapshotBuild(manager.Model(), old(settlement.counter), input)
    {
      hide Simulate, Finished, Collected, Names, IndexSecrets, AccountsOf, ValidHex;
      var index := IndexAccountSecrets(input.secrets);
      if index.Failure? {
        return Failure(InvalidBuildInput);
      }
      var parts := CollectParticipants(input.deposits, input.requests);
      if parts.Failure? {
        return Failure(parts.error);
      }
      var snap := manager.Snapshot();
      if !ValidHex(snap.root) {
        return Failure(InvalidSettlementInputs);
      }
      var working, withdrawals := RunOnCopy(snap, index.value, input);
      if withdrawals.Failure? {
        return Failure(withdrawals.error);
      }
      var accounts := ReadAccounts(parts.value, index.value, snap.accounts, working.accounts);
      r := Finish(SettlementInputs(snap.root, working.root, input.deposits, withdrawals.value), accounts);
    }
  }

  lemma DeriveKeepsRequest(index: map<string, string>, req: WithdrawRequest)
    ensures Derive(index, req).Success? ==> Derive(index, req).value.request == req
  {
    hide NullifierFor, WithdrawAddressHash;
  }

  lemma AccountsOfNone(index: map<string, string>, m: Accounts, m': Accounts)
    ensures AccountsOf([], index, m, m') == []
  {
  }

  lemma AccountsOfOne(parts: seq<Participant>, p: Participant, index: map<string, string>, m: Accounts, m': Accounts)
    ensures AccountsOf(parts + [p], index, m, m') ==
            AccountsOf(parts, index, m, m') +
            [AccountWitnessSecret(p.owner, SecretFor(index, p.owner), Decimal(AccountAt(m, p.owner, p.denom).balance),
                                  Decimal(AccountAt(m', p.owner, p.denom).balance))]
  {
    hide AccountAt, Decimal, SecretFor;
  }
}
