/** The long-lived manager: applies, snapshots, rollback, and withdraw-request building. */
module OffchainManagers {
  import opened Wrappers
  import opened Text
  import opened Decimals
  import opened Types
  import opened StateRoot
  import opened Ledgers
  import opened LedgerLaws
  import opened LocalStates

  /** Owns copies of the tables it was taken from. */
  datatype Snapshot = Snap(
    root: string, accounts: AccountState, appliedDeposits: IdSet, appliedNullifiers: IdSet, gen: nat)
  {
    ghost function Footprint(): set<object> { {accounts, appliedDeposits, appliedNullifiers} }

    ghost predicate Valid() { appliedDeposits != appliedNullifiers && root != "" }

    ghost function Model(): Ledger
      reads Footprint()
    {
      Ledger(accounts.accounts, appliedDeposits.ids, appliedNullifiers.ids, root)
    }

    function Account(owner: string, denom: string): Types.Account
      reads accounts
    {
      AccountAt(accounts.accounts, owner, denom)
    }
  }

  datatype WithdrawIntent = WithdrawIntent(owner: string, denom: string, amount: string, destination: string)

  /** WithdrawRequestBuilder.Build with the id replaced by the caller's durable one. */
  function RequestFor(m: Accounts, intent: WithdrawIntent, withdrawId: string): Result<WithdrawRequest> {
    if Blank(intent.owner) || Blank(intent.denom) || Blank(intent.destination) ||
      ParsePositive(intent.amount).Failure? then
      Failure(InvalidWithdrawIntent)
    else
      var acc := AccountAt(m, Trim(intent.owner), Trim(intent.denom));
      var amount := Value(intent.amount);
      if acc.balance < amount then Failure(InsufficientBalance) else
        Success(WithdrawRequest(withdrawId, Trim(intent.owner), Trim(intent.denom), Decimal(amount),
                                Trim(intent.destination), Decimal(acc.nonce + 1), ""))
  }

  /** A built request is valid but for its id, asks for no more than the balance, and takes the next nonce. */
  lemma BuiltRequestFits(m: Accounts, intent: WithdrawIntent, withdrawId: string)
    requires RequestFor(m, intent, withdrawId).Success?
    ensures var w := RequestFor(m, intent, withdrawId).value;
            var acc := AccountAt(m, Trim(w.owner), Trim(w.denom));
            && (ValidWithdrawRequest(w) <==> !Blank(withdrawId))
            && Value(w.amount) <= acc.balance && Value(w.nonce) == acc.nonce + 1
            && MakeKey(w.owner, w.denom).Success?
  {
    TrimIdempotent(intent.owner);
    TrimIdempotent(intent.denom);
    TrimIdempotent(intent.destination);
    ParsedBack(Value(intent.amount));
    hide Trim, Trimmed, ParseNonNegative, Decimal, AccountAt;
  }

  /**
   * A built request is the one that was asked for: the intent's own owner, denom, destination and
   * amount, under the given id, with the next nonce of the account it debits.
   */
  lemma BuiltRequestIsAsked(m: Accounts, intent: WithdrawIntent, withdrawId: string)
    requires RequestFor(m, intent, withdrawId).Success?
    ensures var w := RequestFor(m, intent, withdrawId).value;
            && w.withdrawId == withdrawId && w.owner == Trim(intent.owner) && w.denom == Trim(intent.denom)
            && w.destination == Trim(intent.destination) && w.signature == ""
            && Value(w.amount) == Value(intent.amount) > 0
            && Value(w.nonce) == Nonce(m, Key(Trim(intent.owner), Trim(intent.denom))) + 1
  {
    TrimIdempotent(intent.owner);
    TrimIdempotent(intent.denom);
    ParsedBack(Value(intent.amount));
    hide Trim, Trimmed, ParseNonNegative, Decimal;
  }

  /** Which intents are refused, and why. */
  lemma IntentRefused(m: Accounts, intent: WithdrawIntent, withdrawId: string)
    ensures var r, k := RequestFor(m, intent, withdrawId), Key(Trim(intent.owner), Trim(intent.denom));
            var invalid := Blank(intent.owner) || Blank(intent.denom) || Blank(intent.destination) ||
                           ParsePositive(intent.amount).Failure?;
            && (r == Failure(InvalidWithdrawIntent) <==> invalid)
            && (r == Failure(InsufficientBalance) <==> !invalid && Balance(m, k) < Value(intent.amount))
            && (r.Success? <==> !invalid && Balance(m, k) >= Value(intent.amount))
  {
    TrimIdempotent(intent.owner);
    TrimIdempotent(intent.denom);
    hide Trim, Trimmed, ParseNonNegative, Decimal;
  }

  lemma ParsedBack(n: nat)
    ensures ParseNonNegative(Decimal(n)) == Success(n) && Value(Decimal(n)) == n
  {
  }

  lemma AppliesWhenFit(l: Ledger, w: WithdrawRequest, nullifier: string)
    requires var acc := AccountAt(l.accounts, Trim(w.owner), Trim(w.denom));
             Value(w.amount) <= acc.balance && Value(w.nonce) == acc.nonce + 1 && MakeKey(w.owner, w.denom).Success?
    ensures Apply(l, WithdrawOp(w, nullifier)).Success? <==>
            ValidWithdrawRequest(w) && !Blank(nullifier) && Trim(nullifier) !in l.nullifiers
  {
    hide Trim, Value, ValidWithdrawRequest, MakeKey, AccountAt, RootOf, Put;
  }

  /**
   * A request built from the live ledger is refused by that ledger only if its id or nullifier is
   * blank or the nullifier is already consumed; the nonce and the balance always fit.
   */
  lemma BuiltRequestApplies(l: Ledger, intent: WithdrawIntent, withdrawId: string, nullifier: string)
    requires RequestFor(l.accounts, intent, withdrawId).Success?
    ensures var w := RequestFor(l.accounts, intent, withdrawId).value;
            Apply(l, WithdrawOp(w, nullifier)).Success? <==>
            !Blank(withdrawId) && !Blank(nullifier) && Trim(nullifier) !in l.nullifiers
  {
    hide *;
    BuiltRequestFits(l.accounts, intent, withdrawId);
    AppliesWhenFit(l, RequestFor(l.accounts, intent, withdrawId).value, nullifier);
  }

  class OffchainStateManager {
    var ls: LocalState
    var gen: nat

    ghost function Repr(): set<object>
      reads this
    {
      {this} + ls.Repr
    }

    ghost predicate Valid()
      reads this, ls
    {
      ls.Valid()
    }

    ghost function Model(): Ledger
      reads Repr()
    {
      ls.Model()
    }

    constructor (genesisRoot: string)
      ensures Valid() && fresh(Repr())
      ensures Model() == Genesis(if genesisRoot == "" then RootOf(map[]) else genesisRoot)
      ensures gen == 0
    {
      ls := new LocalState(genesisRoot);
      gen := 0;
    }

    method BuildWithdrawRequest(intent: WithdrawIntent, withdrawId: string) returns (r: Result<WithdrawRequest>)
      requires Valid()
      ensures r == RequestFor(Model().accounts, intent, withdrawId)
      ensures r.Success? ==>
                && r.value.withdrawId == withdrawId && r.value.owner == Trim(intent.owner)
                && r.value.denom == Trim(intent.denom) && r.value.destination == Trim(intent.destination)
                && Value(r.value.amount) == Value(intent.amount)
    {
      hide Trim, ParseNonNegative, Decimal, AccountAt;
      var owner, denom, destination := Trim(intent.owner), Trim(intent.denom), Trim(intent.destination);
      if owner == "" || denom == "" || destination == "" || ParsePositive(intent.amount).Failure? {
        return Failure(InvalidWithdrawIntent);
      }
      var amount := Value(intent.amount);
      var acc := ls.accounts.GetOrZero(owner, denom);
      if acc.balance < amount {
        return Failure(InsufficientBalance);
      }
      var nonce := Decimal(acc.nonce + 1);
      return Success(WithdrawRequest(withdrawId, owner, denom, Decimal(amount), destination, nonce, ""));
    }

    method ApplyDeposit(d: DepositRecord) returns (r: Result<string>)
      requires Valid()
      modifies ls.Repr, `gen
      ensures Valid() && ls == old(ls)
      ensures Outcome(old(Model()), DepositOp(d), r, Model())
      ensures gen == if r.Success? then old(gen) + 1 else old(gen)
    {
      hide Outcome;
      r := ls.ApplyDeposit(d);
      if r.Success? {
        gen := gen + 1;
      }
    }

    method ApplyWithdrawRequest(w: WithdrawRequest, nullifier: string) returns (r: Result<string>)
      requires Valid()
      modifies ls.Repr, `gen
      ensures Valid() && ls == old(ls)
      ensures Outcome(old(Model()), WithdrawOp(w, nullifier), r, Model())
      ensures gen == if r.Success? then old(gen) + 1 else old(gen)
    {
      hide Outcome;
      r := ls.ApplyWithdrawal(w, nullifier);
      if r.Success? {
        gen := gen + 1;
      }
    }

    /** A deep copy: nothing the snapshot points to existed before. */
    method Snapshot() returns (snap: Snapshot)
      requires Valid()
      ensures snap.Valid() && fresh(snap.Footprint())
      ensures snap.Model() == Model() && snap.gen == gen
    {
      var accounts := CopyAccounts(ls.accounts);
      var deposits := CopyIds(ls.appliedDeposits);
      var nullifiers := CopyIds(ls.appliedNullifiers);
      snap := Snap(ls.root, accounts, deposits, nullifiers, gen);
    }

    /** The manager takes over copies; the snapshot stays its own and may be used again. */
    method Rollback(snap: Snapshot)
      requires Valid() && snap.Valid()
      modifies this
      ensures Valid() && fresh(ls.Repr)
      ensures Model() == snap.Model() && gen == old(gen) + 1
    {
      var accounts := CopyAccounts(snap.accounts);
      var deposits := CopyIds(snap.appliedDeposits);
      var nullifiers := CopyIds(snap.appliedNullifiers);
      ls := new LocalState.Adopt(accounts, deposits, nullifiers, snap.root);
      gen := gen + 1;
    }

    /** Any list of calls, as the request handlers and the indexer issue them. */
    method ApplyAll(ops: seq<Operation>)
      requires Valid()
      modifies ls.Repr, `gen
      ensures Valid() && ls == old(ls)
      ensures Model() == Run(old(Model()), ops)
      ensures old(gen) <= gen
    {
      hide Run, Apply;
      assert ops[..0] == [];
      RunNothing(Model());
      for i := 0 to |ops|
        invariant Valid() && ls == old(ls)
        invariant Model() == Run(old(Model()), ops[..i])
        invariant old(gen) <= gen
      {
        ghost var before := Model();
        var r;
        match ops[i] {
          case DepositOp(d) => r := ApplyDeposit(d);
          case WithdrawOp(w, nullifier) => r := ApplyWithdrawRequest(w, nullifier);
        }
        assert Model() == Step(before, ops[i]);
        assert ops[..i + 1] == ops[..i] + [ops[i]];
        RunOne(old(Model()), ops[..i], ops[i]);
      }
      assert ops[..|ops|] == ops;
    }
  }

  /**
   * Whatever happened since a snapshot was taken, rolling back restores the ledger exactly, the
   * calls that follow behave as if issued at the snapshot, and the snapshot can be restored again.
   */
  method RollbackErasesHistory(m: OffchainStateManager, lost: seq<Operation>, kept: seq<Operation>)
    requires m.Valid()
    modifies m.Repr()
    ensures m.Valid() && m.gen > old(m.gen)
    ensures m.Model() == Run(old(m.Model()), kept)
  {
    var snap := m.Snapshot();
    m.ApplyAll(lost);
    m.Rollback(snap);
    m.ApplyAll(lost);
    m.Rollback(snap);
    m.ApplyAll(kept);
  }
}
