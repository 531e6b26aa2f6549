/** The heap objects behind the ledger: account table, id sets, local state, request builder. */
module LocalStates {
  import opened Wrappers
  import opened Text
  import opened Decimals
  import opened Types
  import opened StateRoot
  import opened Ledgers

  /** A Go map[string]struct{}: a shared, mutable set of ids. */
  class IdSet {
    var ids: set<string>

    constructor ()
      ensures ids == {}
    {
      ids := {};
    }
  }

  class AccountState {
    var accounts: Accounts

    constructor ()
      ensures accounts == map[]
    {
      accounts := map[];
    }

    method GetOrZero(owner: string, denom: string) returns (a: Account)
      ensures a == AccountAt(accounts, owner, denom)
    {
      var k := MakeKey(owner, denom);
      if k.Success? && k.value in accounts {
        return accounts[k.value];
      }
      return Account(owner, denom, 0, 0);
    }

    method Credit(owner: string, denom: string, amount: string) returns (r: Result<Account>)
      modifies this
      ensures r.Success? <==> MakeKey(owner, denom).Success? && ParsePositive(amount).Success?
      ensures r.Failure? ==> accounts == old(accounts)
      ensures MakeKey(owner, denom).Failure? ==> r == Failure(MakeKey(owner, denom).error)
      ensures r.Success? ==>
                var k := MakeKey(owner, denom).value;
                && accounts == Put(old(accounts), k, Balance(old(accounts), k) + Value(amount), Nonce(old(accounts), k))
                && r.value == accounts[k]
    {
      hide Trim, ParseNonNegative;
      var k :- MakeKey(owner, denom);
      var delta :- ParsePositive(amount);
      var acc := if k in accounts then accounts[k] else Account(k.owner, k.denom, 0, 0);
      acc := acc.(balance := acc.balance + delta);
      accounts := accounts[k := acc];
      return Success(acc);
    }

    method Debit(owner: string, denom: string, amount: string) returns (r: Result<Account>)
      modifies this
      ensures r.Success? <==>
                && MakeKey(owner, denom).Success? && ParsePositive(amount).Success?
                && Value(amount) <= Balance(old(accounts), MakeKey(owner, denom).value)
      ensures r.Failure? ==> accounts == old(accounts)
      ensures r.Success? ==>
                var k := MakeKey(owner, denom).value;
                && accounts ==
                  Put(old(accounts), k, Balance(old(accounts), k) - Value(amount), Nonce(old(accounts), k) + 1)
                && r.value == accounts[k]
    {
      hide Trim, ParseNonNegative;
      var k :- MakeKey(owner, denom);
      var delta :- ParsePositive(amount);
      var acc := if k in accounts then accounts[k] else Account(k.owner, k.denom, 0, 0);
      if acc.balance < delta {
        return Failure(InsufficientBalance);
      }
      acc := acc.(balance := acc.balance - delta, nonce := acc.nonce + 1);
      accounts := accounts[k := acc];
      return Success(acc);
    }

    /** The accounts in key order, whatever order the table is traversed in. */
    method Snapshot() returns (out: seq<Account>)
      ensures out == Listing(accounts)
    {
      out := [];
      var rest := accounts.Keys;
      assert accounts - rest == map[];
      while rest != {}
        invariant rest <= accounts.Keys
        invariant Lists(out, accounts - rest)
        decreases |rest|
      {
        var k :| k in rest;
        OneMoreListed(out, accounts, rest, k);
        out := Inserted(out, accounts[k]);
        rest := rest - {k};
      }
      assert accounts - rest == accounts;
      ListingUnique(out, Listing(accounts), accounts);
    }

    /** ComputeRoot(s.accounts.Snapshot()). */
    method Root() returns (root: string)
      ensures root == RootOf(accounts) && root != ""
    {
      var listed := Snapshot();
      root := ComputeRoot(listed);
    }
  }

  lemma OneMoreListed(out: seq<Account>, m: Accounts, rest: set<Key>, k: Key)
    requires k in rest && rest <= m.Keys && Lists(out, m - rest)
    ensures Lists(Inserted(out, m[k]), m - (rest - {k}))
  {
    var next: Accounts := m - (rest - {k});
    assert next - {k} == m - rest;
    InsertedLists(out, next, k);
  }

  method CopyIds(source: IdSet) returns (copy: IdSet)
    ensures fresh(copy) && copy.ids == source.ids
  {
    copy := new IdSet();
    var rest := source.ids;
    while rest != {}
      invariant rest <= source.ids && copy.ids == source.ids - rest
      decreases |rest|
    {
      var id :| id in rest;
      copy.ids := copy.ids + {id};
      rest := rest - {id};
    }
  }

  method CopyAccounts(source: AccountState) returns (copy: AccountState)
    ensures fresh(copy) && copy.accounts == source.accounts
  {
    hide *;
    var table: map<Key, Account> := map[];
    var rest := source.accounts.Keys;
    while rest != {}
      invariant rest <= source.accounts.Keys
      invariant table == source.accounts - rest
      decreases |rest|
    {
      var k :| k in rest;
      table := table[k := source.accounts[k]];
      rest := rest - {k};
    }
    assert table == source.accounts;
    copy := new AccountState();
    copy.accounts := table;
  }

  /** A call that applies `op` reports the new root and moves to it, or reports why and moves nothing. */
  ghost predicate Outcome(before: Ledger, op: Operation, r: Result<string>, after: Ledger) {
    match Apply(before, op)
    case Success(l) => r == Success(l.root) && after == l
    case Failure(e) => r == Failure(e) && after == before
  }

  class LocalState {
    const accounts: AccountState
    const appliedDeposits: IdSet
    const appliedNullifiers: IdSet
    var root: string

    ghost const Repr: set<object> := {this, accounts, appliedDeposits, appliedNullifiers}

    ghost predicate Valid()
      reads this
    {
      appliedDeposits != appliedNullifiers && root != ""
    }

    ghost function Model(): Ledger
      reads Repr
    {
      Ledger(accounts.accounts, appliedDeposits.ids, appliedNullifiers.ids, root)
    }

    /** NewLocalStateWithGenesisRoot; an empty genesis root means the computed one. */
    constructor (genesisRoot: string)
      ensures Valid() && fresh(Repr)
      ensures Model() == Genesis(if genesisRoot == "" then RootOf(map[]) else genesisRoot)
    {
      accounts := new AccountState();
      appliedDeposits := new IdSet();
      appliedNullifiers := new IdSet();
      new;
      hide RootOf;
      root := accounts.Root();
      if genesisRoot != "" {
        root := genesisRoot;
      }
    }

    /** newLocalStateFromSnapshotData, given already copied tables. */
    constructor Adopt(accounts: AccountState, appliedDeposits: IdSet, appliedNullifiers: IdSet, root: string)
      requires appliedDeposits != appliedNullifiers
      ensures Valid() && fresh(this)
      ensures this.accounts == accounts
      ensures this.appliedDeposits == appliedDeposits && this.appliedNullifiers == appliedNullifiers
      ensures Model() == Ledger(accounts.accounts, appliedDeposits.ids, appliedNullifiers.ids,
                                if root == "" then RootOf(accounts.accounts) else root)
    {
      this.accounts := accounts;
      this.appliedDeposits := appliedDeposits;
      this.appliedNullifiers := appliedNullifiers;
      new;
      hide RootOf;
      if root == "" {
        this.root := accounts.Root();
      } else {
        this.root := root;
      }
    }

    method ApplyDeposit(d: DepositRecord) returns (r: Result<string>)
      requires Valid()
      modifies Repr
      ensures Valid() && Outcome(old(Model()), DepositOp(d), r, Model())
    {
      hide Trim, Trimmed, ParseNonNegative, RootOf;
      if d.depositId == "" || d.owner == "" || d.denom == "" || ParsePositive(d.amount).Failure? {
        return Failure(InvalidDepositRecord);
      }
      if d.depositId in appliedDeposits.ids {
        return Failure(DepositAlreadyApplied);
      }
      var credited := accounts.Credit(d.owner, d.denom, d.amount);
      if credited.Failure? {
        return Failure(credited.error);
      }
      appliedDeposits.ids := appliedDeposits.ids + {d.depositId};
      root := accounts.Root();
      return Success(root);
    }

    method ApplyWithdrawal(w: WithdrawRequest, nullifier: string) returns (r: Result<string>)
      requires Valid()
      modifies Repr
      ensures Valid() && Outcome(old(Model()), WithdrawOp(w, nullifier), r, Model())
    {
      hide Trim, Trimmed, ParseNonNegative, RootOf;
      if !ValidWithdrawRequest(w) || Blank(nullifier) {
        return Failure(InvalidWithdrawRequest);
      }
      var key := Trim(nullifier);
      var owner, denom := Trim(w.owner), Trim(w.denom);
      if key in appliedNullifiers.ids {
        return Failure(WithdrawAlreadyApplied);
      }
      var acc := accounts.GetOrZero(owner, denom);
      if acc.balance < Value(w.amount) {
        return Failure(InsufficientBalance);
      }
      if Value(w.nonce) != acc.nonce + 1 {
        return Failure(NonceMismatch);
      }
      var debited := accounts.Debit(owner, denom, w.amount);
      assert debited.Success?; // the checks above leave Debit nothing to refuse
      appliedNullifiers.ids := appliedNullifiers.ids + {key};
      root := accounts.Root();
      return Success(root);
    }
  }
}
