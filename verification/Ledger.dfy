/**
 * The off-chain ledger on values: what one deposit or one withdrawal does to the accounts, the
 * applied ids, the consumed nullifiers and the root. The heap objects that hold this state are
 * in module LocalStates.
 */
module Ledgers {
  import opened Wrappers
  import opened Text
  import opened Decimals
  import opened Types
  import opened StateRoot

  /** newAccountKey. */
  function MakeKey(owner: string, denom: string): (r: Result<Key>)
    ensures r.Success? ==> r.value.Valid()
  {
    if Blank(owner) then Failure(InvalidOwner)
    else if Blank(denom) then Failure(InvalidDenom)
    else Success(Key(Trim(owner), Trim(denom)))
  }

  /** GetOrZero. */
  function AccountAt(m: Accounts, owner: string, denom: string): Account {
    var k := MakeKey(owner, denom);
    if k.Success? && k.value in m then m[k.value] else Account(owner, denom, 0, 0)
  }

  function Balance(m: Accounts, k: Key): nat { if k in m then m[k].balance else 0 }

  function Nonce(m: Accounts, k: Key): nat { if k in m then m[k].nonce else 0 }

  /** The table `m` with account `k` holding this balance and nonce. */
  function Put(m: Accounts, k: Key, balance: nat, nonce: nat): Accounts
    requires k.Valid()
  {
    m[k := Account(k.owner, k.denom, balance, nonce)]
  }

  datatype Ledger = Ledger(accounts: Accounts, deposits: set<string>, nullifiers: set<string>, root: string)

  function Genesis(root: string): Ledger { Ledger(map[], {}, {}, root) }

  // ------------------------------------------------------ the operations of the source

  datatype Operation =
    | DepositOp(record: DepositRecord)
    | WithdrawOp(request: WithdrawRequest, nullifier: string)

  /** LocalState.ApplyDeposit. */
  ghost function ApplyDeposit(l: Ledger, d: DepositRecord): Result<Ledger> {
    if d.depositId == "" || d.owner == "" || d.denom == "" || ParsePositive(d.amount).Failure? then
      Failure(InvalidDepositRecord)
    else if d.depositId in l.deposits then
      Failure(DepositAlreadyApplied)
    else
      var k :- MakeKey(d.owner, d.denom);
      var m := Put(l.accounts, k, Balance(l.accounts, k) + Value(d.amount), Nonce(l.accounts, k));
      Success(Ledger(m, l.deposits + {d.depositId}, l.nullifiers, RootOf(m)))
  }

  predicate ValidWithdrawRequest(w: WithdrawRequest) {
    && !Blank(w.withdrawId) && !Blank(w.owner) && !Blank(w.denom) && !Blank(w.destination)
    && ParsePositive(w.amount).Success? && ParseNonNegative(w.nonce).Success?
  }

  /** LocalState.ApplyWithdrawal. */
  ghost function ApplyWithdrawal(l: Ledger, w: WithdrawRequest, nullifier: string): Result<Ledger> {
    if !ValidWithdrawRequest(w) || Blank(nullifier) then
      Failure(InvalidWithdrawRequest)
    else if Trim(nullifier) in l.nullifiers then
      Failure(WithdrawAlreadyApplied)
    else
      var amount := Value(w.amount);
      var acc := AccountAt(l.accounts, Trim(w.owner), Trim(w.denom));
      if acc.balance < amount then Failure(InsufficientBalance)
      else if Value(w.nonce) != acc.nonce + 1 then Failure(NonceMismatch)
      else
        var k :- MakeKey(w.owner, w.denom);
        var m := Put(l.accounts, k, acc.balance - amount, acc.nonce + 1);
        Success(Ledger(m, l.deposits, l.nullifiers + {Trim(nullifier)}, RootOf(m)))
  }

  ghost function Apply(l: Ledger, op: Operation): Result<Ledger> {
    match op
    case DepositOp(d) => ApplyDeposit(l, d)
    case WithdrawOp(w, nullifier) => ApplyWithdrawal(l, w, nullifier)
  }

  // ------------------------------------------------- moves: operations with their text read

  /** An operation whose fields passed validation, with keys trimmed and amounts parsed. */
  datatype RawMove =
    | Credit(id: string, key: Key, amount: nat)
    | Debit(key: Key, amount: nat, nonce: nat, nullifier: string)

  type Move = mv: RawMove | mv.key.Valid() && mv.amount > 0 witness Credit("", Key("a", "b"), 1)

  /** None exactly when the operation is rejected whatever the ledger holds. */
  function MoveOf(op: Operation): Option<Move> {
    match op
    case DepositOp(d) =>
      if d.depositId == "" || Blank(d.owner) || Blank(d.denom) || ParsePositive(d.amount).Failure? then None
      else Some(Credit(d.depositId, Key(Trim(d.owner), Trim(d.denom)), Value(d.amount)))
    case WithdrawOp(w, nullifier) =>
      if !ValidWithdrawRequest(w) || Blank(nullifier) then None
      else Some(Debit(Key(Trim(w.owner), Trim(w.denom)), Value(w.amount), Value(w.nonce), Trim(nullifier)))
  }

  predicate Enabled(l: Ledger, mv: Move) {
    match mv
    case Credit(id, _, _) => id !in l.deposits
    case Debit(k, amount, nonce, nullifier) =>
      nullifier !in l.nullifiers && amount <= Balance(l.accounts, k) && nonce == Nonce(l.accounts, k) + 1
  }

  /** The accounts after an enabled move: one account changes. */
  function Moved(m: Accounts, mv: Move): Accounts
    requires mv.Debit? ==> mv.amount <= Balance(m, mv.key)
  {
    match mv
    case Credit(_, k, amount) => Put(m, k, Balance(m, k) + amount, Nonce(m, k))
    case Debit(k, amount, nonce, _) => Put(m, k, Balance(m, k) - amount, nonce)
  }

  ghost function After(l: Ledger, mv: Move): Ledger
    requires Enabled(l, mv)
  {
    var m := Moved(l.accounts, mv);
    Ledger(m,
           if mv.Credit? then l.deposits + {mv.id} else l.deposits,
           if mv.Debit? then l.nullifiers + {mv.nullifier} else l.nullifiers,
           RootOf(m))
  }

  /**
   * An operation succeeds exactly when it reads as a move that is enabled, and its effect is the
   * effect of that move.
   */
  lemma ApplyExactly(l: Ledger, op: Operation)
    ensures Apply(l, op).Success? <==> MoveOf(op).Some? && Enabled(l, MoveOf(op).value)
    ensures Apply(l, op).Success? ==> Apply(l, op).value == After(l, MoveOf(op).value)
  {
    hide Trim, Trimmed, ParseNonNegative, RootOf;
  }

  // ------------------------------------------------------------ the outcomes, case by case

  lemma PutReads(m: Accounts, k: Key, balance: nat, nonce: nat, j: Key)
    requires k.Valid()
    ensures Balance(Put(m, k, balance, nonce), j) == if j == k then balance else Balance(m, j)
    ensures Nonce(Put(m, k, balance, nonce), j) == if j == k then nonce else Nonce(m, j)
    ensures j in Put(m, k, balance, nonce) <==> j in m || j == k
  {
  }

  /** Which deposits are refused, and why. */
  lemma DepositRefused(l: Ledger, d: DepositRecord)
    ensures var invalid := d.depositId == "" || d.owner == "" || d.denom == "" || ParsePositive(d.amount).Failure?;
            var r := Apply(l, DepositOp(d));
            && (r == Failure(InvalidDepositRecord) <==> invalid)
            && (r == Failure(DepositAlreadyApplied) <==> !invalid && d.depositId in l.deposits)
            && (r == Failure(InvalidOwner) <==> !invalid && d.depositId !in l.deposits && Blank(d.owner))
            && (r == Failure(InvalidDenom) <==>
                !invalid && d.depositId !in l.deposits && !Blank(d.owner) && Blank(d.denom))
            && (r.Success? <==>
                !invalid && d.depositId !in l.deposits && !Blank(d.owner) && !Blank(d.denom))
  {
    hide Trim, ParsePositive, Value, RootOf, Put, Balance, Nonce;
  }

  /** An accepted deposit, seen account by account. */
  lemma DepositCredits(l: Ledger, d: DepositRecord, j: Key)
    requires Apply(l, DepositOp(d)).Success?
    ensures var l' := Apply(l, DepositOp(d)).value;
            var mine := j.owner == Trim(d.owner) && j.denom == Trim(d.denom);
            && Balance(l'.accounts, j) == Balance(l.accounts, j) + (if mine then Value(d.amount) else 0)
            && Nonce(l'.accounts, j) == Nonce(l.accounts, j) && (j in l'.accounts <==> j in l.accounts || mine)
            && l'.deposits == l.deposits + {d.depositId} && l'.nullifiers == l.nullifiers
            && l'.root == RootOf(l'.accounts) && Value(d.amount) > 0
  {
    hide Trim, ParseNonNegative, RootOf, Put, Balance, Nonce;
    var k := Key(Trim(d.owner), Trim(d.denom));
    PutReads(l.accounts, k, Balance(l.accounts, k) + Value(d.amount), Nonce(l.accounts, k), j);
  }

  lemma TrimmedKey(m: Accounts, w: WithdrawRequest)
    requires !Blank(w.owner) && !Blank(w.denom)
    ensures MakeKey(w.owner, w.denom) == Success(Key(Trim(w.owner), Trim(w.denom)))
    ensures var acc, k := AccountAt(m, Trim(w.owner), Trim(w.denom)), Key(Trim(w.owner), Trim(w.denom));
            acc.balance == Balance(m, k) && acc.nonce == Nonce(m, k)
  {
    TrimIdempotent(w.owner);
    TrimIdempotent(w.denom);
    hide Trim;
  }

  /** Which withdrawals are refused, and why, in the source's order of checks. */
  lemma WithdrawalRefused(l: Ledger, w: WithdrawRequest, nullifier: string)
    ensures var r, k := Apply(l, WithdrawOp(w, nullifier)), Key(Trim(w.owner), Trim(w.denom));
            var invalid := Blank(w.withdrawId) || Blank(w.owner) || Blank(w.denom) || Blank(w.destination) ||
                           ParsePositive(w.amount).Failure? || ParseNonNegative(w.nonce).Failure? || Blank(nullifier);
            var spent, short := Trim(nullifier) in l.nullifiers, Balance(l.accounts, k) < Value(w.amount);
            var next := Value(w.nonce) == Nonce(l.accounts, k) + 1;
            && (r == Failure(InvalidWithdrawRequest) <==> invalid)
            && (r == Failure(WithdrawAlreadyApplied) <==> !invalid && spent)
            && (r == Failure(InsufficientBalance) <==> !invalid && !spent && short)
            && (r == Failure(NonceMismatch) <==> !invalid && !spent && !short && !next)
            && (r.Success? <==> !invalid && !spent && !short && next)
  {
    hide Trim, ParsePositive, ParseNonNegative, Value, RootOf, Put, Balance, Nonce, AccountAt, MakeKey;
    if !Blank(w.owner) && !Blank(w.denom) { TrimmedKey(l.accounts, w); }
  }

  /** An accepted withdrawal, seen account by account. */
  lemma WithdrawalDebits(l: Ledger, w: WithdrawRequest, nullifier: string, j: Key)
    requires Apply(l, WithdrawOp(w, nullifier)).Success?
    ensures var l' := Apply(l, WithdrawOp(w, nullifier)).value;
            var mine := j.owner == Trim(w.owner) && j.denom == Trim(w.denom);
            && Balance(l'.accounts, j) + (if mine then Value(w.amount) else 0) == Balance(l.accounts, j)
            && Nonce(l'.accounts, j) == Nonce(l.accounts, j) + (if mine then 1 else 0)
            && (j in l'.accounts <==> j in l.accounts || mine)
            && l'.deposits == l.deposits && l'.nullifiers == l.nullifiers + {Trim(nullifier)}
            && l'.root == RootOf(l'.accounts) && Value(w.amount) > 0
  {
    hide Trim, ParseNonNegative, RootOf, Put, Balance, Nonce, AccountAt, MakeKey;
    TrimmedKey(l.accounts, w);
    var k := Key(Trim(w.owner), Trim(w.denom));
    PutReads(l.accounts, k, Balance(l.accounts, k) - Value(w.amount), Nonce(l.accounts, k) + 1, j);
  }
}
