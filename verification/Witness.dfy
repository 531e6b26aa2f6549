/** The private witness of a batch: one account per owner, checked against the settlement. */
module Witnesses {
  import opened Wrappers
  import opened Text
  import opened Decimals
  import opened Hashing
  import opened Types
  import opened SettlementBuilders

  datatype AccountWitnessSecret = AccountWitnessSecret(
    owner: string, userSecret: string, oldBalance: string, newBalance: string)

  datatype WitnessAccount = WitnessAccount(
    owner: string, userSecret: string, nonce: string, oldBalance: string, newBalance: string)

  datatype Witness = Witness(accounts: seq<WitnessAccount>, statePath: seq<string>)

  /** The amounts of the deposits recorded under exactly this owner text. */
  function DepositSum(ds: seq<DepositRecord>, owner: string): nat {
    if ds == [] then 0 else
      var d := ds[|ds| - 1];
      DepositSum(ds[..|ds| - 1], owner) + if d.owner == owner then Value(d.amount) else 0
  }

  function WithdrawalSum(ws: seq<WithdrawalInput>, owner: string): nat {
    if ws == [] then 0 else
      var w := ws[|ws| - 1];
      WithdrawalSum(ws[..|ws| - 1], owner) + if w.request.owner == owner then Value(w.request.amount) else 0
  }

  /** The nonce of the owner's last withdrawal, "" without one. */
  function LastNonce(ws: seq<WithdrawalInput>, owner: string): string {
    if ws == [] then "" else
      var w := ws[|ws| - 1];
      if w.request.owner == owner then w.request.nonce else LastNonce(ws[..|ws| - 1], owner)
  }

  predicate DepositsParse(ds: seq<DepositRecord>, owner: string) {
    forall d <- ds :: d.owner == owner ==> ParsePositive(d.amount).Success?
  }

  predicate WithdrawalsParse(ws: seq<WithdrawalInput>, owner: string) {
    forall w <- ws :: w.request.owner == owner ==> ParsePositive(w.request.amount).Success?
  }

  /** ZK-05: every withdrawal of the owner carries the nullifier of this secret and its own nonce. */
  predicate NullifiersDerive(ws: seq<WithdrawalInput>, owner: string, secret: string) {
    forall w <- ws :: w.request.owner == owner ==> NullifierFor(secret, w.request.nonce) == Success(w.nullifier)
  }

  /** ZK-04: the claimed balances differ by the owner's deposits and withdrawals. */
  predicate BalancesAgree(input: SettlementInputs, owner: string, oldBalance: nat, newBalance: nat) {
    newBalance + WithdrawalSum(input.withdrawals, owner) == oldBalance + DepositSum(input.deposits, owner)
  }

  predicate AccountFits(input: SettlementInputs, a: AccountWitnessSecret) {
    var owner := Trim(a.owner);
    && !Blank(a.owner) && !Blank(a.userSecret)
    && ParseNonNegative(a.oldBalance).Success? && ParseNonNegative(a.newBalance).Success?
    && DepositsParse(input.deposits, owner) && WithdrawalsParse(input.withdrawals, owner)
    && DepositSum(input.deposits, owner) + WithdrawalSum(input.withdrawals, owner) > 0
    && BalancesAgree(input, owner, Value(a.oldBalance), Value(a.newBalance))
    && NullifiersDerive(input.withdrawals, owner, Trim(a.userSecret))
  }

  predicate WitnessAcceptable(input: SettlementInputs, accounts: seq<AccountWitnessSecret>) {
    accounts != [] && forall a <- accounts :: AccountFits(input, a)
  }

  function WitnessAccountFor(input: SettlementInputs, a: AccountWitnessSecret): WitnessAccount {
    var last := LastNonce(input.withdrawals, Trim(a.owner));
    WitnessAccount(Trim(a.owner), Trim(a.userSecret), if last == "" then "0" else Decimal(Value(last)),
                   Decimal(Value(a.oldBalance)), Decimal(Value(a.newBalance)))
  }

  /** The witness without a state path, as every builder of the model asks for it. */
  function WitnessFor(input: SettlementInputs, accounts: seq<AccountWitnessSecret>): Witness {
    Witness(seq(|accounts|, i requires 0 <= i < |accounts| => WitnessAccountFor(input, accounts[i])), [])
  }

  /** The nonce of the last withdrawal under this owner, "" when there is none. */
  lemma LastNonceIsLast(ws: seq<WithdrawalInput>, owner: string)
    ensures (forall k :: 0 <= k < |ws| ==> ws[k].request.owner != owner) ==> LastNonce(ws, owner) == ""
    ensures forall k :: LastOf(ws, owner, k) ==> LastNonce(ws, owner) == ws[k].request.nonce
  {
    hide LastNonce;
    if forall k :: 0 <= k < |ws| ==> ws[k].request.owner != owner { NoLastNonce(ws, owner); }
    forall k | LastOf(ws, owner, k) ensures LastNonce(ws, owner) == ws[k].request.nonce {
      LastNonceAt(ws, owner, k);
    }
  }

  lemma {:induction false} NoLastNonce(ws: seq<WithdrawalInput>, owner: string)
    requires forall k :: 0 <= k < |ws| ==> ws[k].request.owner != owner
    ensures LastNonce(ws, owner) == ""
  {
    if ws != [] { NoLastNonce(ws[..|ws| - 1], owner); }
  }

  lemma {:induction false} LastNonceAt(ws: seq<WithdrawalInput>, owner: string, k: int)
    requires LastOf(ws, owner, k)
    ensures LastNonce(ws, owner) == ws[k].request.nonce
  {
    if k < |ws| - 1 { LastNonceAt(ws[..|ws| - 1], owner, k); }
  }

  /** Withdrawal `k` is recorded under the owner, and no later one is. */
  predicate LastOf(ws: seq<WithdrawalInput>, owner: string, k: int) {
    0 <= k < |ws| && ws[k].request.owner == owner && forall j :: k < j < |ws| ==> ws[j].request.owner != owner
  }

  lemma {:induction false} SomeLast(ws: seq<WithdrawalInput>, owner: string) returns (k: nat)
    requires exists j :: 0 <= j < |ws| && ws[j].request.owner == owner
    ensures LastOf(ws, owner, k)
  {
    if ws[|ws| - 1].request.owner == owner {
      k := |ws| - 1;
    } else {
      var j :| 0 <= j < |ws| && ws[j].request.owner == owner;
      assert ws[..|ws| - 1][j] == ws[j];
      k := SomeLast(ws[..|ws| - 1], owner);
    }
  }

  /** What an accepted account becomes: the nonce after the owner's last withdrawal, "0" without one. */
  ghost predicate Attests(w: WitnessAccount, input: SettlementInputs, a: AccountWitnessSecret) {
    && w.owner == Trim(a.owner) && w.userSecret == Trim(a.userSecret)
    && Value(w.oldBalance) == Value(a.oldBalance) && Value(w.newBalance) == Value(a.newBalance)
    && w.oldBalance == Decimal(Value(w.oldBalance)) && w.newBalance == Decimal(Value(w.newBalance))
    && ((forall k :: 0 <= k < |input.withdrawals| ==> input.withdrawals[k].request.owner != Trim(a.owner)) ==>
         w.nonce == "0")
    && (forall k :: LastOf(input.withdrawals, Trim(a.owner), k) ==>
          w.nonce == Decimal(Value(input.withdrawals[k].request.nonce)))
  }

  lemma AccountWitnesses(input: SettlementInputs, a: AccountWitnessSecret)
    requires AccountFits(input, a)
    ensures Attests(WitnessAccountFor(input, a), input, a)
  {
    LastNonceIsLast(input.withdrawals, Trim(a.owner));
    EmptyFails();
    hide Trim, ParseNonNegative, Decimal, DepositSum, WithdrawalSum,
         LastNonce, DepositsParse, WithdrawalsParse, BalancesAgree;
    forall k | LastOf(input.withdrawals, Trim(a.owner), k) ensures input.withdrawals[k].request.nonce != "" {
      assert input.withdrawals[k] in input.withdrawals;
    }
  }

  lemma EmptyFails()
    ensures ParseNonNegative("").Failure?
  {
  }

  /** What the builder accepts, check by check. */
  lemma WitnessedExactly(input: SettlementInputs, accounts: seq<AccountWitnessSecret>)
    ensures WitnessAcceptable(input, accounts) <==>
            && accounts != []
            && forall i :: 0 <= i < |accounts| ==>
                 var (a, owner) := (accounts[i], Trim(accounts[i].owner));
                 && owner != "" && Trim(a.userSecret) != ""
                 && ParseNonNegative(a.oldBalance).Success? && ParseNonNegative(a.newBalance).Success?
                 && (forall d <- input.deposits :: d.owner == owner ==> ParsePositive(d.amount).Success?)
                 && (forall w <- input.withdrawals :: w.request.owner == owner ==>
                    ParsePositive(w.request.amount).Success?)
                 && DepositSum(input.deposits, owner) + WithdrawalSum(input.withdrawals, owner) > 0
                 && Value(a.newBalance) + WithdrawalSum(input.withdrawals, owner) ==
                    Value(a.oldBalance) + DepositSum(input.deposits, owner)
                 && (forall w <- input.withdrawals :: w.request.owner == owner ==>
                       NullifierFor(Trim(a.userSecret), w.request.nonce) == Success(w.nullifier))
  {
    hide Trim, ParseNonNegative, Decimal, DepositSum, WithdrawalSum, Value, NullifierFor;
    assert forall i :: 0 <= i < |accounts| ==> accounts[i] in accounts;
  }

  class WitnessBuilder {
    constructor () {}

    method SumDeposits(ds: seq<DepositRecord>, owner: string) returns (r: Result<nat>)
      ensures r.Success? <==> DepositsParse(ds, owner)
      ensures r.Success? ==> r.value == DepositSum(ds, owner)
    {
      hide ParseNonNegative;
      var sum := 0;
      for i := 0 to |ds|
        invariant DepositsParse(ds[..i], owner)
        invariant sum == DepositSum(ds[..i], owner)
      {
        assert ds[..i + 1] == ds[..i] + [ds[i]];
        if ds[i].owner == owner {
          if ParsePositive(ds[i].amount).Failure? {
            return Failure(InvalidWitnessInputs);
          }
          sum := sum + Value(ds[i].amount);
        }
      }
      assert ds[..|ds|] == ds;
      return Success(sum);
    }

    method SumWithdrawals(ws: seq<WithdrawalInput>, owner: string)
      returns (r: Result<nat>, lastNonce: string, own: seq<WithdrawalInput>)
      ensures r.Success? <==> WithdrawalsParse(ws, owner)
      ensures r.Success? ==> r.value == WithdrawalSum(ws, owner) && lastNonce == LastNonce(ws, owner)
      ensures r.Success? ==> forall w :: w in own <==> w in ws && w.request.owner == owner
    {
      hide ParseNonNegative;
      var sum := 0;
      lastNonce, own := "", [];
      for i := 0 to |ws|
        invariant WithdrawalsParse(ws[..i], owner)
        invariant sum == WithdrawalSum(ws[..i], owner) && lastNonce == LastNonce(ws[..i], owner)
        invariant forall w :: w in own <==> w in ws[..i] && w.request.owner == owner
      {
        assert ws[..i + 1] == ws[..i] + [ws[i]];
        if ws[i].request.owner == owner {
          if ParsePositive(ws[i].request.amount).Failure? {
            r := Failure(InvalidWitnessInputs);
            return;
          }
          sum := sum + Value(ws[i].request.amount);
          lastNonce := ws[i].request.nonce;
          own := own + [ws[i]];
        }
      }
      assert ws[..|ws|] == ws;
      r := Success(sum);
    }

    /** Re-derives the nullifier of each withdrawal; true when all match. */
    method Rederive(own: seq<WithdrawalInput>, secret: string) returns (ok: bool)
      ensures ok <==> forall w <- own :: NullifierFor(secret, w.request.nonce) == Success(w.nullifier)
    {
      hide Trim, ParseNonNegative, Decimal, NullifierPreimage;
      for i := 0 to |own|
        invariant forall j :: 0 <= j < i ==> NullifierFor(secret, own[j].request.nonce) == Success(own[j].nullifier)
      {
        var nonce := ParseNonNegative(own[i].request.nonce);
        if nonce.Failure? {
          return false;
        }
        if NullifierFor(secret, Decimal(nonce.value)) != Success(own[i].nullifier) {
          return false;
        }
      }
      return true;
    }

    method BuildAccount(input: SettlementInputs, a: AccountWitnessSecret) returns (r: Result<WitnessAccount>)
      ensures r.Success? <==> AccountFits(input, a)
      ensures r.Success? ==> r.value == WitnessAccountFor(input, a)
      ensures r.Failure? ==> r == Failure(InvalidWitnessInputs)
    {
      hide Trim, ParseNonNegative, Decimal, DepositSum, WithdrawalSum, LastNonce, DepositsParse, WithdrawalsParse,
           NullifierFor;
      var owner, secret := Trim(a.owner), Trim(a.userSecret);
      if owner == "" || secret == "" || ParseNonNegative(a.oldBalance).Failure? ||
        ParseNonNegative(a.newBalance).Failure? {
        return Failure(InvalidWitnessInputs);
      }
      var oldBalance, newBalance := Value(a.oldBalance), Value(a.newBalance);
      var deposited := SumDeposits(input.deposits, owner);
      if deposited.Failure? {
        return Failure(InvalidWitnessInputs);
      }
      var withdrawn, lastNonce, own := SumWithdrawals(input.withdrawals, owner);
      if withdrawn.Failure? {
        return Failure(InvalidWitnessInputs);
      }
      if deposited.value == 0 && withdrawn.value == 0 {
        return Failure(InvalidWitnessInputs);
      }
      if newBalance + withdrawn.value != oldBalance + deposited.value {
        return Failure(InvalidWitnessInputs);
      }
      var derived := Rederive(own, secret);
      if !derived {
        return Failure(InvalidWitnessInputs);
      }
      var nonceField := if lastNonce == "" then "0" else Decimal(Value(lastNonce));
      return Success(WitnessAccount(owner, secret, nonceField, Decimal(oldBalance), Decimal(newBalance)));
    }

    method Build(input: SettlementInputs, accounts: seq<AccountWitnessSecret>, statePath: seq<string>)
      returns (r: Result<Witness>)
      ensures r.Success? <==> WitnessAcceptable(input, accounts)
      ensures r.Success? ==> r.value == WitnessFor(input, accounts).(statePath := statePath)
      ensures r.Success? && statePath == [] ==> r.value == WitnessFor(input, accounts)
      ensures r.Success? ==> |r.value.accounts| == |accounts| && r.value.statePath == statePath
      ensures r.Success? ==> forall i :: 0 <= i < |accounts| ==> Attests(r.value.accounts[i], input, accounts[i])
      ensures r.Failure? ==> r == Failure(InvalidWitnessInputs)
    {
      hide AccountFits, WitnessAccountFor, Attests;
      if accounts == [] {
        return Failure(InvalidWitnessInputs);
      }
      var out: seq<WitnessAccount> := [];
      for i := 0 to |accounts|
        invariant |out| == i
        invariant forall j :: 0 <= j < i ==> AccountFits(input, accounts[j])
        invariant forall j :: 0 <= j < i ==> out[j] == WitnessAccountFor(input, accounts[j])
        invariant forall j :: 0 <= j < i ==> Attests(out[j], input, accounts[j])
      {
        var built := BuildAccount(input, accounts[i]);
        if built.Failure? {
          return Failure(InvalidWitnessInputs);
        }
        AccountWitnesses(input, accounts[i]);
        out := out + [built.value];
      }
      return Success(Witness(out, statePath));
    }
  }
}
