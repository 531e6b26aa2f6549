/** The settlement update of a batch, and the builder that validates and numbers it. */
module SettlementBuilders {
  import opened Wrappers
  import opened Text
  import opened Decimals
  import opened Hashing
  import opened Types
  import opened Ledgers

  datatype WithdrawalInput = WithdrawalInput(request: WithdrawRequest, nullifier: string, destinationHash: string)

  datatype SettlementInputs = SettlementInputs(
    oldStateRoot: string, newStateRoot: string,
    deposits: seq<DepositRecord>, withdrawals: seq<WithdrawalInput>)

  datatype SettlementDeposit = SettlementDeposit(depositId: string, owner: string, denom: string, amount: string)

  datatype SettlementWithdrawal = SettlementWithdrawal(
    withdrawId: string, owner: string, denom: string, amount: string,
    destination: string, destinationHash: string, nullifier: string)

  datatype SettlementUpdate = SettlementUpdate(
    batchId: string, oldStateRoot: string, newStateRoot: string,
    deposits: seq<SettlementDeposit>, withdrawals: seq<SettlementWithdrawal>)

  /** validateRoot and validateHex. */
  predicate ValidHex(s: string) {
    HexPrefixed(Trim(s)) && |Trim(s)| > |HEX_PREFIX|
  }

  predicate ValidDeposit(d: DepositRecord) {
    !Blank(d.depositId) && !Blank(d.owner) && !Blank(d.denom) && ParsePositive(d.amount).Success?
  }

  /** pickBatchDenom, before trimming. */
  function FirstDenom(input: SettlementInputs): string
    requires input.deposits != [] || input.withdrawals != []
  {
    if input.deposits != [] then input.deposits[0].denom else input.withdrawals[0].request.denom
  }

  predicate DepositFits(d: DepositRecord, denom: string) {
    ValidDeposit(d) && d.denom == denom
  }

  predicate WithdrawalFits(w: WithdrawalInput, denom: string) {
    && ValidWithdrawRequest(w.request) && w.request.denom == denom
    && ValidHex(w.nullifier) && ValidHex(w.destinationHash)
    && WithdrawAddressHash(w.request.destination) == Success(w.destinationHash)
  }

  /** The inputs the builder accepts. */
  predicate Acceptable(input: SettlementInputs) {
    && ValidHex(input.oldStateRoot) && ValidHex(input.newStateRoot) && input.oldStateRoot != input.newStateRoot
    && (input.deposits != [] || input.withdrawals != [])
    && !Blank(FirstDenom(input))
    && (forall d <- input.deposits :: DepositFits(d, Trim(FirstDenom(input))))
    && (forall w <- input.withdrawals :: WithdrawalFits(w, Trim(FirstDenom(input))))
  }

  function BatchId(n: nat): string { "batch-" + Decimal(n) }

  lemma BatchIdInjective(m: nat, n: nat)
    requires BatchId(m) == BatchId(n)
    ensures m == n
  {
    assert Decimal(m) == BatchId(m)[6..] && Decimal(n) == BatchId(n)[6..];
    assert Value(Decimal(m)) == m;
  }

  function DepositEntry(d: DepositRecord): SettlementDeposit {
    SettlementDeposit(d.depositId, d.owner, d.denom, Decimal(Value(d.amount)))
  }

  function WithdrawalEntry(w: WithdrawalInput): SettlementWithdrawal {
    SettlementWithdrawal(w.request.withdrawId, w.request.owner, w.request.denom, Decimal(Value(w.request.amount)),
                         w.request.destination, w.destinationHash, w.nullifier)
  }

  /** The update numbered `n` for these inputs: nothing dropped, reordered or added. */
  function UpdateFor(input: SettlementInputs, n: nat): SettlementUpdate {
    SettlementUpdate(
      BatchId(n), input.oldStateRoot, input.newStateRoot,
      seq(|input.deposits|, i requires 0 <= i < |input.deposits| => DepositEntry(input.deposits[i])),
      seq(|input.withdrawals|, i requires 0 <= i < |input.withdrawals| => WithdrawalEntry(input.withdrawals[i])))
  }

  /** Every entry carries the fields of its operation; amounts are the same numbers in plain notation. */
  ghost predicate Carries(u: SettlementUpdate, input: SettlementInputs) {
    && u.oldStateRoot == input.oldStateRoot && u.newStateRoot == input.newStateRoot
    && |u.deposits| == |input.deposits| && |u.withdrawals| == |input.withdrawals|
    && (forall i :: 0 <= i < |input.deposits| ==> CarriesDeposit(u.deposits[i], input.deposits[i]))
    && (forall i :: 0 <= i < |input.withdrawals| ==> CarriesWithdrawal(u.withdrawals[i], input.withdrawals[i]))
  }

  predicate CarriesDeposit(e: SettlementDeposit, d: DepositRecord) {
    && e.depositId == d.depositId && e.owner == d.owner && e.denom == d.denom
    && Value(e.amount) == Value(d.amount) && e.amount == Decimal(Value(e.amount))
  }

  predicate CarriesWithdrawal(e: SettlementWithdrawal, w: WithdrawalInput) {
    && e.withdrawId == w.request.withdrawId && e.owner == w.request.owner && e.denom == w.request.denom
    && e.destination == w.request.destination && e.destinationHash == w.destinationHash && e.nullifier == w.nullifier
    && Value(e.amount) == Value(w.request.amount) && e.amount == Decimal(Value(e.amount))
  }

  lemma UpdateCarries(input: SettlementInputs, n: nat)
    ensures Carries(UpdateFor(input, n), input)
  {
    hide ParseNonNegative, BatchId;
    var u := UpdateFor(input, n);
    forall i | 0 <= i < |input.deposits| ensures CarriesDeposit(u.deposits[i], input.deposits[i]) {
      assert u.deposits[i] == DepositEntry(input.deposits[i]);
    }
    forall i | 0 <= i < |input.withdrawals| ensures CarriesWithdrawal(u.withdrawals[i], input.withdrawals[i]) {
      assert u.withdrawals[i] == WithdrawalEntry(input.withdrawals[i]);
    }
  }

  lemma AssembledUpdate(input: SettlementInputs, n: nat, ds: seq<SettlementDeposit>, ws: seq<SettlementWithdrawal>)
    requires |ds| == |input.deposits| && forall i :: 0 <= i < |ds| ==> ds[i] == DepositEntry(input.deposits[i])
    requires |ws| == |input.withdrawals| && forall i :: 0 <= i < |ws| ==> ws[i] == WithdrawalEntry(input.withdrawals[i])
    ensures SettlementUpdate(BatchId(n), input.oldStateRoot, input.newStateRoot, ds, ws) == UpdateFor(input, n)
  {
    hide DepositEntry, WithdrawalEntry, BatchId;
  }

  lemma NumberedId(input: SettlementInputs, n: nat)
    ensures UpdateFor(input, n).batchId == "batch-" + Decimal(n)
  {
  }

  lemma BatchIdText()
    ensures BatchId(1) == "batch-1" && BatchId(27) == "batch-27"
  {
    assert Decimal(27) == Decimal(2) + "7";
  }

  /** Hex text: 0x and at least one more character, outer white space aside. */
  lemma HexText(s: string)
    ensures ValidHex(s) <==> |Trim(s)| > 2 && Trim(s)[0] == '0' && Trim(s)[1] == 'x'
  {
    hide Trim;
  }

  /** The first denom of the batch, trimmed: that of the first deposit, or of the first withdrawal without one. */
  lemma BatchDenom(input: SettlementInputs)
    requires input.deposits != [] || input.withdrawals != []
    ensures input.deposits != [] ==> FirstDenom(input) == input.deposits[0].denom
    ensures input.deposits == [] ==> FirstDenom(input) == input.withdrawals[0].request.denom
  {
  }

  lemma DepositAccepted(d: DepositRecord, denom: string)
    requires Trim(denom) == denom != ""
    ensures DepositFits(d, denom) <==>
            !Blank(d.depositId) && !Blank(d.owner) && d.denom == denom && ParsePositive(d.amount).Success?
  {
    hide Trim, ParsePositive;
  }

  lemma WithdrawalAccepted(w: WithdrawalInput, denom: string)
    requires Trim(denom) == denom != ""
    ensures WithdrawalFits(w, denom) <==>
            && !Blank(w.request.withdrawId) && !Blank(w.request.owner) && !Blank(w.request.destination)
            && w.request.denom == denom
            && ParsePositive(w.request.amount).Success? && ParseNonNegative(w.request.nonce).Success?
            && ValidHex(w.nullifier) && ValidHex(w.destinationHash)
            && WithdrawAddressHash(w.request.destination) == Success(w.destinationHash)
  {
    hide Trim, ParsePositive, ParseNonNegative, ValidHex, WithdrawAddressHash;
  }

  /** What the builder accepts, check by check. */
  lemma AcceptedExactly(input: SettlementInputs)
    ensures Acceptable(input) <==>
            && ValidHex(input.oldStateRoot) && ValidHex(input.newStateRoot) && input.oldStateRoot != input.newStateRoot
            && (input.deposits != [] || input.withdrawals != []) && !Blank(FirstDenom(input))
            && (forall i :: 0 <= i < |input.deposits| ==>
                  var d := input.deposits[i];
                  && !Blank(d.depositId) && !Blank(d.owner) && d.denom == Trim(FirstDenom(input))
                  && ParsePositive(d.amount).Success?)
            && (forall i :: 0 <= i < |input.withdrawals| ==>
                  var w := input.withdrawals[i];
                  && !Blank(w.request.withdrawId) && !Blank(w.request.owner) && !Blank(w.request.destination)
                  && w.request.denom == Trim(FirstDenom(input))
                  && ParsePositive(w.request.amount).Success? && ParseNonNegative(w.request.nonce).Success?
                  && ValidHex(w.nullifier) && ValidHex(w.destinationHash)
                  && WithdrawAddressHash(w.request.destination) == Success(w.destinationHash))
  {
    hide ValidHex, Trim, ParsePositive, ParseNonNegative, WithdrawAddressHash, DepositFits, WithdrawalFits, FirstDenom;
    if (input.deposits != [] || input.withdrawals != []) && !Blank(FirstDenom(input)) {
      var denom := Trim(FirstDenom(input));
      TrimIdempotent(FirstDenom(input));
      forall i | 0 <= i < |input.deposits| { DepositAccepted(input.deposits[i], denom); }
      forall i | 0 <= i < |input.withdrawals| { WithdrawalAccepted(input.withdrawals[i], denom); }
      assert forall i :: 0 <= i < |input.deposits| ==> input.deposits[i] in input.deposits;
      assert forall i :: 0 <= i < |input.withdrawals| ==> input.withdrawals[i] in input.withdrawals;
    }
  }

  class SettlementUpdateBuilder {
    var counter: nat

    constructor ()
      ensures counter == 0
    {
      counter := 0;
    }

    /** Accepts exactly the acceptable inputs; only an accepted batch takes a number. */
    method Build(input: SettlementInputs) returns (r: Result<SettlementUpdate>)
      modifies this
      ensures r.Success? <==> Acceptable(input)
      ensures r.Failure? ==> r == Failure(InvalidSettlementInputs) && counter == old(counter)
      ensures r.Success? ==> counter == old(counter) + 1 && r.value == UpdateFor(input, counter)
      ensures r.Success? ==> Carries(r.value, input) && r.value.batchId == "batch-" + Decimal(counter)
    {
      hide Carries, UpdateFor, DepositFits, WithdrawalFits, DepositEntry, WithdrawalEntry, BatchId, ValidHex, Trim;
      if !ValidHex(input.oldStateRoot) || !ValidHex(input.newStateRoot) || input.oldStateRoot == input.newStateRoot {
        return Failure(InvalidSettlementInputs);
      }
      if input.deposits == [] && input.withdrawals == [] {
        return Failure(InvalidSettlementInputs);
      }
      if Blank(FirstDenom(input)) {
        return Failure(InvalidSettlementInputs);
      }
      var denom := Trim(FirstDenom(input));
      var deposits: seq<SettlementDeposit> := [];
      for i := 0 to |input.deposits|
        invariant |deposits| == i
        invariant forall j :: 0 <= j < i ==> DepositFits(input.deposits[j], denom)
        invariant forall j :: 0 <= j < i ==> deposits[j] == DepositEntry(input.deposits[j])
      {
        if !DepositFits(input.deposits[i], denom) {
          return Failure(InvalidSettlementInputs);
        }
        deposits := deposits + [DepositEntry(input.deposits[i])];
      }
      var withdrawals: seq<SettlementWithdrawal> := [];
      for i := 0 to |input.withdrawals|
        invariant |withdrawals| == i
        invariant forall j :: 0 <= j < i ==> WithdrawalFits(input.withdrawals[j], denom)
        invariant forall j :: 0 <= j < i ==> withdrawals[j] == WithdrawalEntry(input.withdrawals[j])
      {
        if !WithdrawalFits(input.withdrawals[i], denom) {
          return Failure(InvalidSettlementInputs);
        }
        withdrawals := withdrawals + [WithdrawalEntry(input.withdrawals[i])];
      }
      counter := counter + 1;
      var update := SettlementUpdate(BatchId(counter), input.oldStateRoot, input.newStateRoot, deposits, withdrawals);
      UpdateCarries(input, counter);
      NumberedId(input, counter);
      AssembledUpdate(input, counter, deposits, withdrawals);
      return Success(update);
    }
  }
}
