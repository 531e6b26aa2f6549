/** When a build succeeds: an exact condition on the rows of the next batch and the secrets given. */
module Settleability {
  import opened Wrappers
  import opened Text
  import opened Decimals
  import opened Hashing
  import opened Types
  import opened CanonicalJson
  import opened StateRoot
  import opened Ledgers
  import opened LedgerLaws
  import opened SettlementLogs
  import opened TransitionOrder
  import opened SettlementBuilders
  import opened Witnesses
  import opened Commitments
  import opened SettlementModel
  import opened ChainInvariant
  import opened PendingBatches
  import opened PendingWitnesses
  import opened SettlementRuns

  // ------------------------------------------------------------------ the condition

  predicate IdsPresent(batch: seq<Row>) { forall r <- batch :: r.DepositRow? ==> !Blank(r.Id()) }

  /** One denom, written without outer white space. */
  predicate OneDenom(batch: seq<Row>)
    requires batch != []
  {
    forall r <- batch :: r.Denom() == Trim(batch[0].Denom())
  }

  predicate Mentions(batch: seq<Row>, owner: string) { exists r <- batch :: r.Owner() == owner }

  predicate SecretMatches(batch: seq<Row>, owner: string, secret: string) {
    forall r <- batch :: r.WithdrawalRow? && r.Owner() == owner ==>
      NullifierFor(secret, r.request.nonce) == Success(r.nullifier)
  }

  /**
   * The owner's trimmed text occurs, what was recorded under other spellings of it cancels out,
   * and the secret is the one its withdrawals were requested with.
   */
  predicate OwnerSettles(batch: seq<Row>, owner: string, secret: string) {
    Mentions(batch, owner) && StrayInflow(batch, owner) == StrayOutflow(batch, owner) &&
      SecretMatches(batch, owner, secret)
  }

  predicate OwnersSettle(batch: seq<Row>, index: map<string, string>) {
    forall r <- batch :: OwnerSettles(batch, Trim(r.Owner()), SecretFor(index, Trim(r.Owner())))
  }

  predicate Settleable(batch: seq<Row>, secrets: seq<AccountSecret>)
    requires batch != []
  {
    && IdsPresent(batch) && OneDenom(batch)
    && IndexSecrets(secrets).Success? && OwnersSettle(batch, IndexSecrets(secrets).value)
  }

  // ------------------------------------------------------------- members of the input

  lemma RecordIn(batch: seq<Row>, r: Row)
    requires r in batch && r.DepositRow?
    ensures r.record in Records(DepositsIn(batch))
  {
    SelectFinds(batch, IsDeposit, r);
    hide Select;
    var ds := DepositsIn(batch);
    var i :| 0 <= i < |ds| && ds[i] == r;
    assert Records(ds)[i] == r.record;
  }

  lemma RecordFrom(batch: seq<Row>, d: DepositRecord) returns (r: Row)
    requires d in Records(DepositsIn(batch))
    ensures r in batch && r.DepositRow? && r.record == d
  {
    hide Select;
    var ds := DepositsIn(batch);
    var i :| 0 <= i < |ds| && Records(ds)[i] == d;
    r := ds[i];
  }

  lemma InputIn(batch: seq<Row>, r: Row)
    requires r in batch && r.WithdrawalRow?
    ensures WithdrawalInput(r.request, r.nullifier, r.destinationHash) in Inputs(WithdrawalsIn(batch))
  {
    SelectFinds(batch, IsWithdrawal, r);
    hide Select;
    var ws := WithdrawalsIn(batch);
    var i :| 0 <= i < |ws| && ws[i] == r;
    assert Inputs(ws)[i] == WithdrawalInput(r.request, r.nullifier, r.destinationHash);
  }

  lemma InputFrom(batch: seq<Row>, w: WithdrawalInput) returns (r: Row)
    requires w in Inputs(WithdrawalsIn(batch))
    ensures r in batch && r.WithdrawalRow? && w == WithdrawalInput(r.request, r.nullifier, r.destinationHash)
  {
    hide Select;
    var ws := WithdrawalsIn(batch);
    var i :| 0 <= i < |ws| && Inputs(ws)[i] == w;
    r := ws[i];
  }

  // ---------------------------------------------------------- the settlement builder

  /** What every row of a faithful log satisfies on its own. */
  ghost predicate GoodRow(r: Row) {
    MoveOf(r.Op()).Some? && (r.WithdrawalRow? ==> Derived(r))
  }

  lemma FaithfulRow(g: string, rows: seq<Row>, ledger: Ledger, i: nat)
    requires Faithful(g, rows, ledger) && i < |rows|
    ensures GoodRow(rows[i])
  {
    hide MoveOf, Playable, Derived, LedgerAt, UniqueKeys;
    assert Recorded(g, rows, i);
  }

  lemma DigestIsHex(preimage: string)
    ensures ValidHex(Sha256Hex(preimage))
  {
    hide Trim, Trimmed;
  }

  lemma NullifierIsHex(secret: string, nonce: string)
    ensures NullifierFor(secret, nonce).Success? ==> ValidHex(NullifierFor(secret, nonce).value)
  {
    hide Trim, Trimmed, Decimal, ParseNonNegative, ValidHex, NullifierPreimage;
    if NullifierFor(secret, nonce).Success? {
      DigestIsHex(NullifierPreimage(Trim(secret), ParseNonNegative(nonce).value));
    }
  }

  lemma AddressHashIsHex(destination: string)
    ensures WithdrawAddressHash(destination).Success? ==> ValidHex(WithdrawAddressHash(destination).value)
  {
    hide Trim, Trimmed, ValidHex;
    DigestIsHex(WITHDRAW_ADDRESS_TAG + "|" + Trim(destination));
  }

  lemma GoodDepositFits(r: Row, denom: string)
    requires GoodRow(r) && r.DepositRow?
    ensures DepositFits(r.record, denom) <==> !Blank(r.Id()) && r.Denom() == denom
  {
    hide Trim, ParseNonNegative;
  }

  lemma GoodWithdrawalFits(r: Row, denom: string)
    requires GoodRow(r) && r.WithdrawalRow?
    ensures WithdrawalFits(WithdrawalInput(r.request, r.nullifier, r.destinationHash), denom) <==> r.Denom() == denom
  {
    var secret :| NullifierFor(secret, r.request.nonce) == Success(r.nullifier);
    NullifierIsHex(secret, r.request.nonce);
    AddressHashIsHex(r.request.destination);
    hide Trim, ParseNonNegative, NullifierFor, WithdrawAddressHash, ValidHex;
  }

  lemma GoodDenom(r: Row)
    requires GoodRow(r)
    ensures !Blank(r.Denom()) && !Blank(r.Owner())
  {
    MoveOfRow(r);
  }

  /** Both ways: the inputs of a batch of good rows are acceptable, or an id is blank or denoms differ. */
  lemma AcceptableExactly(root: string, batch: seq<Row>)
    requires batch != [] && forall r <- batch :: GoodRow(r)
    requires ValidHex(root) && ValidHex(batch[|batch| - 1].rootAfter) && root != batch[|batch| - 1].rootAfter
    ensures Acceptable(InputOf(root, batch)) <==> IdsPresent(batch) && OneDenom(batch)
  {
    hide GoodRow, ValidHex, DepositFits, WithdrawalFits, Trim, Select, Records, Inputs;
    var input := InputOf(root, batch);
    var ds, ws := DepositsIn(batch), WithdrawalsIn(batch);
    ListingsPermute(batch);
    InputLengths(ds, ws);
    var first := FirstRow(batch);
    GoodDenom(first);
    var denom := Trim(first.Denom());
    if Acceptable(input) {
      forall r | r in batch ensures r.Denom() == denom && (r.DepositRow? ==> !Blank(r.Id())) {
        if r.DepositRow? {
          RecordIn(batch, r);
          GoodDepositFits(r, denom);
        } else {
          InputIn(batch, r);
          GoodWithdrawalFits(r, denom);
        }
      }
      assert batch[0] in batch;
    }
    if IdsPresent(batch) && OneDenom(batch) {
      assert first.Denom() == Trim(batch[0].Denom());
      forall d | d in input.deposits ensures DepositFits(d, denom) {
        var r := RecordFrom(batch, d);
        GoodDepositFits(r, denom);
      }
      forall w | w in input.withdrawals ensures WithdrawalFits(w, denom) {
        var r := InputFrom(batch, w);
        GoodWithdrawalFits(r, denom);
      }
    }
  }

  lemma InputLengths(ds: seq<Row>, ws: seq<Row>)
    requires (forall r <- ds :: r.DepositRow?) && (forall r <- ws :: r.WithdrawalRow?)
    ensures |Records(ds)| == |ds| && |Inputs(ws)| == |ws|
  {
  }

  /** The row whose denom the builder takes as the batch denom. */
  lemma FirstRow(batch: seq<Row>) returns (first: Row)
    requires batch != []
    ensures first in batch
    ensures forall root :: var input := InputOf(root, batch);
              (input.deposits != [] || input.withdrawals != []) && FirstDenom(input) == first.Denom()
  {
    ListingsPermute(batch);
    hide Select;
    var ds, ws := DepositsIn(batch), WithdrawalsIn(batch);
    first := if ds != [] then ds[0] else ws[0];
    assert first in ds || first in ws;
  }

  // ---------------------------------------------------------------- the witness builder

  lemma {:induction false} IndexedSecretsUsable(secrets: seq<AccountSecret>, owner: string)
    requires IndexSecrets(secrets).Success?
    ensures var secret := SecretFor(IndexSecrets(secrets).value, owner);
            !Blank(secret) && Trim(secret) == secret
  {
    if secrets == [] {
      assert Trimmed(DEFAULT_SECRET) && DEFAULT_SECRET[0] == 'm';
    } else {
      hide Trim;
      IndexedSecretsUsable(secrets[..|secrets| - 1], owner);
      assert Trim(Trim(secrets[|secrets| - 1].userSecret)) == Trim(secrets[|secrets| - 1].userSecret);
    }
  }

  lemma {:induction false} DepositSumPositive(ds: seq<DepositRecord>, owner: string)
    requires forall d <- ds :: Value(d.amount) > 0
    ensures DepositSum(ds, owner) > 0 <==> exists d <- ds :: d.owner == owner
  {
    hide ParseNonNegative, Value;
    if ds != [] {
      assert ds == ds[..|ds| - 1] + [ds[|ds| - 1]];
      DepositSumPositive(ds[..|ds| - 1], owner);
    }
  }

  lemma {:induction false} WithdrawalSumPositive(ws: seq<WithdrawalInput>, owner: string)
    requires forall w <- ws :: Value(w.request.amount) > 0
    ensures WithdrawalSum(ws, owner) > 0 <==> exists w <- ws :: w.request.owner == owner
  {
    hide ParseNonNegative, Value;
    if ws != [] {
      assert ws == ws[..|ws| - 1] + [ws[|ws| - 1]];
      WithdrawalSumPositive(ws[..|ws| - 1], owner);
    }
  }

  lemma GoodAmounts(r: Row)
    requires GoodRow(r)
    ensures r.DepositRow? ==> ParsePositive(r.record.amount).Success? && Value(r.record.amount) > 0
    ensures r.WithdrawalRow? ==> ParsePositive(r.request.amount).Success? && Value(r.request.amount) > 0
  {
    hide Trim;
  }

  /** The witness account's sums parse, and are positive exactly when the owner's text occurs. */
  lemma SumsMention(batch: seq<Row>, owner: string)
    requires forall r <- batch :: GoodRow(r)
    ensures var (ds, ws) := (Records(DepositsIn(batch)), Inputs(WithdrawalsIn(batch)));
            && DepositsParse(ds, owner) && WithdrawalsParse(ws, owner)
            && (DepositSum(ds, owner) + WithdrawalSum(ws, owner) > 0 <==> Mentions(batch, owner))
  {
    hide GoodRow, Select, Records, Inputs, ParsePositive, Value;
    var ds, ws := Records(DepositsIn(batch)), Inputs(WithdrawalsIn(batch));
    forall d | d in ds ensures ParsePositive(d.amount).Success? && Value(d.amount) > 0 {
      var r := RecordFrom(batch, d);
      GoodAmounts(r);
    }
    forall w | w in ws ensures ParsePositive(w.request.amount).Success? && Value(w.request.amount) > 0 {
      var r := InputFrom(batch, w);
      GoodAmounts(r);
    }
    DepositSumPositive(ds, owner);
    WithdrawalSumPositive(ws, owner);
    forall r | r in batch && r.Owner() == owner
      ensures (exists d <- ds :: d.owner == owner) || (exists w <- ws :: w.request.owner == owner)
    {
      if r.DepositRow? { RecordIn(batch, r); } else { InputIn(batch, r); }
    }
    forall d | d in ds && d.owner == owner ensures Mentions(batch, owner) {
      var r := RecordFrom(batch, d);
    }
    forall w | w in ws && w.request.owner == owner ensures Mentions(batch, owner) {
      var r := InputFrom(batch, w);
    }
  }

  lemma NullifiersMatch(batch: seq<Row>, owner: string, secret: string)
    ensures NullifiersDerive(Inputs(WithdrawalsIn(batch)), owner, secret) <==> SecretMatches(batch, owner, secret)
  {
    hide Select, Inputs, NullifierFor;
    var ws := Inputs(WithdrawalsIn(batch));
    if NullifiersDerive(ws, owner, secret) {
      forall r | r in batch && r.WithdrawalRow? && r.Owner() == owner
        ensures NullifierFor(secret, r.request.nonce) == Success(r.nullifier)
      {
        InputIn(batch, r);
      }
    }
    if SecretMatches(batch, owner, secret) {
      forall w | w in ws && w.request.owner == owner
        ensures NullifierFor(secret, w.request.nonce) == Success(w.nullifier)
      {
        var r := InputFrom(batch, w);
      }
    }
  }

  /** The checks left once owner, secret and amounts are known to be well formed. */
  lemma FitsUnfolded(input: SettlementInputs, owner: string, secret: string, before: nat, after: nat)
    requires Trim(owner) == owner != "" && !Blank(secret) && Trim(secret) == secret
    requires DepositsParse(input.deposits, owner) && WithdrawalsParse(input.withdrawals, owner)
    ensures AccountFits(input, AccountWitnessSecret(owner, secret, Decimal(before), Decimal(after))) <==>
            && DepositSum(input.deposits, owner) + WithdrawalSum(input.withdrawals, owner) > 0
            && after + WithdrawalSum(input.withdrawals, owner) == before + DepositSum(input.deposits, owner)
            && NullifiersDerive(input.withdrawals, owner, secret)
  {
    hide Trim, ParseNonNegative, Decimal, DepositSum, WithdrawalSum, DepositsParse, WithdrawalsParse,
         NullifiersDerive;
  }

  lemma OwnerSettlesIs(batch: seq<Row>, owner: string, secret: string)
    ensures OwnerSettles(batch, owner, secret) <==>
            Mentions(batch, owner) && StrayInflow(batch, owner) == StrayOutflow(batch, owner) &&
              SecretMatches(batch, owner, secret)
  {
    hide Mentions, StrayInflow, StrayOutflow, SecretMatches;
  }

  /** With true balances before and after, ZK-04 fails exactly by what the sums overlook. */
  lemma AccountFitsExactly(root: string, batch: seq<Row>, owner: string, secret: string, before: nat, after: nat)
    requires batch != [] && forall r <- batch :: GoodRow(r)
    requires Trim(owner) == owner != "" && !Blank(secret) && Trim(secret) == secret
    requires after + Outflow(batch, owner) == before + Inflow(batch, owner)
    ensures AccountFits(InputOf(root, batch), AccountWitnessSecret(owner, secret, Decimal(before), Decimal(after)))
            <==> OwnerSettles(batch, owner, secret)
  {
    hide *;
    InputOfIs(root, batch);
    SumsMention(batch, owner);
    NullifiersMatch(batch, owner, secret);
    TrimmedIsTrim(owner);
    InflowSplits(batch, owner);
    OutflowSplits(batch, owner);
    FitsUnfolded(InputOf(root, batch), owner, secret, before, after);
    OwnerSettlesIs(batch, owner, secret);
  }

  lemma GoodStretch(g: string, rows: seq<Row>, ledger: Ledger, p: nat, q: nat)
    requires Faithful(g, rows, ledger) && p <= q <= |rows|
    ensures forall r <- rows[p..q] :: GoodRow(r)
  {
    hide Faithful, GoodRow;
    forall r | r in rows[p..q] ensures GoodRow(r) {
      var i :| 0 <= i < q - p && rows[p..q][i] == r;
      FaithfulRow(g, rows, ledger, p + i);
    }
  }

  lemma OneDenomUniform(batch: seq<Row>)
    requires batch != [] && OneDenom(batch)
    ensures UniformKeys(batch, Trim(batch[0].Denom()))
  {
    hide Trim;
    forall i | 0 <= i < |batch| ensures Trim(batch[i].Denom()) == Trim(batch[0].Denom()) {
      assert batch[i] in batch;
      assert Trim(Trim(batch[0].Denom())) == Trim(batch[0].Denom()) by { assert Trimmed(Trim(batch[0].Denom())); }
    }
  }

  lemma GroupFits(root: string, batch: seq<Row>, gs: seq<OwnerBalance>, i: nat, m: Accounts, m': Accounts,
                  denom: string, index: map<string, string>)
    requires batch != [] && (forall r <- batch :: GoodRow(r))
    requires i < |gs| && Tracked(gs[i], m, m', denom) && Touched(batch, gs[i].owner)
    requires var secret := SecretFor(index, gs[i].owner); !Blank(secret) && Trim(secret) == secret
    requires var k := Key(gs[i].owner, denom);
             Balance(m', k) + Outflow(batch, gs[i].owner) == Balance(m, k) + Inflow(batch, gs[i].owner)
    ensures AccountFits(InputOf(root, batch), AccountsWithSecrets(gs, index)[i]) <==>
            OwnerSettles(batch, gs[i].owner, SecretFor(index, gs[i].owner))
  {
    var owner, k := gs[i].owner, Key(gs[i].owner, denom);
    var r :| r in batch && Trim(r.Owner()) == owner;
    GoodDenom(r);
    assert Trim(owner) == owner by { assert Trimmed(Trim(r.Owner())); }
    hide GoodRow, Trim, Trimmed, AccountFits, OwnerSettles, Inflow, Outflow, InputOf, SecretFor, Balance, Decimal;
    AccountFitsExactly(root, batch, owner, SecretFor(index, owner), Balance(m, k), Balance(m', k));
  }

  /** The witness builder accepts a stretch of the log exactly when each of its owners settles. */
  lemma WitnessExactly(g: string, rows: seq<Row>, ledger: Ledger, p: nat, n: nat, root: string,
                       secrets: seq<AccountSecret>)
    requires Faithful(g, rows, ledger) && 0 < n && p + n <= |rows| && OneDenom(rows[p..p + n])
    requires IndexSecrets(secrets).Success?
    ensures var batch := rows[p..p + n];
            && WitnessAccounts(batch, secrets).Success?
            && (WitnessAcceptable(InputOf(root, batch), WitnessAccounts(batch, secrets).value) <==>
                OwnersSettle(batch, IndexSecrets(secrets).value))
  {
    hide Faithful, Replayable, LedgerAt, GoodRow, Trim, AccountFits, OwnerSettles, InputOf, SecretFor, Balance,
         Inflow, Outflow, Tracked, GroupByOwner, IndexSecrets, UniformKeys, OneDenom, Touched, Absent, Blank;
    FaithfulLedger(g, rows, ledger);
    var batch, index := rows[p..p + n], IndexSecrets(secrets).value;
    var denom := Trim(batch[0].Denom());
    OneDenomUniform(batch);
    GoodStretch(g, rows, ledger, p, p + n);
    StretchGroups(g, rows, ledger, p, n, denom);
    var gs := GroupByOwner(batch).value;
    var input, accounts := InputOf(root, batch), AccountsWithSecrets(gs, index);
    forall i | 0 <= i < |gs|
      ensures AccountFits(input, accounts[i]) <==> OwnerSettles(batch, gs[i].owner, SecretFor(index, gs[i].owner))
    {
      StretchFlows(g, rows, ledger, p, n, denom, gs[i].owner);
      IndexedSecretsUsable(secrets, gs[i].owner);
      GroupTouched(gs, batch, i);
      GroupFits(root, batch, gs, i, LedgerAt(g, rows, p).accounts, LedgerAt(g, rows, p + n).accounts, denom, index);
    }
    EachOwnerOnce(gs, batch, index, input, accounts);
  }

  lemma GroupTouched(gs: seq<OwnerBalance>, batch: seq<Row>, i: nat)
    requires NamesOwners(gs, batch) && i < |gs|
    ensures Touched(batch, gs[i].owner)
  {
    hide Touched;
    assert gs[i] in gs && !Absent(gs, gs[i].owner);
  }

  lemma EachOwnerOnce(gs: seq<OwnerBalance>, batch: seq<Row>, index: map<string, string>, input: SettlementInputs,
                      accounts: seq<AccountWitnessSecret>)
    requires NamesOwners(gs, batch) && batch != [] && |accounts| == |gs|
    requires forall i :: 0 <= i < |gs| ==>
               (AccountFits(input, accounts[i]) <==> OwnerSettles(batch, gs[i].owner, SecretFor(index, gs[i].owner)))
    ensures WitnessAcceptable(input, accounts) <==> OwnersSettle(batch, index)
  {
    hide AccountFits, OwnerSettles, SecretFor, Trim;
    assert batch[0] in batch && Touched(batch, Trim(batch[0].Owner()));
    assert !Absent(gs, Trim(batch[0].Owner()));
    if OwnersSettle(batch, index) {
      forall a | a in accounts ensures AccountFits(input, a) {
        var i :| 0 <= i < |accounts| && accounts[i] == a;
        GroupTouched(gs, batch, i);
        var r :| r in batch && Trim(r.Owner()) == gs[i].owner;
      }
    }
    if WitnessAcceptable(input, accounts) {
      forall r | r in batch ensures OwnerSettles(batch, Trim(r.Owner()), SecretFor(index, Trim(r.Owner()))) {
        assert Touched(batch, Trim(r.Owner()));
        assert !Absent(gs, Trim(r.Owner()));
        var b :| b in gs && b.owner == Trim(r.Owner());
        var i :| 0 <= i < |gs| && gs[i] == b;
        assert accounts[i] in accounts;
      }
    }
  }

  lemma RootIsHex(g: string, rows: seq<Row>, ledger: Ledger, i: nat)
    requires Faithful(g, rows, ledger) && ValidHex(g) && i <= |rows|
    ensures ValidHex(LedgerAt(g, rows, i).root)
  {
    hide ValidHex, Recorded, Playable, Play, MoveOf, UniqueKeys, RootOf;
    PlayPrefix(Genesis(g), MovesOf(rows), i);
    if i == 0 {
      assert MovesOf(rows)[..0] == [];
      PlayNothing(Genesis(g));
    } else {
      RunsAdvance(Genesis(g), MovesOf(rows)[..i]);
      RootOfIsHex(LedgerAt(g, rows, i).accounts);
    }
  }

  lemma RootOfIsHex(m: Accounts)
    ensures ValidHex(RootOf(m))
  {
    hide ValidHex, AccountListJson;
    DigestIsHex(STATE_TAG + "|" + AccountListJson(Listing(m)));
  }

  lemma HexNotBlank(s: string)
    requires ValidHex(s)
    ensures !Blank(s)
  {
  }

  lemma PendingRootsPresent(g: string, rows: seq<Row>, ledger: Ledger, p: nat)
    requires Faithful(g, rows, ledger) && ValidHex(g) && p <= |rows|
    ensures RootsPresent(rows[p..])
  {
    hide Faithful, LedgerAt, Replayable, ValidHex, Blank;
    FaithfulLedger(g, rows, ledger);
    forall t | t in rows[p..] ensures !Blank(t.rootBefore) && !Blank(t.rootAfter) {
      var i :| 0 <= i < |rows[p..]| && rows[p..][i] == t;
      RowRoots(g, rows, ledger, p + i);
      RootIsHex(g, rows, ledger, p + i);
      RootIsHex(g, rows, ledger, p + i + 1);
      HexNotBlank(t.rootBefore);
      HexNotBlank(t.rootAfter);
    }
  }

  /** The settlement and witness builders together accept the next batch exactly when it is settleable. */
  lemma EmitExactly(g: string, s: State, p: nat, n: nat, secrets: seq<AccountSecret>)
    requires GenesisApart(g) && ValidHex(g) && Faithful(g, s.rows, s.ledger) && 0 < n && p + n <= |s.rows|
    ensures var (root, batch) := (LedgerAt(g, s.rows, p).root, s.rows[p..p + n]);
            Emit(s, Plan(batch, DepositsIn(batch), WithdrawalsIn(batch), InputOf(root, batch)), secrets).1.Success?
            <==> Settleable(batch, secrets)
  {
    hide Faithful, Replayable, LedgerAt, GenesisApart, GoodRow, ValidHex, Acceptable, WitnessAcceptable,
         OwnersSettle, OneDenom, IdsPresent, Ids, IndexSecrets, InputOf, UpdateFor, WitnessFor, CommitmentsFor,
         WithIncluded, Select, GroupByOwner;
    FaithfulLedger(g, s.rows, s.ledger);
    var root, batch := LedgerAt(g, s.rows, p).root, s.rows[p..p + n];
    GoodStretch(g, s.rows, s.ledger, p, p + n);
    RootIsHex(g, s.rows, s.ledger, p);
    RootIsHex(g, s.rows, s.ledger, p + n);
    RowRoots(g, s.rows, s.ledger, p + n - 1);
    assert batch[n - 1] == s.rows[p + n - 1];
    StartsDistinct(g, s.rows, s.ledger, p, p + n);
    AcceptableExactly(root, batch);
    if OneDenom(batch) && IndexSecrets(secrets).Success? {
      WitnessExactly(g, s.rows, s.ledger, p, n, root, secrets);
    }
  }

  /**
   * In a reachable state with work pending and no batch outstanding, a build succeeds if and only
   * if the next batch is settleable with the secrets given.
   */
  lemma BuildSucceedsExactly(g: string, s: State, p: nat, secrets: seq<AccountSecret>)
    requires GenesisApart(g) && ValidHex(g) && Inv(g, s, p, p) && p < |s.rows|
    ensures NextBatch(s.rows, p) != []
    ensures BuildPendingBatch(s, secrets).1.Success? <==> Settleable(NextBatch(s.rows, p), secrets)
  {
    hide Chained, Faithful, Replayable, LedgerAt, GenesisApart, ValidHex, Settleable, RootsPresent,
         BuildPendingBatch, Emit, InputOf, NextBatch, Phased, EmitsRows;
    InvParts(g, s, p, p);
    NextBatchSlice(s.rows, p);
    PendingRootsPresent(g, s.rows, s.ledger, p);
    BuildEmitsNextBatch(g, s, p, p, secrets);
    EmitExactly(g, WithCursor(s), p, |NextBatch(s.rows, p)|, secrets);
  }

  // --------------------------------------------------- the ordinary case: trimmed owners

  predicate OwnersTrimmed(batch: seq<Row>) { forall r <- batch :: Trimmed(r.Owner()) }

  lemma {:induction false} NoStrayFlow(batch: seq<Row>, owner: string)
    requires OwnersTrimmed(batch)
    ensures StrayInflow(batch, owner) == 0 && StrayOutflow(batch, owner) == 0
  {
    hide ParseNonNegative, Trimmed;
    if batch != [] {
      assert batch == batch[..|batch| - 1] + [batch[|batch| - 1]];
      NoStrayFlow(batch[..|batch| - 1], owner);
    }
  }

  /**
   * A batch in one denom whose owners carry no outer white space always passes, provided each
   * withdrawal's secret is the one given now.
   */
  lemma TrimmedBatchSettles(batch: seq<Row>, secrets: seq<AccountSecret>)
    requires batch != [] && OwnersTrimmed(batch) && IdsPresent(batch) && OneDenom(batch)
    requires IndexSecrets(secrets).Success?
    requires forall r <- batch :: r.WithdrawalRow? ==>
               NullifierFor(SecretFor(IndexSecrets(secrets).value, r.Owner()), r.request.nonce) == Success(r.nullifier)
    ensures Settleable(batch, secrets)
  {
    hide Trimmed, NullifierFor, SecretFor, IndexSecrets, StrayInflow, StrayOutflow, IdsPresent, OneDenom;
    var index := IndexSecrets(secrets).value;
    forall r | r in batch ensures OwnerSettles(batch, Trim(r.Owner()), SecretFor(index, Trim(r.Owner()))) {
      assert Trim(r.Owner()) == r.Owner();
      NoStrayFlow(batch, r.Owner());
    }
  }

  // ----------------------------------------------------------- the one-withdrawal binding

  /** A batch holds at most one withdrawal, as its last row, and stops short of the log only after one. */
  lemma NextBatchHasOneWithdrawal(rows: seq<Row>, p: nat)
    requires p < |rows|
    ensures var batch := NextBatch(rows, p);
            && (forall i :: 0 <= i < |batch| - 1 ==> batch[i].DepositRow?)
            && (batch[|batch| - 1].DepositRow? ==> p + |batch| == |rows|)
            && WithdrawalsIn(batch) == (if batch[|batch| - 1].WithdrawalRow? then [batch[|batch| - 1]] else [])
  {
    hide Select, BoundLength;
    var batch := NextBatch(rows, p);
    var front, last := batch[..|batch| - 1], batch[|batch| - 1];
    assert batch == front + [last];
    assert forall i :: 0 <= i < |batch| ==> batch[i] == rows[p..][i];
    SelectOne(front, last, IsWithdrawal);
    NoWithdrawals(front);
  }

  lemma {:induction false} NoWithdrawals(rows: seq<Row>)
    requires forall i :: 0 <= i < |rows| ==> rows[i].DepositRow?
    ensures WithdrawalsIn(rows) == []
  {
    if rows != [] { NoWithdrawals(rows[..|rows| - 1]); }
  }

  /**
   * In an emitted witness the account of the withdrawal's owner carries the secret and nonce its
   * nullifier derives from, exactly when the request spelled that owner without outer white space.
   */
  lemma WitnessBindsWithdrawal(input: SettlementInputs, accounts: seq<AccountWitnessSecret>, w: WithdrawalInput, i: nat)
    requires WitnessAcceptable(input, accounts) && input.withdrawals == [w] && i < |accounts|
    requires Trim(accounts[i].owner) == Trim(w.request.owner)
    requires exists secret :: NullifierFor(secret, w.request.nonce) == Success(w.nullifier)
    requires Value(w.request.nonce) > 0
    ensures var account := WitnessFor(input, accounts).accounts[i];
            NullifierFor(account.userSecret, account.nonce) == Success(w.nullifier) <==> Trimmed(w.request.owner)
  {
    assert accounts[i] in accounts;
    hide AccountFits, Trim, Trimmed, NullifierFor, WitnessAccountFor;
    AccountBindsWithdrawal(input, accounts[i], w);
  }

  lemma LastNonceOfOne(w: WithdrawalInput, owner: string)
    ensures LastNonce([w], owner) == if w.request.owner == owner then w.request.nonce else ""
  {
    assert [w][..0] == [];
  }

  lemma EmptyIsNoNumber()
    ensures Value("") == 0 && Value("0") == 0 && ParseNonNegative("0") == Success(0)
  {
    assert "0" == Decimal(0);
    assert Trim("") == "";
  }

  lemma AccountBindsWithdrawal(input: SettlementInputs, a: AccountWitnessSecret, w: WithdrawalInput)
    requires AccountFits(input, a) && input.withdrawals == [w] && Trim(a.owner) == Trim(w.request.owner)
    requires exists secret :: NullifierFor(secret, w.request.nonce) == Success(w.nullifier)
    requires Value(w.request.nonce) > 0
    ensures var account := WitnessAccountFor(input, a);
            NullifierFor(account.userSecret, account.nonce) == Success(w.nullifier) <==> Trimmed(w.request.owner)
  {
    hide Trim, Trimmed, ParseNonNegative, Decimal, DepositSum, WithdrawalSum, DepositsParse, WithdrawalsParse,
         LastNonce;
    var owner, account := Trim(a.owner), WitnessAccountFor(input, a);
    LastNonceOfOne(w, owner);
    TrimmedIsTrim(w.request.owner);
    EmptyIsNoNumber();
    assert w in input.withdrawals;
    var secret :| NullifierFor(secret, w.request.nonce) == Success(w.nullifier);
    if w.request.owner == owner {
      assert NullifierFor(Trim(a.userSecret), w.request.nonce) == Success(w.nullifier);
      hide NullifierFor;
      SameNumberSameNullifier(account.userSecret, w.request.nonce, account.nonce);
    } else {
      assert account.nonce == "0";
      if NullifierFor(account.userSecret, "0") == Success(w.nullifier) {
        NullifiersEqualExactly(secret, w.request.nonce, account.userSecret, "0");
      }
    }
  }

  lemma SameNumberSameNullifier(secret: string, a: string, b: string)
    requires ParseNonNegative(a).Success? && ParseNonNegative(a) == ParseNonNegative(b)
    ensures NullifierFor(secret, a) == NullifierFor(secret, b)
  {
  }
}
