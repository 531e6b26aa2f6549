/** Why a pending batch passes the witness checks, exactly when it does, and what it binds. */
module PendingWitnesses {
  import opened Wrappers
  import opened Text
  import opened Decimals
  import opened Types
  import opened StateRoot
  import opened Ledgers
  import opened LedgerLaws
  import opened SettlementLogs
  import opened SettlementBuilders
  import opened Witnesses
  import opened SettlementModel
  import opened ChainInvariant
  import opened PendingBatches

  // -------------------------------------------------------------- sums over log rows

  /** Amounts deposited by rows whose owner trims to `owner`. */
  function Inflow(rows: seq<Row>, owner: string): nat {
    if rows == [] then 0 else
      var r := rows[|rows| - 1];
      Inflow(rows[..|rows| - 1], owner) +
      if r.DepositRow? && Trim(r.Owner()) == owner then Value(r.record.amount) else 0
  }

  function Outflow(rows: seq<Row>, owner: string): nat {
    if rows == [] then 0 else
      var r := rows[|rows| - 1];
      Outflow(rows[..|rows| - 1], owner) +
      if r.WithdrawalRow? && Trim(r.Owner()) == owner then Value(r.request.amount) else 0
  }

  /** The part of the inflow recorded under an owner text with outer white space. */
  function StrayInflow(rows: seq<Row>, owner: string): nat {
    if rows == [] then 0 else
      var r := rows[|rows| - 1];
      StrayInflow(rows[..|rows| - 1], owner) +
      if r.DepositRow? && Trim(r.Owner()) == owner && r.Owner() != owner then Value(r.record.amount) else 0
  }

  function StrayOutflow(rows: seq<Row>, owner: string): nat {
    if rows == [] then 0 else
      var r := rows[|rows| - 1];
      StrayOutflow(rows[..|rows| - 1], owner) +
      if r.WithdrawalRow? && Trim(r.Owner()) == owner && r.Owner() != owner then Value(r.request.amount) else 0
  }

  lemma RecordsOne(rows: seq<Row>, r: Row)
    requires forall t <- rows + [r] :: t.DepositRow?
    ensures Records(rows + [r]) == Records(rows) + [r.record]
  {
    assert forall t <- rows :: t in rows + [r];
  }

  lemma InputsOne(rows: seq<Row>, r: Row)
    requires forall t <- rows + [r] :: t.WithdrawalRow?
    ensures Inputs(rows + [r]) == Inputs(rows) + [WithdrawalInput(r.request, r.nullifier, r.destinationHash)]
  {
    assert forall t <- rows :: t in rows + [r];
  }

  lemma DepositSumOne(ds: seq<DepositRecord>, d: DepositRecord, owner: string)
    ensures DepositSum(ds + [d], owner) == DepositSum(ds, owner) + if d.owner == owner then Value(d.amount) else 0
  {
    hide Value;
    assert (ds + [d])[..|ds|] == ds;
  }

  lemma WithdrawalSumOne(ws: seq<WithdrawalInput>, w: WithdrawalInput, owner: string)
    ensures WithdrawalSum(ws + [w], owner) ==
            WithdrawalSum(ws, owner) + if w.request.owner == owner then Value(w.request.amount) else 0
  {
    hide Value;
    assert (ws + [w])[..|ws|] == ws;
  }

  lemma InflowOne(front: seq<Row>, r: Row, owner: string)
    ensures Inflow(front + [r], owner) ==
            Inflow(front, owner) + if r.DepositRow? && Trim(r.Owner()) == owner then Value(r.record.amount) else 0
    ensures StrayInflow(front + [r], owner) == StrayInflow(front, owner) +
            if r.DepositRow? && Trim(r.Owner()) == owner && r.Owner() != owner then Value(r.record.amount) else 0
  {
    hide Value, Trim;
    assert (front + [r])[..|front|] == front;
  }

  lemma OutflowOne(front: seq<Row>, r: Row, owner: string)
    ensures Outflow(front + [r], owner) ==
            Outflow(front, owner) + if r.WithdrawalRow? && Trim(r.Owner()) == owner then Value(r.request.amount) else 0
    ensures StrayOutflow(front + [r], owner) == StrayOutflow(front, owner) +
            if r.WithdrawalRow? && Trim(r.Owner()) == owner && r.Owner() != owner then Value(r.request.amount) else 0
  {
    hide Value, Trim;
    assert (front + [r])[..|front|] == front;
  }

  /** The records of the listed deposits, one row further. */
  lemma ListedRecordsOne(front: seq<Row>, r: Row)
    ensures Records(DepositsIn(front + [r])) ==
            if r.DepositRow? then Records(DepositsIn(front)) + [r.record] else Records(DepositsIn(front))
  {
    hide Select, Records;
    SelectOne(front, r, IsDeposit);
    if r.DepositRow? { RecordsOne(DepositsIn(front), r); }
  }

  lemma ListedInputsOne(front: seq<Row>, r: Row)
    ensures Inputs(WithdrawalsIn(front + [r])) ==
            if r.WithdrawalRow? then
              Inputs(WithdrawalsIn(front)) + [WithdrawalInput(r.request, r.nullifier, r.destinationHash)]
            else Inputs(WithdrawalsIn(front))
  {
    hide Select, Inputs;
    SelectOne(front, r, IsWithdrawal);
    if r.WithdrawalRow? { InputsOne(WithdrawalsIn(front), r); }
  }

  lemma NothingFlows(owner: string)
    ensures Inflow([], owner) == StrayInflow([], owner) == DepositSum(Records(DepositsIn([])), owner) == 0
    ensures Outflow([], owner) == StrayOutflow([], owner) == WithdrawalSum(Inputs(WithdrawalsIn([])), owner) == 0
  {
  }

  /** What the witness builder sums, plus what it overlooks, is what the account really moved. */
  lemma {:induction false} InflowSplits(rows: seq<Row>, owner: string)
    requires Trimmed(owner)
    ensures Inflow(rows, owner) == DepositSum(Records(DepositsIn(rows)), owner) + StrayInflow(rows, owner)
    decreases |rows|
  {
    hide *;
    if rows == [] {
      NothingFlows(owner);
    } else {
      var front, r := rows[..|rows| - 1], rows[|rows| - 1];
      assert rows == front + [r];
      InflowSplits(front, owner);
      InflowOne(front, r, owner);
      ListedRecordsOne(front, r);
      TrimmedIsTrim(owner);
      if r.DepositRow? {
        OwnerOfRow(r);
        ListedKinds(front);
        DepositSumOne(Records(DepositsIn(front)), r.record, owner);
      }
    }
  }

  lemma OwnerOfRow(r: Row)
    ensures r.DepositRow? ==> r.Owner() == r.record.owner
    ensures r.WithdrawalRow? ==> r.Owner() == r.request.owner
  {
  }

  lemma {:induction false} OutflowSplits(rows: seq<Row>, owner: string)
    requires Trimmed(owner)
    ensures Outflow(rows, owner) == WithdrawalSum(Inputs(WithdrawalsIn(rows)), owner) + StrayOutflow(rows, owner)
    decreases |rows|
  {
    hide *;
    if rows == [] {
      NothingFlows(owner);
    } else {
      var front, r := rows[..|rows| - 1], rows[|rows| - 1];
      assert rows == front + [r];
      OutflowSplits(front, owner);
      OutflowOne(front, r, owner);
      ListedInputsOne(front, r);
      TrimmedIsTrim(owner);
      if r.WithdrawalRow? {
        OwnerOfRow(r);
        ListedKinds(front);
        var w := WithdrawalInput(r.request, r.nullifier, r.destinationHash);
        WithdrawalSumOne(Inputs(WithdrawalsIn(front)), w, owner);
      }
    }
  }

  // -------------------------------------------------- grouping follows the accounts

  ghost predicate Absent(gs: seq<OwnerBalance>, owner: string) {
    forall b <- gs :: b.owner != owner
  }

  ghost predicate DistinctOwners(gs: seq<OwnerBalance>) {
    forall i, j :: 0 <= i < j < |gs| ==> gs[i].owner != gs[j].owner
  }

  /** The group holds its owner's balance before the batch and after the rows seen so far. */
  predicate Tracked(b: OwnerBalance, m: Accounts, m': Accounts, denom: string) {
    && b.denom == denom
    && b.oldBalance == Decimal(Balance(m, Key(b.owner, denom)))
    && b.newBalance == Decimal(Balance(m', Key(b.owner, denom)))
  }

  ghost predicate Tracks(gs: seq<OwnerBalance>, m: Accounts, m': Accounts, denom: string) {
    && DistinctOwners(gs)
    && (forall i :: 0 <= i < |gs| ==> Tracked(gs[i], m, m', denom))
    && (forall owner :: Absent(gs, owner) ==> Balance(m', Key(owner, denom)) == Balance(m, Key(owner, denom)))
  }

  ghost predicate OnlyBalanceMoved(m: Accounts, m': Accounts, k: Key) {
    forall j :: j != k ==> Balance(m', j) == Balance(m, j)
  }

  lemma NotOwner(gs: seq<OwnerBalance>, owner: string, i: nat)
    requires Absent(gs, owner) && i < |gs|
    ensures gs[i].owner != owner
  {
    assert gs[i] in gs;
  }

  lemma TrackedStays(b: OwnerBalance, m0: Accounts, m: Accounts, m': Accounts, denom: string, owner: string)
    requires Tracked(b, m0, m, denom) && b.owner != owner && OnlyBalanceMoved(m, m', Key(owner, denom))
    ensures Tracked(b, m0, m', denom)
  {
    hide Decimal, Balance;
  }

  lemma TrackedFirst(b: OwnerBalance, gs: seq<OwnerBalance>, m0: Accounts, m: Accounts, m': Accounts, denom: string)
    requires Tracked(b, m, m', denom) && Tracks(gs, m0, m, denom) && Absent(gs, b.owner)
    ensures Tracked(b, m0, m', denom)
  {
    hide Decimal, Balance, Absent, DistinctOwners;
  }

  lemma AbsentUnmoved(gs: seq<OwnerBalance>, m0: Accounts, m: Accounts, m': Accounts, denom: string, owner: string,
                      other: string)
    requires Tracks(gs, m0, m, denom) && Absent(gs, owner) && owner != other &&
              OnlyBalanceMoved(m, m', Key(other, denom))
    ensures Balance(m', Key(owner, denom)) == Balance(m0, Key(owner, denom))
  {
    hide Balance, Absent, DistinctOwners, Tracked;
  }

  lemma TracksParts(gs: seq<OwnerBalance>, m: Accounts, m': Accounts, denom: string)
    requires Tracks(gs, m, m', denom)
    ensures DistinctOwners(gs) && forall i :: 0 <= i < |gs| ==> Tracked(gs[i], m, m', denom)
  {
    hide Balance, Absent, DistinctOwners, Tracked;
  }

  lemma MakeTracks(gs: seq<OwnerBalance>, m: Accounts, m': Accounts, denom: string)
    requires DistinctOwners(gs) && forall i :: 0 <= i < |gs| ==> Tracked(gs[i], m, m', denom)
    requires forall owner :: Absent(gs, owner) ==> Balance(m', Key(owner, denom)) == Balance(m, Key(owner, denom))
    ensures Tracks(gs, m, m', denom)
  {
    hide Balance, Absent, DistinctOwners, Tracked;
  }

  lemma DistinctNew(gs: seq<OwnerBalance>, b: OwnerBalance)
    requires DistinctOwners(gs) && Absent(gs, b.owner)
    ensures DistinctOwners(gs + [b])
  {
  }

  lemma DistinctSet(gs: seq<OwnerBalance>, n: nat, b: OwnerBalance)
    requires DistinctOwners(gs) && n < |gs| && b.owner == gs[n].owner
    ensures DistinctOwners(gs[n := b])
    ensures forall i :: 0 <= i < |gs| && i != n ==> gs[i].owner != b.owner
  {
  }

  lemma TracksNew(gs: seq<OwnerBalance>, m0: Accounts, m: Accounts, m': Accounts, denom: string, b: OwnerBalance)
    requires Tracks(gs, m0, m, denom) && Absent(gs, b.owner) && OnlyBalanceMoved(m, m', Key(b.owner, denom))
    requires Tracked(b, m, m', denom)
    ensures Tracks(gs + [b], m0, m', denom)
  {
    hide *;
    TracksParts(gs, m0, m, denom);
    DistinctNew(gs, b);
    OneMoreOwner(gs, b);
    TrackedFirst(b, gs, m0, m, m', denom);
    forall i: nat | i < |gs| ensures Tracked(gs[i], m0, m', denom) {
      NotOwner(gs, b.owner, i);
      TrackedStays(gs[i], m0, m, m', denom, b.owner);
    }
    forall owner | Absent(gs + [b], owner) ensures Balance(m', Key(owner, denom)) == Balance(m0, Key(owner, denom)) {
      AbsentUnmoved(gs, m0, m, m', denom, owner, b.owner);
    }
    MakeTracks(gs + [b], m0, m', denom);
  }

  lemma TracksSet(gs: seq<OwnerBalance>, m0: Accounts, m: Accounts, m': Accounts, denom: string, n: nat,
                  b: OwnerBalance)
    requires Tracks(gs, m0, m, denom) && n < |gs| && OnlyBalanceMoved(m, m', Key(gs[n].owner, denom))
    requires b.owner == gs[n].owner && Tracked(b, m0, m', denom)
    ensures Tracks(gs[n := b], m0, m', denom)
  {
    hide *;
    TracksParts(gs, m0, m, denom);
    DistinctSet(gs, n, b);
    SameOwners(gs, n, b);
    forall i: nat | i < |gs| && i != n ensures Tracked(gs[i], m0, m', denom) {
      TrackedStays(gs[i], m0, m, m', denom, b.owner);
    }
    forall owner | Absent(gs[n := b], owner) ensures Balance(m', Key(owner, denom)) == Balance(m0, Key(owner, denom)) {
      AbsentUnmoved(gs, m0, m, m', denom, owner, b.owner);
    }
    MakeTracks(gs[n := b], m0, m', denom);
  }

  /** One more row: the touched owner's new balance moves on, the others stay. */
  lemma GroupedTracks(gs: seq<OwnerBalance>, m0: Accounts, m: Accounts, m': Accounts, denom: string, r: Row)
    requires Tracks(gs, m0, m, denom) && !Blank(r.Owner()) && !Blank(r.Denom()) && Trim(r.Denom()) == denom
    requires OnlyBalanceMoved(m, m', Key(Trim(r.Owner()), denom))
    requires r.balanceBefore == Decimal(Balance(m, Key(Trim(r.Owner()), denom)))
    requires r.balanceAfter == Decimal(Balance(m', Key(Trim(r.Owner()), denom)))
    ensures Grouped(gs, r).Success? && Tracks(Grouped(gs, r).value, m0, m', denom)
    ensures forall owner :: !Absent(Grouped(gs, r).value, owner) <==> !Absent(gs, owner) || owner == Trim(r.Owner())
  {
    hide Position, Trim, Decimal, Balance;
    var owner := Trim(r.Owner());
    var n := Position(gs, owner);
    if n < |gs| {
      assert Tracked(gs[n], m0, m, denom);
      var b := gs[n].(newBalance := r.balanceAfter);
      assert Tracked(b, m0, m', denom);
      hide Tracks, Tracked, OnlyBalanceMoved;
      TracksSet(gs, m0, m, m', denom, n, b);
      SameOwners(gs, n, b);
    } else {
      var b := OwnerBalance(owner, denom, r.balanceBefore, r.balanceAfter);
      assert Tracked(b, m, m', denom);
      hide Tracks, Tracked, OnlyBalanceMoved;
      TracksNew(gs, m0, m, m', denom, b);
      OneMoreOwner(gs, b);
    }
  }

  lemma SameOwners(gs: seq<OwnerBalance>, n: nat, b: OwnerBalance)
    requires n < |gs| && b.owner == gs[n].owner
    ensures forall owner :: Absent(gs[n := b], owner) <==> Absent(gs, owner)
    ensures !Absent(gs, b.owner)
  {
    var hs := gs[n := b];
    assert gs[n] in gs && hs[n] in hs;
    forall owner ensures Absent(hs, owner) <==> Absent(gs, owner) {
      if Absent(hs, owner) {
        forall c | c in gs ensures c.owner != owner {
          var i :| 0 <= i < |gs| && gs[i] == c;
          assert hs[i] in hs;
        }
      }
      if Absent(gs, owner) {
        forall c | c in hs ensures c.owner != owner {
          var i :| 0 <= i < |hs| && hs[i] == c;
          assert gs[i] in gs;
        }
      }
    }
  }

  lemma OneMoreOwner(gs: seq<OwnerBalance>, b: OwnerBalance)
    ensures forall owner :: Absent(gs + [b], owner) <==> Absent(gs, owner) && owner != b.owner
  {
    assert forall c :: c in gs + [b] <==> c in gs || c == b;
  }

  // --------------------------------------------------- a stretch of the log as a batch

  ghost predicate UniformKeys(rows: seq<Row>, denom: string) {
    forall i :: 0 <= i < |rows| ==> Trim(rows[i].Denom()) == denom
  }

  lemma MoveOfRow(r: Row)
    requires MoveOf(r.Op()).Some?
    ensures var mv := MoveOf(r.Op()).value;
            && mv.key == Key(Trim(r.Owner()), Trim(r.Denom())) && mv.Credit? == r.DepositRow?
            && mv.amount == (if r.DepositRow? then Value(r.record.amount) else Value(r.request.amount)) && mv.amount > 0
            && !Blank(r.Owner()) && !Blank(r.Denom())
  {
    hide Trim, ParseNonNegative;
  }

  lemma MoveMovesOneBalance(l: Ledger, mv: Move)
    requires Enabled(l, mv)
    ensures OnlyBalanceMoved(l.accounts, After(l, mv).accounts, mv.key)
    ensures Balance(After(l, mv).accounts, mv.key) + (if mv.Debit? then mv.amount else 0) ==
            Balance(l.accounts, mv.key) + if mv.Credit? then mv.amount else 0
  {
    hide RootOf;
  }

  lemma StepOfRow(g: string, rows: seq<Row>, ledger: Ledger, i: nat)
    requires Faithful(g, rows, ledger) && i < |rows|
    ensures var (l, l', r, mv) := (LedgerAt(g, rows, i), LedgerAt(g, rows, i + 1), rows[i], MoveOf(rows[i].Op()));
            && mv.Some? && Enabled(l, mv.value) && l' == After(l, mv.value)
            && r.balanceBefore == Decimal(Balance(l.accounts, mv.value.key))
            && r.balanceAfter == Decimal(Balance(l'.accounts, mv.value.key))
  {
    hide MoveOf, Playable, Play, Derived, Decimal, UniqueKeys, After, Enabled;
    assert Recorded(g, rows, i);
    PlayPrefix(Genesis(g), MovesOf(rows), i);
  }

  lemma UniformFront(rows: seq<Row>, p: nat, n: nat, denom: string)
    requires 0 < n && p + n <= |rows| && UniformKeys(rows[p..p + n], denom)
    ensures UniformKeys(rows[p..p + n - 1], denom) && Trim(rows[p + n - 1].Denom()) == denom
    ensures rows[p..p + n] == rows[p..p + n - 1] + [rows[p + n - 1]]
  {
    var batch := rows[p..p + n];
    assert batch[n - 1] == rows[p + n - 1];
    hide *;
    var front := rows[p..p + n - 1];
    forall i | 0 <= i < |front| ensures Trim(front[i].Denom()) == denom {
      assert front[i] == batch[i];
    }
  }

  lemma GroupByOwnerOne(front: seq<Row>, r: Row)
    ensures GroupByOwner(front + [r]) ==
            if GroupByOwner(front).Failure? then GroupByOwner(front) else Grouped(GroupByOwner(front).value, r)
  {
    assert (front + [r])[..|front|] == front;
  }

  lemma FlowOne(front: seq<Row>, r: Row, owner: string)
    requires MoveOf(r.Op()).Some?
    ensures var (mine, mv) := (Trim(r.Owner()) == owner, MoveOf(r.Op()).value);
            && Inflow(front + [r], owner) == Inflow(front, owner) + (if mine && mv.Credit? then mv.amount else 0)
            && Outflow(front + [r], owner) == Outflow(front, owner) + (if mine && mv.Debit? then mv.amount else 0)
  {
    hide *;
    MoveOfRow(r);
    InflowOne(front, r, owner);
    OutflowOne(front, r, owner);
  }

  /** One more row moves the balance of account `owner` by what it adds to the flows. */
  lemma BalanceOne(l: Ledger, front: seq<Row>, r: Row, owner: string, denom: string)
    requires MoveOf(r.Op()).Some? && Enabled(l, MoveOf(r.Op()).value) && Trim(r.Denom()) == denom
    ensures var (mv, k) := (MoveOf(r.Op()).value, Key(owner, denom));
            Balance(After(l, mv).accounts, k) + Outflow(front + [r], owner) + Inflow(front, owner) ==
            Balance(l.accounts, k) + Inflow(front + [r], owner) + Outflow(front, owner)
  {
    hide Inflow, Outflow, MoveOf, After, Enabled, Balance, Trim;
    MoveOfRow(r);
    FlowOne(front, r, owner);
    MoveMovesOneBalance(l, MoveOf(r.Op()).value);
  }

  /** Over any stretch of the log in one denom every balance moves by inflow minus outflow. */
  lemma {:induction false} StretchFlows(g: string, rows: seq<Row>, ledger: Ledger, p: nat, n: nat, denom: string,
                                        owner: string)
    requires Faithful(g, rows, ledger) && p + n <= |rows| && UniformKeys(rows[p..p + n], denom)
    ensures var (batch, k) := (rows[p..p + n], Key(owner, denom));
            Balance(LedgerAt(g, rows, p + n).accounts, k) + Outflow(batch, owner) ==
            Balance(LedgerAt(g, rows, p).accounts, k) + Inflow(batch, owner)
    decreases n
  {
    hide *;
    FaithfulLedger(g, rows, ledger);
    if n == 0 {
      assert rows[p..p + n] == [];
      NothingFlows(owner);
    } else {
      UniformFront(rows, p, n, denom);
      StretchFlows(g, rows, ledger, p, n - 1, denom, owner);
      StepOfRow(g, rows, ledger, p + n - 1);
      BalanceOne(LedgerAt(g, rows, p + n - 1), rows[p..p + n - 1], rows[p + n - 1], owner, denom);
    }
  }

  /** Over the same stretch grouping succeeds, tracks the accounts and names exactly its owners. */
  lemma {:induction false} StretchGroups(g: string, rows: seq<Row>, ledger: Ledger, p: nat, n: nat, denom: string)
    requires Faithful(g, rows, ledger) && p + n <= |rows| && UniformKeys(rows[p..p + n], denom)
    ensures var (batch, m, m') := (rows[p..p + n], LedgerAt(g, rows, p).accounts, LedgerAt(g, rows, p + n).accounts);
            && GroupByOwner(batch).Success? && Tracks(GroupByOwner(batch).value, m, m', denom)
            && NamesOwners(GroupByOwner(batch).value, batch)
    decreases n
  {
    hide *;
    FaithfulLedger(g, rows, ledger);
    var m := LedgerAt(g, rows, p).accounts;
    if n == 0 {
      assert rows[p..p + n] == [];
      TracksNothing(m, denom);
    } else {
      var front, r := rows[p..p + n - 1], rows[p + n - 1];
      UniformFront(rows, p, n, denom);
      StretchGroups(g, rows, ledger, p, n - 1, denom);
      StepOfRow(g, rows, ledger, p + n - 1);
      MoveOfRow(r);
      var l := LedgerAt(g, rows, p + n - 1);
      MoveMovesOneBalance(l, MoveOf(r.Op()).value);
      GroupByOwnerOne(front, r);
      GroupedTracks(GroupByOwner(front).value, m, l.accounts, LedgerAt(g, rows, p + n).accounts, denom, r);
      NamesOneMore(GroupByOwner(front).value, Grouped(GroupByOwner(front).value, r).value, front, r);
    }
  }

  /** The groups are the owners the stretch touches. */
  ghost predicate NamesOwners(gs: seq<OwnerBalance>, rows: seq<Row>) {
    forall owner :: !Absent(gs, owner) <==> Touched(rows, owner)
  }

  lemma NamesOneMore(gs: seq<OwnerBalance>, hs: seq<OwnerBalance>, front: seq<Row>, r: Row)
    requires NamesOwners(gs, front)
    requires forall owner :: !Absent(hs, owner) <==> !Absent(gs, owner) || owner == Trim(r.Owner())
    ensures NamesOwners(hs, front + [r])
  {
    hide Absent, Touched, Trim;
    forall owner ensures !Absent(hs, owner) <==> Touched(front + [r], owner) {
      TouchedOne(front, r, owner);
    }
  }

  /** Some row of the stretch belongs to this (trimmed) owner. */
  predicate Touched(rows: seq<Row>, owner: string) { exists r <- rows :: Trim(r.Owner()) == owner }

  lemma TouchedOne(front: seq<Row>, r: Row, owner: string)
    ensures Touched(front + [r], owner) <==> Touched(front, owner) || owner == Trim(r.Owner())
  {
    hide Trim;
    assert forall t :: t in front + [r] <==> t in front || t == r;
  }

  lemma TracksNothing(m: Accounts, denom: string)
    ensures GroupByOwner([]) == Success([]) && Tracks([], m, m, denom)
    ensures NamesOwners([], [])
  {
  }
}
