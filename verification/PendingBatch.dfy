/** What a build pass does in a reachable state: which rows it takes, and that it keeps the chain. */
module PendingBatches {
  import opened Wrappers
  import opened Ledgers
  import opened LedgerLaws
  import opened SettlementLogs
  import opened TransitionOrder
  import opened SettlementBuilders
  import opened SettlementModel
  import opened ChainInvariant

  predicate IsDeposit(r: Row) { r.DepositRow? }

  predicate IsWithdrawal(r: Row) { r.WithdrawalRow? }

  function DepositsIn(rows: seq<Row>): seq<Row> { Select(rows, IsDeposit) }

  function WithdrawalsIn(rows: seq<Row>): seq<Row> { Select(rows, IsWithdrawal) }

  // ------------------------------------------------------------- what is pending

  /** Rows before `p` have left pending, rows from `p` on are pending. */
  predicate PendingFrom(rows: seq<Row>, p: nat) {
    p <= |rows| && forall i :: 0 <= i < |rows| ==> (rows[i].mark.status == Pending <==> p <= i)
  }

  lemma SelectOne(rows: seq<Row>, r: Row, p: Row -> bool)
    ensures Select(rows + [r], p) == if p(r) then Select(rows, p) + [r] else Select(rows, p)
  {
    assert (rows + [r])[..|rows|] == rows;
  }

  lemma SelectNone(p: Row -> bool)
    ensures Select([], p) == []
  {
  }

  lemma {:induction false} SelectFinds(rows: seq<Row>, p: Row -> bool, r: Row)
    requires r in rows && p(r)
    ensures r in Select(rows, p)
  {
    var front, last := rows[..|rows| - 1], rows[|rows| - 1];
    assert rows == front + [last];
    if r != last { SelectFinds(front, p, r); }
  }

  lemma {:induction false} PendingIsSuffix(rows: seq<Row>, p: nat)
    requires PendingFrom(rows, p)
    ensures Select(rows, IsPendingDeposit) == DepositsIn(rows[p..])
    ensures Select(rows, IsPendingWithdrawal) == WithdrawalsIn(rows[p..])
  {
    hide Select;
    if rows == [] {
      SelectNone(IsPendingDeposit);
      SelectNone(IsPendingWithdrawal);
      SelectNone(IsDeposit);
      SelectNone(IsWithdrawal);
    } else {
      var front, r := rows[..|rows| - 1], rows[|rows| - 1];
      assert rows == front + [r];
      SelectOne(front, r, IsPendingDeposit);
      SelectOne(front, r, IsPendingWithdrawal);
      if p < |rows| {
        PendingIsSuffix(front, p);
        assert rows[p..] == front[p..] + [r];
        SelectOne(front[p..], r, IsDeposit);
        SelectOne(front[p..], r, IsWithdrawal);
      } else {
        PendingIsSuffix(front, p - 1);
        assert front[p - 1..] == [] && rows[p..] == [];
      }
    }
  }

  lemma {:induction false} ListingsPermute(rows: seq<Row>)
    ensures multiset(DepositsIn(rows) + WithdrawalsIn(rows)) == multiset(rows)
    ensures |DepositsIn(rows)| + |WithdrawalsIn(rows)| == |rows|
  {
    hide Select;
    if rows == [] {
      SelectNone(IsDeposit);
      SelectNone(IsWithdrawal);
    } else {
      var front, r := rows[..|rows| - 1], rows[|rows| - 1];
      ListingsPermute(front);
      assert rows == front + [r];
      SelectOne(front, r, IsDeposit);
      SelectOne(front, r, IsWithdrawal);
      var d, w := DepositsIn(front), WithdrawalsIn(front);
      assert multiset(d + [r] + w) == multiset(d + w) + multiset{r};
      assert multiset(d + (w + [r])) == multiset(d + w) + multiset{r};
    }
  }

  lemma {:induction false} ChoosesAll(rows: seq<Row>, bounded: seq<Row>)
    requires forall r <- rows :: r in bounded
    ensures Chosen(rows, bounded) == rows
  {
    if rows != [] {
      var front, r := rows[..|rows| - 1], rows[|rows| - 1];
      assert rows == front + [r];
      ChoosesAll(front, bounded);
      assert r in bounded && SameKey(r, r);
    }
  }

  lemma ChosenOne(rows: seq<Row>, r: Row, bounded: seq<Row>)
    ensures Chosen(rows + [r], bounded) ==
              if exists t <- bounded :: SameKey(t, r) then Chosen(rows, bounded) + [r] else Chosen(rows, bounded)
  {
    assert (rows + [r])[..|rows|] == rows;
  }

  /** Selecting by id from the whole pending listing yields the bounded prefix's own rows, in order. */
  lemma {:induction false} ChoosesPrefix(rows: seq<Row>, n: nat)
    requires n <= |rows| && UniqueKeys(rows)
    ensures Chosen(DepositsIn(rows), rows[..n]) == DepositsIn(rows[..n])
    ensures Chosen(WithdrawalsIn(rows), rows[..n]) == WithdrawalsIn(rows[..n])
    decreases |rows|
  {
    hide Select, Chosen;
    if n == |rows| {
      assert rows[..n] == rows;
      ChoosesAll(DepositsIn(rows), rows);
      ChoosesAll(WithdrawalsIn(rows), rows);
    } else {
      var front, r := rows[..|rows| - 1], rows[|rows| - 1];
      assert front[..n] == rows[..n] && rows == front + [r];
      ChoosesPrefix(front, n);
      ChoosesNone(rows, n);
      SelectOne(front, r, IsDeposit);
      SelectOne(front, r, IsWithdrawal);
      ChosenOne(DepositsIn(front), r, rows[..n]);
      ChosenOne(WithdrawalsIn(front), r, rows[..n]);
    }
  }

  lemma ChoosesNone(rows: seq<Row>, n: nat)
    requires n < |rows| && UniqueKeys(rows)
    ensures forall t <- rows[..n] :: !SameKey(t, rows[|rows| - 1])
  {
    forall t | t in rows[..n] ensures !SameKey(t, rows[|rows| - 1]) {
      var i :| 0 <= i < n && rows[..n][i] == t;
      assert rows[i] == t;
    }
  }

  // ----------------------------------------------------------------- planning a batch

  /** The pending rows the next batch takes: up to and including the first withdrawal. */
  function NextBatch(rows: seq<Row>, p: nat): seq<Row>
    requires p <= |rows|
  {
    rows[p..][..BoundLength(rows[p..])]
  }

  lemma NextBatchSlice(rows: seq<Row>, p: nat)
    requires p <= |rows|
    ensures p + |NextBatch(rows, p)| <= |rows|
    ensures NextBatch(rows, p) == rows[p..p + |NextBatch(rows, p)|]
    ensures p < |rows| ==> NextBatch(rows, p) != []
  {
  }

  /** The settlement input of a batch of rows taken in log order. */
  function InputOf(oldRoot: string, batch: seq<Row>): SettlementInputs
    requires batch != []
  {
    SettlementInputs(oldRoot, batch[|batch| - 1].rootAfter, Records(DepositsIn(batch)), Inputs(WithdrawalsIn(batch)))
  }

  lemma PendingLinked(g: string, rows: seq<Row>, ledger: Ledger, p: nat)
    requires Faithful(g, rows, ledger) && p <= |rows|
    ensures LinkedFrom(LedgerAt(g, rows, p).root, rows[p..])
  {
    hide LedgerAt, Faithful, Replayable;
    FaithfulLedger(g, rows, ledger);
    FaithfulConsecutive(g, rows, ledger);
    if p < |rows| { RowRoots(g, rows, ledger, p); }
    assert forall i :: 0 <= i < |rows[p..]| ==> rows[p..][i] == rows[p + i];
  }

  lemma StartsDistinct(g: string, rows: seq<Row>, ledger: Ledger, i: nat, j: nat)
    requires GenesisApart(g) && Faithful(g, rows, ledger) && i < j <= |rows|
    ensures LedgerAt(g, rows, i).root != LedgerAt(g, rows, j).root
  {
    FaithfulLedger(g, rows, ledger);
    hide GenesisApart, Playable, Play, Recorded, UniqueKeys;
    RootsNeverRepeat(g, MovesOf(rows), i, j);
  }

  lemma RowStartsDistinct(g: string, rows: seq<Row>, ledger: Ledger, i: nat, j: nat)
    requires GenesisApart(g) && Faithful(g, rows, ledger) && i < j < |rows|
    ensures LedgerAt(g, rows, i).root == rows[i].rootBefore != rows[j].rootBefore
  {
    FaithfulLedger(g, rows, ledger);
    hide LedgerAt, Faithful, GenesisApart, Replayable;
    RowRoots(g, rows, ledger, i);
    RowRoots(g, rows, ledger, j);
    StartsDistinct(g, rows, ledger, i, j);
  }

  lemma PendingStartsDistinct(g: string, rows: seq<Row>, ledger: Ledger, p: nat)
    requires GenesisApart(g) && Faithful(g, rows, ledger) && p <= |rows|
    ensures DistinctStarts(rows[p..])
  {
    hide LedgerAt, Faithful, GenesisApart, Replayable;
    forall i, j | 0 <= i < j < |rows[p..]| ensures rows[p..][i].rootBefore != rows[p..][j].rootBefore {
      RowStartsDistinct(g, rows, ledger, p + i, p + j);
    }
  }

  lemma RowsUniqueFrom(rows: seq<Row>, p: nat)
    requires UniqueKeys(rows) && p <= |rows|
    ensures UniqueKeys(rows[p..])
  {
  }

  lemma SomeListed(rows: seq<Row>)
    requires rows != []
    ensures DepositsIn(rows) != [] || WithdrawalsIn(rows) != []
  {
    hide *;
    ListingsPermute(rows);
  }

  lemma BoundedPrefix(rows: seq<Row>)
    requires rows != []
    ensures BoundLength(rows) <= |rows| && rows[..BoundLength(rows)] != []
  {
    hide BoundLength;
  }

  lemma PlanForIs(root: string, ds: seq<Row>, ws: seq<Row>, ordered: seq<Row>, bounded: seq<Row>)
    requires (forall r <- ds :: r.DepositRow?) && (forall r <- ws :: r.WithdrawalRow?) && (ds != [] || ws != [])
    requires Ordered(root, ds, ws) == Success(ordered)
    requires BoundLength(ordered) <= |ordered| && bounded == ordered[..BoundLength(ordered)] && bounded != []
    ensures PlanFor(root, ds, ws) ==
            Success(Plan(bounded, Chosen(ds, bounded), Chosen(ws, bounded),
                         SettlementInputs(root, bounded[|bounded| - 1].rootAfter,
                                          Records(Chosen(ds, bounded)), Inputs(Chosen(ws, bounded)))))
  {
    hide Ordered, BoundLength, Chosen, Records, Inputs, LinkedFrom, RootsPresent, DistinctStarts, Select;
  }

  lemma InputOfIs(root: string, batch: seq<Row>)
    requires batch != []
    ensures (forall r <- DepositsIn(batch) :: r.DepositRow?) && (forall r <- WithdrawalsIn(batch) :: r.WithdrawalRow?)
    ensures InputOf(root, batch) ==
            SettlementInputs(root, batch[|batch| - 1].rootAfter, Records(DepositsIn(batch)),
              Inputs(WithdrawalsIn(batch)))
  {
    hide Select, Records, Inputs;
  }

  /** Once the pending rows are back in order, the plan is their bounded prefix. */
  lemma PlanOfPrefix(root: string, rows: seq<Row>, batch: seq<Row>)
    requires rows != [] && UniqueKeys(rows)
    requires BoundLength(rows) <= |rows| && batch == rows[..BoundLength(rows)] && batch != []
    requires Ordered(root, DepositsIn(rows), WithdrawalsIn(rows)) == Success(rows)
    requires DepositsIn(rows) != [] || WithdrawalsIn(rows) != []
    ensures PlanFor(root, DepositsIn(rows), WithdrawalsIn(rows)) ==
            Success(Plan(batch, DepositsIn(batch), WithdrawalsIn(batch), InputOf(root, batch)))
  {
    hide *;
    ListedKinds(rows);
    ChoosesPrefix(rows, BoundLength(rows));
    PlanForIs(root, DepositsIn(rows), WithdrawalsIn(rows), rows, batch);
    InputOfIs(root, batch);
  }

  lemma ListedKinds(rows: seq<Row>)
    ensures (forall r <- DepositsIn(rows) :: r.DepositRow?) && (forall r <- WithdrawalsIn(rows) :: r.WithdrawalRow?)
  {
    hide Select;
  }

  lemma NextBatchOf(rows: seq<Row>, p: nat)
    requires p <= |rows|
    ensures BoundLength(rows[p..]) <= |rows[p..]| && NextBatch(rows, p) == rows[p..][..BoundLength(rows[p..])]
  {
  }

  lemma SuffixNotEmpty(rows: seq<Row>, p: nat)
    requires p < |rows|
    ensures rows[p..] != []
  {
  }

  lemma FaithfulUnique(g: string, rows: seq<Row>, ledger: Ledger)
    requires Faithful(g, rows, ledger)
    ensures UniqueKeys(rows)
  {
  }

  /** With no batch outstanding, a build plans exactly the next rows of the log. */
  lemma PlansNextBatch(g: string, rows: seq<Row>, ledger: Ledger, p: nat)
    requires GenesisApart(g) && Faithful(g, rows, ledger) && PendingFrom(rows, p) && p < |rows|
    requires RootsPresent(rows[p..])
    ensures NextBatch(rows, p) != []
    ensures var root := LedgerAt(g, rows, p).root;
            var ds, ws := Select(rows, IsPendingDeposit), Select(rows, IsPendingWithdrawal);
            var batch := NextBatch(rows, p);
            && (ds != [] || ws != [])
            && PlanFor(root, ds, ws) ==
              Success(Plan(batch, DepositsIn(batch), WithdrawalsIn(batch), InputOf(root, batch)))
  {
    hide *;
    FaithfulLedger(g, rows, ledger);
    PendingIsSuffix(rows, p);
    ListingsPermute(rows[p..]);
    PendingLinked(g, rows, ledger, p);
    PendingStartsDistinct(g, rows, ledger, p);
    FaithfulUnique(g, rows, ledger);
    RowsUniqueFrom(rows, p);
    SuffixNotEmpty(rows, p);
    NextBatchOf(rows, p);
    OrderRecovers(LedgerAt(g, rows, p).root, rows[p..], DepositsIn(rows[p..]), WithdrawalsIn(rows[p..]));
    BoundedPrefix(rows[p..]);
    SomeListed(rows[p..]);
    PlanOfPrefix(LedgerAt(g, rows, p).root, rows[p..], NextBatch(rows, p));
  }

  lemma PlanNeedsStart(root: string, ds: seq<Row>, ws: seq<Row>)
    requires (forall r <- ds :: r.DepositRow?) && (forall r <- ws :: r.WithdrawalRow?) && (ds != [] || ws != [])
    requires forall t <- ds + ws :: t.rootBefore != root
    ensures PlanFor(root, ds, ws) == Failure(InvalidPendingSettlement)
  {
    hide IndexAll, Chosen, Records, Inputs, BoundLength;
    IndexAllExactly(ds + ws);
    assert |ds + ws| > 0;
  }

  lemma ListedStart(g: string, rows: seq<Row>, ledger: Ledger, c: nat, p: nat, t: Row)
    requires GenesisApart(g) && Faithful(g, rows, ledger) && c < p < |rows| && t in rows[p..]
    ensures Replayable(g, rows) && t.rootBefore != LedgerAt(g, rows, c).root
  {
    hide LedgerAt, GenesisApart, Faithful, Replayable;
    FaithfulLedger(g, rows, ledger);
    var i :| 0 <= i < |rows[p..]| && rows[p..][i] == t;
    RowStartsDistinct(g, rows, ledger, c, p + i);
  }

  lemma ListedInSuffix(rows: seq<Row>, t: Row)
    requires t in DepositsIn(rows) + WithdrawalsIn(rows)
    ensures t in rows
  {
    hide Select;
  }

  /** While a batch is outstanding no pending row starts at the committed root, so nothing can be planned. */
  lemma PlansNothingWhileOutstanding(g: string, rows: seq<Row>, ledger: Ledger, c: nat, p: nat)
    requires GenesisApart(g) && Faithful(g, rows, ledger) && PendingFrom(rows, p) && c < p < |rows|
    ensures var ds, ws := Select(rows, IsPendingDeposit), Select(rows, IsPendingWithdrawal);
            (ds != [] || ws != []) && PlanFor(LedgerAt(g, rows, c).root, ds, ws) == Failure(InvalidPendingSettlement)
  {
    hide LedgerAt, GenesisApart, Faithful, Replayable, Select, PlanFor, IsPendingDeposit, IsPendingWithdrawal,
         PendingFrom;
    FaithfulLedger(g, rows, ledger);
    PendingIsSuffix(rows, p);
    ListingsPermute(rows[p..]);
    var root, ds, ws := LedgerAt(g, rows, c).root, DepositsIn(rows[p..]), WithdrawalsIn(rows[p..]);
    forall t: Row | t in ds + ws ensures t.rootBefore != root {
      ListedInSuffix(rows[p..], t);
      ListedStart(g, rows, ledger, c, p, t);
    }
    PlanNeedsStart(root, ds, ws);
  }

  // ------------------------------------------------------------ what marking does

  lemma IdsHold(rows: seq<Row>, r: Row)
    requires r in rows
    ensures r.Id() in Ids(rows)
  {
    var k :| 0 <= k < |rows| && rows[k] == r;
    assert Ids(rows)[k] == r.Id();
  }

  lemma IdsFrom(rows: seq<Row>, id: string) returns (r: Row)
    requires id in Ids(rows)
    ensures r in rows && r.Id() == id
  {
    var k :| 0 <= k < |rows| && Ids(rows)[k] == id;
    r := rows[k];
  }

  lemma ListedBy(rows: seq<Row>, r: Row)
    ensures r in DepositsIn(rows) <==> r in rows && r.DepositRow?
    ensures r in WithdrawalsIn(rows) <==> r in rows && r.WithdrawalRow?
  {
    hide Select;
    if r in rows {
      SelectFinds(rows, if r.DepositRow? then IsDeposit else IsWithdrawal, r);
    }
  }

  lemma SameKeyIsSameRow(rows: seq<Row>, i: nat, r: Row, p: nat, q: nat)
    requires UniqueKeys(rows) && i < |rows| && p <= q <= |rows| && r in rows[p..q] && SameKey(r, rows[i])
    ensures p <= i < q
  {
    var j :| 0 <= j < q - p && rows[p..q][j] == r;
    assert p + j == i;
  }

  lemma NamedExactly(rows: seq<Row>, p: nat, q: nat, i: nat)
    requires UniqueKeys(rows) && p <= q <= |rows| && i < |rows|
    ensures Named(rows[i], Ids(DepositsIn(rows[p..q])), Ids(WithdrawalsIn(rows[p..q]))) <==> p <= i < q
  {
    hide UniqueKeys, DepositsIn, WithdrawalsIn, Ids;
    var own := if rows[i].DepositRow? then DepositsIn(rows[p..q]) else WithdrawalsIn(rows[p..q]);
    if p <= i < q {
      assert rows[p..q][i - p] == rows[i] && rows[i] in rows[p..q];
      ListedBy(rows[p..q], rows[i]);
      IdsHold(own, rows[i]);
    }
    if rows[i].Id() in Ids(own) {
      var r := IdsFrom(own, rows[i].Id());
      ListedBy(rows[p..q], r);
      SameKeyIsSameRow(rows, i, r, p, q);
    }
  }

  /** Marking the batch included turns exactly rows `p` to `q` from pending into the new batch. */
  lemma IncludePhased(rows: seq<Row>, p: nat, q: nat, m: nat, n: nat)
    requires Phased(rows, p, p, m, Included) && UniqueKeys(rows) && p < q <= |rows| && m < n
    ensures var rows' := WithIncluded(rows, BatchId(n), Ids(DepositsIn(rows[p..q])), Ids(WithdrawalsIn(rows[p..q])));
            Remarked(rows, rows') && Phased(rows', p, q, n, Included)
  {
    var ds, ws := DepositsIn(rows[p..q]), WithdrawalsIn(rows[p..q]);
    hide *;
    forall i: nat | i < |rows| ensures Named(rows[i], Ids(ds), Ids(ws)) <==> p <= i < q {
      NamedExactly(rows, p, q, i);
    }
    var rows' := WithIncluded(rows, BatchId(n), Ids(ds), Ids(ws));
    forall i | 0 <= i < p ensures Numbered(rows'[i].mark, n) {
      assert Numbered(rows[i].mark, m + 1) && rows'[i] == rows[i];
      var k: nat :| k < m + 1 && rows[i].mark.batchId == Some(BatchId(k));
    }
  }
}
