/** The chain invariant over every run of the service, and what a failed pass leaves behind. */
module SettlementRuns {
  import opened Wrappers
  import opened Text
  import opened Types
  import opened Ledgers
  import opened LedgerLaws
  import opened SettlementLogs
  import opened TransitionOrder
  import opened SettlementBuilders
  import opened Witnesses
  import opened Commitments
  import opened SettlementModel
  import opened ChainInvariant
  import opened PendingBatches

  // ------------------------------------------------------------------- one build pass

  lemma PhasesArePending(rows: seq<Row>, c: nat, p: nat, n: nat, st: Status)
    requires Phased(rows, c, p, n, st) && st != Pending
    ensures PendingFrom(rows, p)
  {
    hide Numbered;
  }

  lemma LaterNumber(rows: seq<Row>, p: nat, n: nat, n': nat)
    requires Phased(rows, p, p, n, Included) && n <= n'
    ensures Phased(rows, p, p, n', Included)
  {
    hide BatchId;
    forall i | 0 <= i < p ensures Numbered(rows[i].mark, n' + 1) {
      assert Numbered(rows[i].mark, n + 1);
      var k: nat :| k < n + 1 && rows[i].mark.batchId == Some(BatchId(k));
    }
  }

  lemma InvParts(g: string, s: State, c: nat, p: nat)
    requires Inv(g, s, c, p)
    ensures Faithful(g, s.rows, s.ledger) && Phased(s.rows, c, p, s.counter, Included) && Replayable(g, s.rows)
    ensures PendingFrom(s.rows, p) && UniqueKeys(s.rows)
    ensures c <= p <= |s.rows| && CursorOf(s).committedRoot == LedgerAt(g, s.rows, c).root
  {
    hide LedgerAt, Recorded;
    PhasesArePending(s.rows, c, p, s.counter, Included);
  }

  lemma NothingPending(rows: seq<Row>)
    requires PendingFrom(rows, |rows|)
    ensures Select(rows, IsPendingDeposit) == [] && Select(rows, IsPendingWithdrawal) == []
  {
    PendingIsSuffix(rows, |rows|);
    assert rows[|rows|..] == [];
  }

  lemma PlansOnlyWithRoots(rows: seq<Row>, p: nat, root: string)
    requires PendingFrom(rows, p) && p < |rows|
    requires var ds, ws := Select(rows, IsPendingDeposit), Select(rows, IsPendingWithdrawal);
             (ds != [] || ws != []) && PlanFor(root, ds, ws).Success?
    ensures RootsPresent(rows[p..])
  {
    hide Select, Blank, LinkedFrom, DistinctStarts;
    PendingIsSuffix(rows, p);
    ListingsPermute(rows[p..]);
    var ds, ws := DepositsIn(rows[p..]), WithdrawalsIn(rows[p..]);
    OrderSound(root, ds, ws);
    hide Ordered;
    forall t | t in rows[p..] ensures t in ds + ws {
      assert t in multiset(rows[p..]);
    }
  }

  /**
   * A build in a reachable state emits the next rows of the log under the next number, or changes
   * no row. It emits nothing while a batch is outstanding or nothing is pending.
   */
  lemma BuildEmitsNextBatch(g: string, s: State, c: nat, p: nat, secrets: seq<AccountSecret>)
    requires GenesisApart(g) && Inv(g, s, c, p)
    ensures var (s', r) := BuildPendingBatch(s, secrets);
            && s'.ledger == s.ledger && s'.cursor == Some(CursorOf(s))
            && (p == |s.rows| ==> r == Failure(NoPendingSettlementOperations) && s'.counter == s.counter)
            && (c < p < |s.rows| ==> r == Failure(InvalidPendingSettlement) && s'.counter == s.counter)
            && (r.Failure? ==> s'.rows == s.rows && s.counter <= s'.counter)
    ensures BuildPendingBatch(s, secrets).1.Success? ==>
              c == p < |s.rows| && EmitsRows(s, NextBatch(s.rows, p), BuildPendingBatch(s, secrets))
    ensures c == p < |s.rows| && RootsPresent(s.rows[p..]) ==>
              var batch := NextBatch(s.rows, p);
              BuildPendingBatch(s, secrets) ==
              Emit(WithCursor(s),
                   Plan(batch, DepositsIn(batch), WithdrawalsIn(batch), InputOf(CursorOf(s).committedRoot, batch)),
                   secrets)
  {
    hide LedgerAt, Faithful, Phased, Chained, RootsPresent, GenesisApart, Select, Acceptable, WitnessAcceptable,
         WitnessAccounts, UpdateFor, WitnessFor, CommitmentsFor, WithIncluded, UniqueKeys, Replayable, PlanFor,
         NextBatch;
    InvParts(g, s, c, p);
    if p == |s.rows| {
      NothingPending(s.rows);
    } else if c < p {
      PlansNothingWhileOutstanding(g, s.rows, s.ledger, c, p);
    } else {
      var root := CursorOf(s).committedRoot;
      ListedWhenPending(s.rows, p);
      if PlanFor(root, Select(s.rows, IsPendingDeposit), Select(s.rows, IsPendingWithdrawal)).Success? {
        PlansOnlyWithRoots(s.rows, p, root);
      }
      if RootsPresent(s.rows[p..]) {
        PlansNextBatch(g, s.rows, s.ledger, p);
        NextBatchSlice(s.rows, p);
        UpdateNumber(InputOf(root, NextBatch(s.rows, p)), s.counter + 1);
      }
    }
  }

  lemma UpdateNumber(input: SettlementInputs, n: nat)
    ensures UpdateFor(input, n).batchId == BatchId(n)
  {
  }

  lemma ListedWhenPending(rows: seq<Row>, p: nat)
    requires PendingFrom(rows, p) && p < |rows|
    ensures Select(rows, IsPendingDeposit) != [] || Select(rows, IsPendingWithdrawal) != []
  {
    hide Select;
    PendingIsSuffix(rows, p);
    ListingsPermute(rows[p..]);
  }

  /** The build took exactly the rows of `batch`, numbered them next, and put them into the update. */
  ghost predicate EmitsRows(s: State, batch: seq<Row>, built: (State, Result<BuildOutput>)) {
    && batch != [] && built.1.Success?
    && built.0.counter == s.counter + 1
    && built.0.rows == WithIncluded(s.rows, BatchId(s.counter + 1), Ids(DepositsIn(batch)), Ids(WithdrawalsIn(batch)))
    && var input := InputOf(CursorOf(s).committedRoot, batch);
       built.1.value.update == UpdateFor(input, s.counter + 1) &&
       built.1.value.commitments == CommitmentsFor(built.1.value.update) &&
       Acceptable(input)
  }

  lemma BuildKeeps(g: string, s: State, c: nat, p: nat, secrets: seq<AccountSecret>)
    requires GenesisApart(g) && Inv(g, s, c, p)
    ensures var (s', r) := BuildPendingBatch(s, secrets);
            Inv(g, s', c, if r.Success? then p + |NextBatch(s.rows, p)| else p)
  {
    hide LedgerAt, Faithful, Phased, RootsPresent, GenesisApart, BuildPendingBatch, InputOf, UpdateFor,
         CommitmentsFor, WithIncluded, Ids, UniqueKeys, Replayable, Acceptable, NextBatch;
    BuildEmitsNextBatch(g, s, c, p, secrets);
    InvParts(g, s, c, p);
    var (s', r) := BuildPendingBatch(s, secrets);
    if r.Success? {
      var q := p + |NextBatch(s.rows, p)|;
      NextBatchSlice(s.rows, p);
      IncludePhased(s.rows, p, q, s.counter, s'.counter);
      RemarkedFaithful(g, s.rows, s'.rows, s.ledger);
      RemarkedMoves(g, s.rows, s'.rows);
    } else if c == p {
      LaterNumber(s.rows, p, s.counter, s'.counter);
    }
  }

  // ------------------------------------------------------------------------ all runs

  datatype Event =
    | DepositEvent(deposit: DepositRecord)
    | WithdrawEvent(request: WithdrawRequest, userSecret: string)
    | BuildEvent(secrets: seq<AccountSecret>)
    | CommitEvent(batchId: string, txHash: string, newRoot: string)
    | FailEvent(batchId: string, reason: string)
    | ReopenEvent(batchId: string, reason: string)
    | MarkEvent(batchId: string, depositIds: seq<string>, withdrawIds: seq<string>)

  ghost function Next(s: State, e: Event): State {
    match e
    case DepositEvent(d) => ApplyIndexedDeposit(s, d).0
    case WithdrawEvent(w, secret) => ApplyWithdrawRequest(s, w, secret).0
    case BuildEvent(secrets) => BuildPendingBatch(s, secrets).0
    case CommitEvent(batchId, txHash, newRoot) => CommitBatch(s, batchId, txHash, newRoot)
    case FailEvent(batchId, reason) => FailBatch(s, batchId, reason)
    case ReopenEvent(batchId, reason) => CancelIncludedBatch(s, batchId, reason).0
    case MarkEvent(batchId, ds, ws) => MarkIncluded(s, batchId, ds, ws).0
  }

  /** The batch starts at the committed root, and `newRoot` is the root after its last row. */
  ghost predicate Continues(s: State, batchId: string, newRoot: string) {
    exists i, j :: 0 <= i <= j < |s.rows| && BatchSpan(s.rows, batchId, i, j) &&
      s.rows[i].rootBefore == CursorOf(s).committedRoot && s.rows[j].rootAfter == newRoot
  }

  /** Row `i` is in the batch, and row `j` is its last row. */
  ghost predicate BatchSpan(rows: seq<Row>, batchId: string, i: nat, j: nat)
    requires i <= j < |rows|
  {
    && rows[i].mark.batchId == Some(batchId) && rows[j].mark.batchId == Some(batchId)
    && forall k :: j < k < |rows| ==> rows[k].mark.batchId != Some(batchId)
  }

  /** Withdraw ids come fresh from a sequence; the chain accepts a batch only from its current root. */
  ghost predicate Lawful(s: State, e: Event) {
    match e
    case WithdrawEvent(w, _) =>
      forall i :: 0 <= i < |s.rows| && s.rows[i].WithdrawalRow? ==> s.rows[i].request.withdrawId != w.withdrawId
    case CommitEvent(batchId, _, newRoot) => Continues(s, batchId, newRoot)
    case _ => true
  }

  /** Besides: no settled batch is turned down, and only what was turned down is marked by hand. */
  ghost predicate Allowed(s: State, e: Event) {
    && Lawful(s, e)
    && match e
       case FailEvent(batchId, _) =>
         forall i :: 0 <= i < |s.rows| && s.rows[i].mark.status == Committed ==> s.rows[i].mark.batchId != Some(batchId)
       case MarkEvent(batchId, ds, ws) =>
         forall i :: 0 <= i < |s.rows| ==>
           && (Named(s.rows[i], ds, ws) <==> s.rows[i].mark.status == Failed)
           && (s.rows[i].mark.status == Failed ==> s.rows[i].mark.batchId == Some(batchId))
       case _ => true
  }

  /** The one batch a commit can be lawful for is the one between the frontiers. */
  lemma ContinuesIsNext(g: string, s: State, c: nat, p: nat, st: Status, batchId: string, newRoot: string)
    requires GenesisApart(g) && Chained(g, s, c, p, st) && Continues(s, batchId, newRoot)
    ensures c < p <= |s.rows| && Replayable(g, s.rows)
    ensures batchId == BatchId(s.counter) && newRoot == LedgerAt(g, s.rows, p).root
  {
    hide LedgerAt, Faithful, Phased, Chained, BatchId, Replayable, GenesisApart, BatchSpan;
    ChainedParts(g, s, c, p, st);
    var i, j :| 0 <= i <= j < |s.rows| && BatchSpan(s.rows, batchId, i, j) &&
      s.rows[i].rootBefore == CursorOf(s).committedRoot && s.rows[j].rootAfter == newRoot;
    RowRoots(g, s.rows, s.ledger, i);
    if i < c { StartsDistinct(g, s.rows, s.ledger, i, c); }
    if c < i { StartsDistinct(g, s.rows, s.ledger, c, i); }
    SpanIsStretch(s.rows, c, p, s.counter, st, batchId, j);
    RowRoots(g, s.rows, s.ledger, p - 1);
  }

  lemma SpanIsStretch(rows: seq<Row>, c: nat, p: nat, n: nat, st: Status, batchId: string, j: nat)
    requires Phased(rows, c, p, n, st) && c <= j < |rows| && BatchSpan(rows, batchId, c, j)
    ensures c < p && batchId == BatchId(n) && j == p - 1
  {
    hide BatchId, Numbered;
    assert c < p;
    BatchRows(rows, c, p, n, st);
    assert rows[p - 1].mark.batchId == Some(BatchId(n));
  }

  /** Nothing can be built while the batch between the frontiers is outstanding or turned down. */
  lemma BuildIdles(g: string, s: State, c: nat, p: nat, st: Status, secrets: seq<AccountSecret>)
    requires GenesisApart(g) && Chained(g, s, c, p, st) && c < p
    ensures BuildPendingBatch(s, secrets).0 == s && BuildPendingBatch(s, secrets).1.Failure?
  {
    hide GenesisApart, LedgerAt, Faithful, Replayable, Select, PlanFor, Emit, Chained, Phased, PendingFrom;
    ChainedParts(g, s, c, p, st);
    CursorSet(g, s, c, p, st);
    PhasesArePending(s.rows, c, p, s.counter, st);
    if p == |s.rows| {
      NothingPending(s.rows);
    } else {
      PlansNothingWhileOutstanding(g, s.rows, s.ledger, c, p);
    }
  }

  lemma MarkPhased(rows: seq<Row>, c: nat, p: nat, n: nat, st: Status, ds: seq<string>, ws: seq<string>)
    requires Phased(rows, c, p, n, st) && c < p
    requires forall i :: 0 <= i < |rows| ==> (Named(rows[i], ds, ws) <==> c <= i < p)
    ensures var rows' := WithIncluded(rows, BatchId(n), ds, ws);
            Remarked(rows, rows') && Phased(rows', c, p, n, Included)
  {
    hide BatchId, Numbered, Named;
  }

  /** Marking the rows of the turned-down batch as included again, under their own id, ends the halt. */
  lemma MarkKeeps(g: string, s: State, c: nat, p: nat, st: Status, batchId: string, ds: seq<string>, ws: seq<string>)
    requires Chained(g, s, c, p, st) && Allowed(s, MarkEvent(batchId, ds, ws))
    ensures st == Included || !AllFound(s.rows, ds, ws) ==> MarkIncluded(s, batchId, ds, ws).0 == s
    ensures st == Failed && AllFound(s.rows, ds, ws) ==> Inv(g, MarkIncluded(s, batchId, ds, ws).0, c, p)
  {
    hide LedgerAt, BatchId, Faithful, Chained, Numbered, Named, Replayable;
    ChainedParts(g, s, c, p, st);
    if st == Included {
      assert WithIncluded(s.rows, batchId, ds, ws) == s.rows;
    } else {
      assert s.rows[c].mark.status == Failed && batchId == BatchId(s.counter);
      hide Phased;
      CursorSet(g, s, c, p, st);
      StatusPhases(s.rows, c, p, s.counter, st);
      MarkPhased(s.rows, c, p, s.counter, st, ds, ws);
      if AllFound(s.rows, ds, ws) {
        RemarkKeeps(g, s, c, p, st, MarkIncluded(s, batchId, ds, ws).0, c, p, Included);
      }
    }
  }

  lemma StatusPhases(rows: seq<Row>, c: nat, p: nat, n: nat, st: Status)
    requires Phased(rows, c, p, n, st) && st != Pending && st != Committed
    ensures forall i :: 0 <= i < |rows| ==> (rows[i].mark.status == st <==> c <= i < p)
    ensures forall i :: 0 <= i < |rows| ==> (rows[i].mark.status == Committed <==> i < c)
  {
    hide Numbered;
  }

  /** A batch turned down that is not settled is the one between the frontiers, or no row's. */
  lemma FailKeeps(g: string, s: State, c: nat, p: nat, st: Status, batchId: string, reason: string)
    requires Chained(g, s, c, p, st) && Allowed(s, FailEvent(batchId, reason))
    ensures var found := batchId == BatchId(s.counter) && c < p;
            && (found ==> Halted(g, FailBatch(s, batchId, reason), c, p))
            && (!found ==> FailBatch(s, batchId, reason) == s)
  {
    hide LedgerAt, BatchId, Faithful, Chained, Numbered, Replayable, WithStatus;
    ChainedParts(g, s, c, p, st);
    if batchId == BatchId(s.counter) && c < p {
      hide Phased;
      FailHalts(g, s, c, p, st, reason);
    } else {
      NoRowsToFail(s, batchId, reason);
    }
  }

  lemma BuildStep(g: string, s: State, c: nat, p: nat, st: Status, secrets: seq<AccountSecret>) returns (p': nat)
    requires GenesisApart(g) && Chained(g, s, c, p, st)
    ensures Chained(g, BuildPendingBatch(s, secrets).0, c, p', st)
  {
    hide GenesisApart, Chained, BuildPendingBatch, NextBatch, Replayable, LedgerAt, Faithful, Phased;
    ChainedParts(g, s, c, p, st);
    if c < p {
      BuildIdles(g, s, c, p, st, secrets);
      p' := p;
    } else {
      BuildKeeps(g, s, c, p, secrets);
      p' := if BuildPendingBatch(s, secrets).1.Success? then p + |NextBatch(s.rows, p)| else p;
    }
  }

  /** Every allowed call keeps the chain, and the committed frontier never moves back. */
  lemma StepKeeps(g: string, s: State, c: nat, p: nat, st: Status, e: Event) returns (c': nat, p': nat, st': Status)
    requires GenesisApart(g) && Chained(g, s, c, p, st) && Allowed(s, e)
    ensures Chained(g, Next(s, e), c', p', st') && c <= c'
  {
    hide Chained, GenesisApart, ApplyIndexedDeposit, ApplyWithdrawRequest, BuildPendingBatch, CommitBatch,
         CancelIncludedBatch, FailBatch, MarkIncluded, AllFound, Continues, BatchId, Replayable, LedgerAt;
    c', p', st' := c, p, st;
    match e {
      case DepositEvent(d) => DepositKeeps(g, s, c, p, st, d);
      case WithdrawEvent(w, secret) => WithdrawalKeeps(g, s, c, p, st, w, secret);
      case BuildEvent(secrets) => p' := BuildStep(g, s, c, p, st, secrets);
      case CommitEvent(batchId, txHash, newRoot) =>
        ContinuesIsNext(g, s, c, p, st, batchId, newRoot);
        CommitKeeps(g, s, c, p, st, txHash, newRoot);
        c', st' := p, Included;
      case FailEvent(batchId, reason) =>
        FailKeeps(g, s, c, p, st, batchId, reason);
        if batchId == BatchId(s.counter) && c < p { st' := Failed; }
      case ReopenEvent(batchId, reason) =>
        ReopenKeeps(g, s, c, p, st, batchId, reason);
        if batchId == BatchId(s.counter) && c < p && st == Included { p' := c; }
      case MarkEvent(batchId, ds, ws) =>
        ChainShape(g, s, c, p, st);
        MarkKeeps(g, s, c, p, st, batchId, ds, ws);
        if AllFound(s.rows, ds, ws) { st' := Included; }
    }
  }

  lemma InvFrontier(g: string, s: State, c: nat, p: nat)
    requires Inv(g, s, c, p)
    ensures c <= p <= |s.rows| && Replayable(g, s.rows)
  {
    hide LedgerAt, Recorded, MoveOf, Playable;
  }

  ghost function RunEvents(s: State, es: seq<Event>): State {
    if es == [] then s else Next(RunEvents(s, es[..|es| - 1]), es[|es| - 1])
  }

  ghost predicate AllowedRun(s: State, es: seq<Event>) {
    es == [] || (AllowedRun(s, es[..|es| - 1]) && Allowed(RunEvents(s, es[..|es| - 1]), es[|es| - 1]))
  }

  function Initial(g: string): State { State(Genesis(g), [], None, 0) }

  lemma InitialInv(g: string)
    ensures Inv(g, Initial(g), 0, 0)
  {
  }

  /** Every reachable state satisfies the chain invariant, at some frontiers. */
  lemma {:induction false} EveryRunKeepsChain(g: string, es: seq<Event>) returns (c: nat, p: nat, st: Status)
    requires GenesisApart(g) && AllowedRun(Initial(g), es)
    ensures Chained(g, RunEvents(Initial(g), es), c, p, st)
  {
    hide Chained, Next, Allowed, GenesisApart;
    if es == [] {
      InitialInv(g);
      c, p, st := 0, 0, Included;
    } else {
      var front := es[..|es| - 1];
      c, p, st := EveryRunKeepsChain(g, front);
      c, p, st := StepKeeps(g, RunEvents(Initial(g), front), c, p, st, es[|es| - 1]);
    }
  }

  /**
   * Committing the outstanding batch overwrites the cursor's pending root with the batch's own new
   * root: it is the manager's root afterwards if and only if no row is left pending.
   */
  lemma PendingRootAfterCommit(g: string, s: State, c: nat, p: nat, txHash: string, newRoot: string)
    requires GenesisApart(g) && Inv(g, s, c, p) && c < p && newRoot == LedgerAt(g, s.rows, p).root
    ensures var s' := CommitBatch(s, BatchId(s.counter), txHash, newRoot);
            CursorOf(s').pendingRoot == s'.ledger.root <==>
            Select(s'.rows, IsPendingDeposit) == [] && Select(s'.rows, IsPendingWithdrawal) == []
  {
    hide GenesisApart, LedgerAt, Faithful, Replayable, Phased, Select, BatchId, Chained;
    InvParts(g, s, c, p);
    CommitKeeps(g, s, c, p, Included, txHash, newRoot);
    var s' := CommitBatch(s, BatchId(s.counter), txHash, newRoot);
    InvParts(g, s', p, p);
    FaithfulLedger(g, s.rows, s.ledger);
    if p < |s.rows| {
      StartsDistinct(g, s.rows, s.ledger, p, |s.rows|);
      ListedWhenPending(s'.rows, p);
    } else {
      NothingPending(s'.rows);
    }
  }

  // ------------------------------------------------------------- a pass that failed

  /** The rows agree but for their error messages. */
  ghost predicate RestoredRows(rows: seq<Row>, rows': seq<Row>) {
    Remarked(rows, rows') && forall i :: 0 <= i < |rows| ==>
      rows'[i].mark == rows[i].mark.(errorMessage := rows'[i].mark.errorMessage)
  }

  lemma IncludeThenReopen(rows: seq<Row>, p: nat, q: nat, m: nat, n: nat, reason: string)
    requires Phased(rows, p, p, m, Included) && UniqueKeys(rows) && p < q <= |rows| && m < n
    ensures var ds, ws := Ids(DepositsIn(rows[p..q])), Ids(WithdrawalsIn(rows[p..q]));
            RestoredRows(rows, WithReopened(WithIncluded(rows, BatchId(n), ds, ws), BatchId(n), reason))
  {
    var ds, ws := DepositsIn(rows[p..q]), WithdrawalsIn(rows[p..q]);
    hide BatchId, Select, Ids, Named, UniqueKeys;
    forall i: nat | i < |rows| ensures Named(rows[i], Ids(ds), Ids(ws)) <==> p <= i < q {
      NamedExactly(rows, p, q, i);
    }
    forall i | 0 <= i < p ensures rows[i].mark.batchId != Some(BatchId(n)) {
      assert Numbered(rows[i].mark, m + 1);
      var k: nat :| k < m + 1 && rows[i].mark.batchId == Some(BatchId(k));
      if BatchId(k) == BatchId(n) { BatchIdInjective(k, n); }
    }
  }

  /**
   * Build followed by reopen, as after a failed prove or submit: ledger, order, statuses and batch
   * ids are as before the pass.
   */
  lemma ReopenUndoesBuild(g: string, s: State, c: nat, p: nat, secrets: seq<AccountSecret>, reason: string)
    requires GenesisApart(g) && Inv(g, s, c, p) && BuildPendingBatch(s, secrets).1.Success?
    ensures var (s1, r) := BuildPendingBatch(s, secrets);
            var (s2, reopened) := CancelIncludedBatch(s1, r.value.update.batchId, reason);
            && reopened == Success(()) && s2.ledger == s.ledger && s2.cursor == Some(CursorOf(s))
            && RestoredRows(s.rows, s2.rows) && s2.counter == s.counter + 1
            && Inv(g, s2, p, p)
  {
    hide LedgerAt, Faithful, Phased, GenesisApart, BuildPendingBatch, InputOf, CommitmentsFor, WithIncluded,
         WithReopened, Ids, UniqueKeys, Replayable, Chained, BatchId, NextBatch, RestoredRows, Select, Acceptable;
    BuildEmitsNextBatch(g, s, c, p, secrets);
    BuildKeeps(g, s, c, p, secrets);
    InvParts(g, s, c, p);
    var (s1, r) := BuildPendingBatch(s, secrets);
    NextBatchSlice(s.rows, p);
    var q := p + |NextBatch(s.rows, p)|;
    IncludeThenReopen(s.rows, p, q, s.counter, s1.counter, reason);
    ReopenKeeps(g, s1, c, q, Included, r.value.update.batchId, reason);
  }
}
