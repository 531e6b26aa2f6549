/** The stall after a batch was turned down: when it starts, how long it lasts, what ends it. */
module StalledQueues {
  import opened Wrappers
  import opened Text
  import opened Decimals
  import opened Hashing
  import opened Types
  import opened StateRoot
  import opened Ledgers
  import opened LedgerLaws
  import opened SettlementLogs
  import opened TransitionOrder
  import opened SettlementBuilders
  import opened SettlementModel
  import opened ChainInvariant
  import opened PendingBatches
  import opened Settleability
  import opened SettlementRuns
  import opened DrainPlan
  import opened DrainedLogs
  import opened BatchServices
  import opened SequencerModel

  /** The row the cursor stands at was turned down. */
  ghost predicate Stalled(g: string, s: State, p: nat) {
    && Faithful(g, s.rows, s.ledger) && p < |s.rows| && s.rows[p].mark.status == Failed
    && s.cursor.Some? && s.cursor.value.committedRoot == LedgerAt(g, s.rows, p).root
  }

  lemma StalledParts(g: string, s: State, p: nat)
    requires Stalled(g, s, p)
    ensures Faithful(g, s.rows, s.ledger) && Replayable(g, s.rows) && UniqueKeys(s.rows)
    ensures p < |s.rows| && s.rows[p].mark.status == Failed
    ensures s.cursor == Some(CursorOf(s)) && CursorOf(s).committedRoot == LedgerAt(g, s.rows, p).root
  {
    hide LedgerAt, Recorded, MoveOf, Playable;
  }

  lemma MakeStalled(g: string, s: State, p: nat)
    requires Faithful(g, s.rows, s.ledger) && Replayable(g, s.rows) && p < |s.rows| && s.cursor.Some?
    requires s.cursor.value.committedRoot == LedgerAt(g, s.rows, p).root
    ensures Stalled(g, s, p) <==> s.rows[p].mark.status == Failed
  {
    hide LedgerAt, Faithful, Replayable;
  }

  // ------------------------------------------------------------------- how it starts

  lemma HaltedIsStalled(g: string, s: State, c: nat, p: nat)
    requires Halted(g, s, c, p)
    ensures Stalled(g, s, c)
  {
    hide LedgerAt, Faithful, Replayable, Chained, Consecutive;
    ChainedParts(g, s, c, p, Failed);
    ChainShape(g, s, c, p, Failed);
    CursorSet(g, s, c, p, Failed);
    MakeStalled(g, s, c);
  }

  lemma InvIsNotStalled(g: string, s: State, q: nat, p: nat)
    requires Inv(g, s, q, q)
    ensures !Stalled(g, s, p)
  {
    hide LedgerAt, Faithful, Replayable, Chained, Consecutive;
    ChainShape(g, s, q, q, Included);
  }

  /** The pass after a build that succeeded, for every way it can end. */
  lemma ConcludedStalls(g: string, s: State, p: nat, end: PassEnd)
    requires GenesisApart(g) && Inv(g, s, p, p) && BuildPendingBatch(s, []).1.Success?
    ensures p + |NextBatch(s.rows, p)| <= |s.rows|
    ensures var (s1, built) := BuildPendingBatch(s, []);
            var (s', r) := Concluded(s1, built.value.update, end);
            && (r == Failure(BatchNotAccepted) <==> Stalled(g, s', p))
            && (r == Failure(BatchNotAccepted) <==> end.SubmitEnded? && end.verdict.TurnedDown?)
            && (r == Failure(BatchNotAccepted) ==> Halted(g, s', p, p + |NextBatch(s.rows, p)|))
  {
    hide Chained, GenesisApart, BuildPendingBatch, NextBatch, Stalled, CancelIncludedBatch, FailBatch, CommitBatch,
         RestoredRows, Remarked;
    var (s1, built) := BuildPendingBatch(s, []);
    var s' := Concluded(s1, built.value.update, end).0;
    BuiltStretch(g, s, p);
    if end.SubmitEnded? && end.verdict.TurnedDown? {
      TurnedDownHalts(g, s, p, end);
      HaltedIsStalled(g, s', p, p + |NextBatch(s.rows, p)|);
    } else if end.SubmitEnded? && end.verdict.Accepted? {
      SettledPass(g, s, p, end.verdict.txHash);
      InvIsNotStalled(g, s', p + |NextBatch(s.rows, p)|, p);
    } else {
      ReopenUndoesBuild(g, s, p, p, [], "prove failed");
      ReopenUndoesBuild(g, s, p, p, [], "submit failed");
      InvIsNotStalled(g, s', p, p);
    }
  }

  /**
   * A pass over a queue in order stalls it if and only if the pass reports that its batch was not
   * accepted; the batch then stays behind as failed, right at the cursor.
   */
  lemma PassStallsExactly(g: string, s: State, p: nat, verifying: bool, expectedKey: string, oracle: PassOracle)
    requires GenesisApart(g) && Inv(g, s, p, p)
    ensures p <= |s.rows|
    ensures var (s', r) := SettleOnce(s, verifying, expectedKey, oracle);
            && (r == Failure(BatchNotAccepted) <==> Stalled(g, s', p))
            && (r == Failure(BatchNotAccepted) ==> Halted(g, s', p, p + |NextBatch(s.rows, p)|))
  {
    hide Chained, GenesisApart, BuildPendingBatch, NextBatch, Stalled, Concluded, EndOf, EmitsRows, Emit,
         RootsPresent;
    InvFrontier(g, s, p, p);
    var (s1, built) := BuildPendingBatch(s, []);
    if built.Success? {
      ConcludedStalls(g, s, p, EndOf(built.value, verifying, expectedKey, oracle));
    } else {
      BuildErrors(s);
      BuildKeeps(g, s, p, p, []);
      InvIsNotStalled(g, s1, p, p);
    }
  }

  // --------------------------------------------------------------------- how it goes on

  lemma NotAtRoot(g: string, rows: seq<Row>, ledger: Ledger, p: nat, i: nat)
    requires GenesisApart(g) && Faithful(g, rows, ledger) && Replayable(g, rows) && i < |rows| && p < |rows|
    ensures rows[i].rootBefore == LedgerAt(g, rows, p).root <==> i == p
  {
    hide LedgerAt, Faithful, GenesisApart, Replayable;
    RowRoots(g, rows, ledger, i);
    if i < p { StartsDistinct(g, rows, ledger, i, p); }
    if p < i { StartsDistinct(g, rows, ledger, p, i); }
  }

  lemma ListedArePending(rows: seq<Row>, t: Row)
    requires t in Select(rows, IsPendingDeposit) + Select(rows, IsPendingWithdrawal)
    ensures t in rows && t.mark.status == Pending
  {
  }

  /** Nothing is built from a root whose own row is not pending. */
  lemma StalledBuildFails(g: string, s: State, p: nat, secrets: seq<AccountSecret>)
    requires GenesisApart(g) && Stalled(g, s, p)
    ensures BuildPendingBatch(s, secrets).1.Failure? && BuildPendingBatch(s, secrets).0 == s
  {
    hide Stalled, GenesisApart, LedgerAt, Faithful, Replayable, Select, PlanFor, Emit;
    StalledParts(g, s, p);
    var root := CursorOf(s).committedRoot;
    var ds, ws := Select(s.rows, IsPendingDeposit), Select(s.rows, IsPendingWithdrawal);
    if ds != [] || ws != [] {
      forall t: Row | t in ds + ws ensures t.rootBefore != root {
        ListedArePending(s.rows, t);
        var i: nat :| i < |s.rows| && s.rows[i] == t;
        NotAtRoot(g, s.rows, s.ledger, p, i);
      }
      PlanNeedsStart(root, ds, ws);
    }
  }

  /** The calls that put an end to the stall at row `p`. */
  ghost predicate Recovers(s: State, p: nat, e: Event)
    requires p < |s.rows|
  {
    match e
    case CommitEvent(batchId, _, _) => s.rows[p].mark.batchId == Some(batchId)
    case MarkEvent(_, ds, ws) => AllFound(s.rows, ds, ws) && Named(s.rows[p], ds, ws)
    case _ => false
  }

  /** Where only marks change and the cursor stays, the stall lasts as long as its row stays failed. */
  lemma StalledRemark(g: string, s: State, p: nat, s': State)
    requires Stalled(g, s, p) && s'.ledger == s.ledger && Remarked(s.rows, s'.rows) && s'.cursor == s.cursor
    ensures |s'.rows| == |s.rows| && (Stalled(g, s', p) <==> s'.rows[p].mark.status == Failed)
  {
    hide Stalled, LedgerAt, Faithful, Replayable, Remarked;
    StalledParts(g, s, p);
    RemarkedSize(s.rows, s'.rows);
    RemarkedFaithful(g, s.rows, s'.rows, s.ledger);
    RemarkedMoves(g, s.rows, s'.rows);
    MakeStalled(g, s', p);
  }

  lemma StalledAppend(g: string, s: State, p: nat, r: Row, l: Ledger, pendingRoot: string)
    requires Stalled(g, s, p) && RecordsMove(s.ledger, r, l)
    requires forall i :: 0 <= i < |s.rows| ==> !SameKey(s.rows[i], r)
    ensures Stalled(g, State(l, s.rows + [r], Some(CursorOf(s).(pendingRoot := pendingRoot)), s.counter), p)
  {
    hide RecordsMove, LedgerAt, Faithful, Replayable, Stalled;
    StalledParts(g, s, p);
    AppendFaithful(g, s.rows, s.ledger, r, l);
    FaithfulLedger(g, s.rows + [r], l);
    MakeStalled(g, State(l, s.rows + [r], Some(CursorOf(s).(pendingRoot := pendingRoot)), s.counter), p);
  }

  lemma FreshDeposit(g: string, s: State, p: nat, row: Row)
    requires Stalled(g, s, p) && row.DepositRow? && row.record.depositId !in s.ledger.deposits
    ensures forall i :: 0 <= i < |s.rows| ==> !SameKey(s.rows[i], row)
  {
    hide LedgerAt, Replayable, Recorded;
  }

  lemma StalledDeposit(g: string, s: State, p: nat, d: DepositRecord)
    requires Stalled(g, s, p)
    ensures Stalled(g, ApplyIndexedDeposit(s, d).0, p)
  {
    hide LedgerAt, Apply, RecordsMove, DepositRowFor, Stalled, Faithful, Replayable;
    StalledParts(g, s, p);
    if Apply(s.ledger, DepositOp(d)).Success? {
      var l := Apply(s.ledger, DepositOp(d)).value;
      DepositRecordsMove(s.ledger, d);
      var row := DepositRowFor(s.ledger, d, l);
      DepositRowShape(s.ledger, d, l);
      FreshDeposit(g, s, p, row);
      StalledAppend(g, s, p, row, l, l.root);
    }
  }

  lemma StalledWithdrawal(g: string, s: State, p: nat, w: WithdrawRequest, userSecret: string)
    requires Stalled(g, s, p) && Lawful(s, WithdrawEvent(w, userSecret))
    ensures Stalled(g, ApplyWithdrawRequest(s, w, userSecret).0, p)
  {
    hide LedgerAt, Apply, RecordsMove, NullifierFor, WithdrawAddressHash, EffectiveSecret, Decimal, AccountAt,
         Stalled, Faithful, Replayable;
    StalledParts(g, s, p);
    var nullifier := NullifierFor(EffectiveSecret(userSecret), w.nonce);
    var hash := WithdrawAddressHash(w.destination);
    if nullifier.Success? && hash.Success? && Apply(s.ledger, WithdrawOp(w, nullifier.value)).Success? {
      var l := Apply(s.ledger, WithdrawOp(w, nullifier.value)).value;
      WithdrawalRecordsMove(s.ledger, w, EffectiveSecret(userSecret), nullifier.value, hash.value);
      var row := WithdrawalRowFor(s.ledger, w, nullifier.value, hash.value, l);
      assert forall i :: 0 <= i < |s.rows| ==> !SameKey(s.rows[i], row);
      StalledAppend(g, s, p, row, l, l.root);
    }
  }

  /** A lawful commit is the commit of the stalled batch, and takes the cursor away from it. */
  lemma StalledCommit(g: string, s: State, p: nat, batchId: string, txHash: string, newRoot: string)
    requires GenesisApart(g) && Stalled(g, s, p) && Continues(s, batchId, newRoot)
    ensures p < |s.rows| && s.rows[p].mark.batchId == Some(batchId)
    ensures !Stalled(g, CommitBatch(s, batchId, txHash, newRoot), p)
  {
    hide LedgerAt, Faithful, Replayable, GenesisApart, Stalled, CommitBatch;
    StalledParts(g, s, p);
    var i, j :| 0 <= i <= j < |s.rows| && BatchSpan(s.rows, batchId, i, j) &&
      s.rows[i].rootBefore == CursorOf(s).committedRoot && s.rows[j].rootAfter == newRoot;
    NotAtRoot(g, s.rows, s.ledger, p, i);
    RowRoots(g, s.rows, s.ledger, j);
    StartsDistinct(g, s.rows, s.ledger, p, j + 1);
    var s' := CommitBatch(s, batchId, txHash, newRoot);
    CommitRemarks(s, batchId, txHash, newRoot);
    if Stalled(g, s', p) {
      StalledParts(g, s', p);
      RemarkedMoves(g, s.rows, s'.rows);
    }
  }

  lemma CommitRemarks(s: State, batchId: string, txHash: string, newRoot: string)
    ensures var s' := CommitBatch(s, batchId, txHash, newRoot);
            Remarked(s.rows, s'.rows) && CursorOf(s').committedRoot == newRoot && s'.ledger == s.ledger
  {
  }

  lemma MarksChange(s: State, p: nat, e: Event)
    requires p < |s.rows| && s.rows[p].mark.status == Failed && (e.FailEvent? || e.ReopenEvent? || e.MarkEvent?)
    ensures Next(s, e).ledger == s.ledger && Next(s, e).cursor == s.cursor && Remarked(s.rows, Next(s, e).rows)
    ensures Next(s, e).rows[p].mark.status == Failed <==> !Recovers(s, p, e)
  {
    hide Named, AllFound;
  }

  /** One call ends the stall if and only if it commits the stalled batch or marks its row by hand. */
  lemma StallEndsExactly(g: string, s: State, p: nat, e: Event)
    requires GenesisApart(g) && Stalled(g, s, p) && Lawful(s, e)
    ensures p < |s.rows| && (Stalled(g, Next(s, e), p) <==> !Recovers(s, p, e))
  {
    hide Stalled, GenesisApart, BuildPendingBatch, ApplyIndexedDeposit, ApplyWithdrawRequest, Continues, Remarked,
         Faithful, Replayable, LedgerAt, AllFound, Named, CommitBatch, CancelIncludedBatch, FailBatch, MarkIncluded;
    StalledParts(g, s, p);
    match e {
      case DepositEvent(d) => StalledDeposit(g, s, p, d);
      case WithdrawEvent(w, secret) => StalledWithdrawal(g, s, p, w, secret);
      case BuildEvent(given) => StalledBuildFails(g, s, p, given);
      case CommitEvent(batchId, txHash, newRoot) => StalledCommit(g, s, p, batchId, txHash, newRoot);
      case _ =>
        MarksChange(s, p, e);
        StalledRemark(g, s, p, Next(s, e));
    }
  }

  ghost predicate LawfulRun(s: State, es: seq<Event>) {
    es == [] || (LawfulRun(s, es[..|es| - 1]) && Lawful(RunEvents(s, es[..|es| - 1]), es[|es| - 1]))
  }

  /** No call of the run recovers row `p`. */
  ghost predicate NeverRecovers(s: State, p: nat, es: seq<Event>) {
    es == [] ||
    var front := es[..|es| - 1];
    NeverRecovers(s, p, front) && p < |RunEvents(s, front).rows| && !Recovers(RunEvents(s, front), p, es[|es| - 1])
  }

  /** Row `p` holds the queue up at every point of the run. */
  ghost predicate StalledThroughout(g: string, s: State, p: nat, es: seq<Event>) {
    Stalled(g, RunEvents(s, es), p) && (es == [] || StalledThroughout(g, s, p, es[..|es| - 1]))
  }

  /**
   * Whatever the service is asked to do in whatever order, deposits, withdrawals, builds, commits,
   * answers, reopens and marks: the queue stays stalled throughout the run if and only if no call
   * commits the stalled batch or marks its row included by hand. And no build of a stalled queue
   * succeeds.
   */
  lemma {:induction false} StallLastsExactly(g: string, s: State, p: nat, es: seq<Event>, secrets: seq<AccountSecret>)
    requires GenesisApart(g) && Stalled(g, s, p) && LawfulRun(s, es)
    ensures StalledThroughout(g, s, p, es) <==> NeverRecovers(s, p, es)
    ensures StalledThroughout(g, s, p, es) ==> BuildPendingBatch(RunEvents(s, es), secrets).1.Failure?
  {
    hide Stalled, GenesisApart, Lawful, Recovers, Next, BuildPendingBatch;
    if es != [] {
      var front, e := es[..|es| - 1], es[|es| - 1];
      StallLastsExactly(g, s, p, front, secrets);
      if StalledThroughout(g, s, p, front) { StallEndsExactly(g, RunEvents(s, front), p, e); }
    }
    if StalledThroughout(g, s, p, es) { StalledBuildFails(g, RunEvents(s, es), p, secrets); }
  }

  // ---------------------------------------------------------------------- how it ends

  lemma SpanOf(rows: seq<Row>, c: nat, p: nat, n: nat, st: Status)
    requires Phased(rows, c, p, n, st) && c < p
    ensures BatchSpan(rows, BatchId(n), c, p - 1)
  {
    hide BatchId, Numbered;
    BatchRows(rows, c, p, n, st);
  }

  /** Committing the turned-down batch under its own id and root is lawful and puts the queue in order. */
  lemma RecommitResumes(g: string, s: State, c: nat, p: nat, txHash: string)
    requires Halted(g, s, c, p)
    ensures p <= |s.rows| && Replayable(g, s.rows)
    ensures var e := CommitEvent(BatchId(s.counter), txHash, LedgerAt(g, s.rows, p).root);
            Allowed(s, e) && Inv(g, Next(s, e), p, p)
  {
    hide LedgerAt, Faithful, Replayable, Chained, Phased, BatchId, CommitBatch;
    ChainedParts(g, s, c, p, Failed);
    SpanOf(s.rows, c, p, s.counter, Failed);
    RowRoots(g, s.rows, s.ledger, c);
    RowRoots(g, s.rows, s.ledger, p - 1);
    CommitKeeps(g, s, c, p, Failed, txHash, LedgerAt(g, s.rows, p).root);
  }

  lemma ListedFound(rows: seq<Row>, c: nat, p: nat)
    requires c <= p <= |rows|
    ensures AllFound(rows, Ids(DepositsIn(rows[c..p])), Ids(WithdrawalsIn(rows[c..p])))
  {
    hide Ids, DepositsIn, WithdrawalsIn, AllFound;
    forall r: Row ensures (r in DepositsIn(rows[c..p]) ==> r in rows && r.DepositRow?) &&
                          (r in WithdrawalsIn(rows[c..p]) ==> r in rows && r.WithdrawalRow?) {
      ListedBy(rows[c..p], r);
    }
    ChosenFound(rows, DepositsIn(rows[c..p]), WithdrawalsIn(rows[c..p]));
  }

  /**
   * Marking the turned-down rows included by hand, under their own id, is allowed; reopening them
   * then puts the queue in order with the same rows pending again.
   */
  lemma RemarkAndReopenResumes(g: string, s: State, c: nat, p: nat, reason: string)
    requires Halted(g, s, c, p)
    ensures p <= |s.rows|
    ensures var b := BatchId(s.counter);
            var e := MarkEvent(b, Ids(DepositsIn(s.rows[c..p])), Ids(WithdrawalsIn(s.rows[c..p])));
            && Allowed(s, e) && Inv(g, Next(s, e), c, p)
            && Inv(g, Next(Next(s, e), ReopenEvent(b, reason)), c, c)
  {
    hide LedgerAt, Faithful, Replayable, Chained, Phased, BatchId, Named, AllFound, Ids, DepositsIn, WithdrawalsIn,
         MarkIncluded, CancelIncludedBatch;
    ChainedParts(g, s, c, p, Failed);
    var b, ds, ws := BatchId(s.counter), Ids(DepositsIn(s.rows[c..p])), Ids(WithdrawalsIn(s.rows[c..p]));
    StatusPhases(s.rows, c, p, s.counter, Failed);
    BatchRows(s.rows, c, p, s.counter, Failed);
    forall i: nat | i < |s.rows| ensures Named(s.rows[i], ds, ws) <==> c <= i < p {
      NamedExactly(s.rows, c, p, i);
    }
    ListedFound(s.rows, c, p);
    MarkKeeps(g, s, c, p, Failed, b, ds, ws);
    MarkCounts(s, b, ds, ws);
    ReopenKeeps(g, MarkIncluded(s, b, ds, ws).0, c, p, Included, b, reason);
  }

  lemma MarkCounts(s: State, batchId: string, ds: seq<string>, ws: seq<string>)
    ensures MarkIncluded(s, batchId, ds, ws).0.counter == s.counter
  {
  }

  // ----------------------------------------------------------------------- it happens

  const WITNESS_DEPOSIT := DepositRecord("d", "a", "t", "1")

  lemma WitnessDepositApplies(g: string)
    ensures Apply(Genesis(g), DepositOp(WITNESS_DEPOSIT)).Success?
    ensures OrdinaryEvent(DepositEvent(WITNESS_DEPOSIT), "t") && Trimmed("t")
  {
    assert "1" == Decimal(1);
    assert ParsePositive("1") == Success(1);
    assert Trimmed("a") && Trimmed("t") && Trimmed("d");
    hide Trimmed, ParseNonNegative, Decimal, RootOf;
  }

  lemma OneDepositRows(g: string)
    ensures var s := RunEvents(Initial(g), [DepositEvent(WITNESS_DEPOSIT)]);
            |s.rows| == 1 && s.rows[0].mark == FRESH
    ensures AllowedRun(Initial(g), [DepositEvent(WITNESS_DEPOSIT)])
  {
    WitnessDepositApplies(g);
    hide Apply, RootOf, Decimal, AccountAt, OrdinaryEvent, Trimmed;
    var e := DepositEvent(WITNESS_DEPOSIT);
    assert [e][..0] == [];
    assert RunEvents(Initial(g), []) == Initial(g);
  }

  /** One deposit and a chain that turns its batch down: the stall is reachable. */
  lemma TurnedDownReachable(verifying: bool, expectedKey: string, proofStatus: string)
    returns (g: string, es: seq<Event>, oracle: PassOracle)
    requires Trimmed(expectedKey)
    ensures GenesisApart(g) && AllowedRun(Initial(g), es)
    ensures SettleOnce(RunEvents(Initial(g), es), verifying, expectedKey, oracle).1 == Failure(BatchNotAccepted)
  {
    hide GenesisApart, AllowedRun, SettleOnce, Trimmed, RootOf, Chained, OrdinaryEvent, OrdinaryRow, OrdinaryRows,
         HonestProver, Concluded, ValidHex, RunEvents, BuildPendingBatch, Consecutive;
    g := RootOf(map[]);
    es := [DepositEvent(WITNESS_DEPOSIT)];
    ComputedGenesisApart();
    RootOfIsHex(map[]);
    WitnessDepositApplies(g);
    OneDepositRows(g);
    oracle := HonestProverExists(expectedKey, Answered(false, "", proofStatus, []));
    var s := RunEvents(Initial(g), es);
    var c, p, st := EveryRunKeepsChain(g, es);
    ChainShape(g, s, c, p, st);
    OrdinaryRunRows(g, es, "t");
    OneOrdinary(s.rows, "t");
    OrdinaryPassEnds(g, s, 0, "t", verifying, expectedKey, oracle);
    TurnedDownReported(BuildPendingBatch(s, []).0, BuildPendingBatch(s, []).1.value.update, proofStatus);
  }

  lemma OneOrdinary(rows: seq<Row>, denom: string)
    requires OrdinaryRows(rows, denom)
    ensures OrdinaryFrom(rows, 0, denom)
  {
    hide OrdinaryRow;
    assert forall i :: 0 <= i < |rows| ==> rows[i] in rows;
  }

  lemma TurnedDownReported(s: State, u: SettlementUpdate, proofStatus: string)
    ensures Concluded(s, u, SubmitEnded(VerdictOf(false, true, true, Answered(false, "", proofStatus, [])))).1 ==
              Failure(BatchNotAccepted)
  {
    hide CancelIncludedBatch, FailBatch;
  }

  // ------------------------------------------------------- turning down a settled batch

  /**
   * Turning a batch down rewrites its rows whatever their status: settled rows stay settled if and
   * only if none of them is in the batch turned down.
   */
  lemma SettledRowsStayExactly(s: State, batchId: string, reason: string)
    ensures (forall i :: 0 <= i < |s.rows| && s.rows[i].mark.status == Committed ==>
               FailBatch(s, batchId, reason).rows[i].mark.status == Committed)
            <==>
            (forall i :: 0 <= i < |s.rows| && s.rows[i].mark.status == Committed ==>
               s.rows[i].mark.batchId != Some(batchId))
  {
  }
}
