/** What a drain that ran to its end has done, from any run of the service. */
module DrainedLogs {
  import opened Text
  import opened Hashing
  import opened Types
  import opened Ledgers
  import opened LedgerLaws
  import opened SettlementLogs
  import opened SettlementBuilders
  import opened SettlementModel
  import opened ChainInvariant
  import opened PendingBatches
  import opened SettlementRuns
  import opened DrainPlan
  import opened BatchServices
  import opened SequencerModel

  lemma DrainLeavesNothing(g: string, first: State, p: nat, s: State, settled: seq<SettlementUpdate>)
    requires Emptied(g, first, p, s, settled)
    ensures Select(s.rows, IsPendingDeposit) == [] && Select(s.rows, IsPendingWithdrawal) == []
    ensures forall r <- s.rows :: r.mark.status == Committed
    ensures CursorOf(s).committedRoot == s.ledger.root
  {
    hide Chained, Remarked, BatchesOf, Select, Consecutive, Faithful, LedgerAt, Phased, Replayable, UniqueKeys;
    InvParts(g, s, |s.rows|, |s.rows|);
    NothingPending(s.rows);
    ChainShape(g, s, |s.rows|, |s.rows|, Included);
    forall r | r in s.rows ensures r.mark.status == Committed {
      var i :| 0 <= i < |s.rows| && s.rows[i] == r;
    }
  }

  lemma LogChain(g: string, s: State, p: nat)
    requires Inv(g, s, p, p)
    ensures p <= |s.rows| && ChainedUpdates(BatchesOf(s.rows, p, s.counter), CursorOf(s).committedRoot, s.ledger.root)
  {
    hide Chained, BatchesOf, ChainedUpdates, Consecutive;
    ChainShape(g, s, p, p, Included);
    if p < |s.rows| {
      BatchesChain(s.rows, p, s.counter);
    } else {
      NothingToChain(s.rows, s.counter, s.ledger.root);
    }
  }

  /**
   * An emptied queue: nothing is pending; the settled updates carry the operations of the pending
   * part in log order, one update per withdrawal and one more for trailing deposits, numbered
   * upwards without gaps; their roots chain from the committed root to the manager's root, which
   * is where the cursor now stands.
   */
  lemma DrainSettlesTheLog(g: string, first: State, p: nat, s: State, settled: seq<SettlementUpdate>)
    requires Inv(g, first, p, p) && Emptied(g, first, p, s, settled) && s.ledger == first.ledger
    ensures Select(s.rows, IsPendingDeposit) == [] && Select(s.rows, IsPendingWithdrawal) == []
    ensures forall r <- s.rows :: r.mark.status == Committed
    ensures CursorOf(s).committedRoot == s.ledger.root
    ensures p <= |first.rows| && AllOps(settled) == OpsOf(first.rows[p..])
    ensures |settled| == |WithdrawalsIn(first.rows[p..])| +
                         if p < |first.rows| && first.rows[|first.rows| - 1].DepositRow? then 1 else 0
    ensures forall i :: 0 <= i < |settled| ==> settled[i].batchId == BatchId(first.counter + 1 + i)
    ensures ChainedUpdates(settled, CursorOf(first).committedRoot, first.ledger.root)
  {
    hide Chained, Remarked, BatchesOf, Select, AllOps, OpsOf, BatchId, ChainedUpdates;
    DrainLeavesNothing(g, first, p, s, settled);
    LogChain(g, first, p);
    BatchesCoverLog(first.rows, p, first.counter);
    BatchCount(first.rows, p, first.counter);
    forall i: nat | i < |settled| ensures settled[i].batchId == BatchId(first.counter + 1 + i) {
      BatchesNumbered(first.rows, p, first.counter, i);
    }
  }

  lemma NothingToChain(rows: seq<Row>, n: nat, root: string)
    ensures ChainedUpdates(BatchesOf(rows, |rows|, n), root, root)
  {
  }

  // --------------------------------------------------------- which runs leave ordinary rows

  /** A call the sequencer can settle: plain owner, the one denom, an id, the default secret. */
  predicate OrdinaryEvent(e: Event, denom: string) {
    match e
    case DepositEvent(d) => Trimmed(d.owner) && d.denom == denom && !Blank(d.depositId)
    case WithdrawEvent(w, userSecret) =>
      Trimmed(w.owner) && w.denom == denom && EffectiveSecret(userSecret) == DEFAULT_SECRET
    case _ => true
  }

  ghost predicate OrdinaryRows(rows: seq<Row>, denom: string) { forall r <- rows :: OrdinaryRow(r, denom) }

  lemma UpsertedOrdinary(rows: seq<Row>, row: Row, denom: string)
    requires OrdinaryRows(rows, denom) && OrdinaryRow(row, denom)
    ensures OrdinaryRows(Upserted(rows, row), denom)
  {
    hide OrdinaryRow;
    forall r | r in Upserted(rows, row) ensures r in rows || r == row {
      var i :| 0 <= i < |Upserted(rows, row)| && Upserted(rows, row)[i] == r;
    }
  }

  lemma RemarkedOrdinaryRows(a: seq<Row>, b: seq<Row>, denom: string)
    requires Remarked(a, b) && OrdinaryRows(a, denom)
    ensures OrdinaryRows(b, denom)
  {
    forall r | r in b ensures OrdinaryRow(r, denom) {
      var i :| 0 <= i < |b| && b[i] == r;
      assert a[i] in a && b[i] == a[i].Marked(b[i].mark);
    }
  }

  lemma IncludedOrdinary(s: State, plan: Plan, secrets: seq<AccountSecret>)
    ensures Remarked(s.rows, Emit(s, plan, secrets).0.rows)
  {
    hide Acceptable, WitnessAccounts, Witnesses.WitnessAcceptable, UpdateFor, Witnesses.WitnessFor,
         Commitments.CommitmentsFor, Named, Ids;
  }

  lemma BuildOnlyRemarks(s: State, secrets: seq<AccountSecret>)
    ensures Remarked(s.rows, BuildPendingBatch(s, secrets).0.rows)
  {
    hide Emit, PlanFor, Select;
    var ds, ws := Select(s.rows, IsPendingDeposit), Select(s.rows, IsPendingWithdrawal);
    if ds != [] || ws != [] {
      match PlanFor(CursorOf(s).committedRoot, ds, ws) {
        case Success(plan) => IncludedOrdinary(WithCursor(s), plan, secrets);
        case Failure(_) =>
      }
    }
  }

  lemma DepositOrdinary(s: State, d: DepositRecord, denom: string)
    requires OrdinaryRows(s.rows, denom) && OrdinaryEvent(DepositEvent(d), denom) && Trimmed(denom)
    ensures OrdinaryRows(ApplyIndexedDeposit(s, d).0.rows, denom)
  {
    hide Apply, Trimmed, Blank, OrdinaryRows, Upserted, AccountAt, NullifierFor, Decimals.Decimal;
    if Apply(s.ledger, DepositOp(d)).Success? {
      UpsertedOrdinary(s.rows, DepositRowFor(s.ledger, d, Apply(s.ledger, DepositOp(d)).value), denom);
    }
  }

  lemma WithdrawalOrdinary(s: State, w: WithdrawRequest, userSecret: string, denom: string)
    requires OrdinaryRows(s.rows, denom) && OrdinaryEvent(WithdrawEvent(w, userSecret), denom) && Trimmed(denom)
    ensures OrdinaryRows(ApplyWithdrawRequest(s, w, userSecret).0.rows, denom)
  {
    hide Apply, Trimmed, Blank, OrdinaryRows, Upserted, AccountAt, NullifierFor, WithdrawAddressHash,
         EffectiveSecret, Decimals.Decimal;
    var nullifier, hash := NullifierFor(EffectiveSecret(userSecret), w.nonce), WithdrawAddressHash(w.destination);
    if nullifier.Success? && hash.Success? && Apply(s.ledger, WithdrawOp(w, nullifier.value)).Success? {
      var l := Apply(s.ledger, WithdrawOp(w, nullifier.value)).value;
      UpsertedOrdinary(s.rows, WithdrawalRowFor(s.ledger, w, nullifier.value, hash.value, l), denom);
    }
  }

  lemma MarksOnlyRemark(rows: seq<Row>, batchId: string, txHash: string, reason: string)
    ensures Remarked(rows, WithStatus(rows, batchId, Committed, txHash, ""))
    ensures Remarked(rows, WithStatus(rows, batchId, Failed, "", reason))
    ensures Remarked(rows, WithReopened(rows, batchId, reason))
  {
  }

  lemma IncludedOnlyRemarks(s: State, batchId: string, ds: seq<string>, ws: seq<string>)
    ensures Remarked(s.rows, MarkIncluded(s, batchId, ds, ws).0.rows)
  {
    hide Named, AllFound;
  }

  /** Ordinary calls leave ordinary rows, whatever is built, committed or reopened in between. */
  lemma {:induction false} OrdinaryRunRows(g: string, es: seq<Event>, denom: string)
    requires Trimmed(denom) && forall e <- es :: OrdinaryEvent(e, denom)
    ensures OrdinaryRows(RunEvents(Initial(g), es).rows, denom)
  {
    hide OrdinaryEvent, OrdinaryRows, Trimmed, ApplyIndexedDeposit, ApplyWithdrawRequest, BuildPendingBatch,
         WithStatus, WithReopened, MarkIncluded;
    if es == [] {
      NoRowsOrdinary(denom);
    } else {
      var front, e := es[..|es| - 1], es[|es| - 1];
      assert es == front + [e];
      OrdinaryRunRows(g, front, denom);
      var s := RunEvents(Initial(g), front);
      match e {
        case DepositEvent(d) => DepositOrdinary(s, d, denom);
        case WithdrawEvent(w, secret) => WithdrawalOrdinary(s, w, secret, denom);
        case BuildEvent(secrets) =>
          BuildOnlyRemarks(s, secrets);
          RemarkedOrdinaryRows(s.rows, Next(s, e).rows, denom);
        case CommitEvent(batchId, txHash, newRoot) =>
          MarksOnlyRemark(s.rows, batchId, txHash, "");
          RemarkedOrdinaryRows(s.rows, Next(s, e).rows, denom);
        case FailEvent(batchId, reason) =>
          MarksOnlyRemark(s.rows, batchId, "", reason);
          RemarkedOrdinaryRows(s.rows, Next(s, e).rows, denom);
        case ReopenEvent(batchId, reason) =>
          MarksOnlyRemark(s.rows, batchId, "", reason);
          RemarkedOrdinaryRows(s.rows, Next(s, e).rows, denom);
        case MarkEvent(batchId, ds, ws) =>
          IncludedOnlyRemarks(s, batchId, ds, ws);
          RemarkedOrdinaryRows(s.rows, Next(s, e).rows, denom);
      }
    }
  }

  lemma NoRowsOrdinary(denom: string)
    ensures OrdinaryRows([], denom)
  {
  }

  /**
   * Any allowed run of ordinary calls leaves a log the sequencer can drain: with no batch
   * outstanding, the premises of a drain that must end idle hold.
   */
  lemma OrdinaryRunDrains(g: string, es: seq<Event>, denom: string, expectedKey: string, oracles: nat -> PassOracle)
    returns (p: nat)
    requires GenesisApart(g) && ValidHex(g) && AllowedRun(Initial(g), es)
    requires Trimmed(denom) && forall e <- es :: OrdinaryEvent(e, denom)
    requires forall r <- RunEvents(Initial(g), es).rows :: r.mark.status == Pending || r.mark.status == Committed
    requires AlwaysHonest(expectedKey, oracles)
    ensures var s := RunEvents(Initial(g), es);
            Inv(g, s, p, p) && Smooth(g, s, p, denom, expectedKey, oracles)
  {
    hide Chained, GenesisApart, ValidHex, AllowedRun, Trimmed, OrdinaryEvent, OrdinaryRow, AlwaysHonest, Next,
         Consecutive;
    var s := RunEvents(Initial(g), es);
    var c, st;
    c, p, st := EveryRunKeepsChain(g, es);
    ChainShape(g, s, c, p, st);
    assert c == p;
    OrdinaryRunRows(g, es, denom);
    assert forall i :: p <= i < |s.rows| ==> s.rows[i] in s.rows;
  }
}
