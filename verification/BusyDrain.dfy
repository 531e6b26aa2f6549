/** A drain while the indexer and the request handlers keep calling between its passes. */
module BusyDrains {
  import opened Wrappers
  import opened Text
  import opened Hashing
  import opened Types
  import opened Ledgers
  import opened LedgerLaws
  import opened SettlementLogs
  import opened SettlementBuilders
  import opened SettlementModel
  import opened ChainInvariant
  import opened PendingBatches
  import opened Settleability
  import opened SettlementRuns
  import opened Draining
  import opened DrainPlan
  import opened BatchServices
  import opened SequencerModel
  import opened DrainedLogs

  // ------------------------------------------------------------------- arriving calls

  /** What reaches the settlement service besides the sequencer. */
  datatype Arrival =
    | DepositArrives(deposit: DepositRecord)
    | WithdrawalArrives(request: WithdrawRequest, userSecret: string)

  function EventOf(a: Arrival): Event {
    match a
    case DepositArrives(d) => DepositEvent(d)
    case WithdrawalArrives(w, userSecret) => WithdrawEvent(w, userSecret)
  }

  ghost function Served(s: State, calls: seq<Arrival>): State {
    if calls == [] then s else Next(Served(s, calls[..|calls| - 1]), EventOf(calls[|calls| - 1]))
  }

  /** The calls of all rounds, one after another. */
  function Flat(rounds: seq<seq<Arrival>>): seq<Arrival> {
    if rounds == [] then [] else rounds[0] + Flat(rounds[1..])
  }

  predicate SameWithdrawal(a: Arrival, b: Arrival) {
    a.WithdrawalArrives? && b.WithdrawalArrives? && a.request.withdrawId == b.request.withdrawId
  }

  predicate KnownWithdrawal(rows: seq<Row>, a: Arrival) {
    a.WithdrawalArrives? && exists r <- rows :: r.WithdrawalRow? && r.request.withdrawId == a.request.withdrawId
  }

  /** Withdraw ids come fresh from a sequence: none is in the log, none comes twice. */
  ghost predicate Fresh(rows: seq<Row>, calls: seq<Arrival>) {
    && (forall i :: 0 <= i < |calls| ==> !KnownWithdrawal(rows, calls[i]))
    && (forall i, j :: 0 <= i < j < |calls| ==> !SameWithdrawal(calls[i], calls[j]))
  }

  lemma FreshAllowed(s: State, a: Arrival, rest: seq<Arrival>)
    requires Fresh(s.rows, [a] + rest)
    ensures Allowed(s, EventOf(a))
  {
    assert ([a] + rest)[0] == a && !KnownWithdrawal(s.rows, a);
    if a.WithdrawalArrives? {
      forall i | 0 <= i < |s.rows| && s.rows[i].WithdrawalRow?
        ensures s.rows[i].request.withdrawId != a.request.withdrawId
      {
        assert s.rows[i] in s.rows;
      }
    }
  }

  /** A call appends at most one row, its own, and leaves the committed root and the numbering alone. */
  ghost predicate Extends(s: State, a: Arrival, s': State) {
    && CursorOf(s').committedRoot == CursorOf(s).committedRoot && s'.counter == s.counter
    && (s'.rows == s.rows || exists r :: s'.rows == s.rows + [r] && RowFrom(a, r))
  }

  predicate RowFrom(a: Arrival, r: Row) {
    match a
    case DepositArrives(d) => r.DepositRow? && r.record == d
    case WithdrawalArrives(w, userSecret) =>
      r.WithdrawalRow? && r.request == w && NullifierFor(EffectiveSecret(userSecret), w.nonce) == Success(r.nullifier)
  }

  lemma DepositExtends(g: string, s: State, p: nat, d: DepositRecord)
    requires Inv(g, s, p, p)
    ensures Extends(s, DepositArrives(d), ApplyIndexedDeposit(s, d).0)
  {
    hide LedgerAt, Apply, Faithful, DepositRowFor, Phased, Chained, StateRoot.RootOf;
    ChainedParts(g, s, p, p, Included);
    if Apply(s.ledger, DepositOp(d)).Success? {
      var l := Apply(s.ledger, DepositOp(d)).value;
      DepositRecordsMove(s.ledger, d);
      var row := DepositRowFor(s.ledger, d, l);
      DepositRowShape(s.ledger, d, l);
      DepositKnown(g, s.rows, s.ledger, row);
      AppendsNew(s.rows, row);
      assert RowFrom(DepositArrives(d), row);
    }
  }

  lemma DepositKnown(g: string, rows: seq<Row>, ledger: Ledger, row: Row)
    requires Faithful(g, rows, ledger) && row.DepositRow? && row.record.depositId !in ledger.deposits
    ensures forall r <- rows :: !SameKey(r, row)
  {
    hide LedgerAt, Replayable, ChainInvariant.Recorded;
  }

  lemma AppendsNew(rows: seq<Row>, row: Row)
    requires forall r <- rows :: !SameKey(r, row)
    ensures Upserted(rows, row) == rows + [row]
  {
    hide SameKey;
  }

  lemma WithdrawalExtends(s: State, w: WithdrawRequest, userSecret: string)
    requires Allowed(s, WithdrawEvent(w, userSecret))
    ensures Extends(s, WithdrawalArrives(w, userSecret), ApplyWithdrawRequest(s, w, userSecret).0)
  {
    hide Apply, NullifierFor, WithdrawAddressHash, EffectiveSecret, Decimals.Decimal, AccountAt;
    var nullifier := NullifierFor(EffectiveSecret(userSecret), w.nonce);
    var hash := WithdrawAddressHash(w.destination);
    if nullifier.Success? && hash.Success? && Apply(s.ledger, WithdrawOp(w, nullifier.value)).Success? {
      var l := Apply(s.ledger, WithdrawOp(w, nullifier.value)).value;
      var row := WithdrawalRowFor(s.ledger, w, nullifier.value, hash.value, l);
      forall r | r in s.rows ensures !SameKey(r, row) {
        var i: nat :| i < |s.rows| && s.rows[i] == r;
      }
      AppendsNew(s.rows, row);
      assert RowFrom(WithdrawalArrives(w, userSecret), row);
    }
  }

  lemma ArrivalExtends(g: string, s: State, p: nat, a: Arrival)
    requires Inv(g, s, p, p) && Allowed(s, EventOf(a))
    ensures Inv(g, Next(s, EventOf(a)), p, p) && Extends(s, a, Next(s, EventOf(a)))
  {
    hide Chained, Extends, ApplyIndexedDeposit, ApplyWithdrawRequest;
    match a {
      case DepositArrives(d) =>
        DepositKeeps(g, s, p, p, Included, d);
        DepositExtends(g, s, p, d);
      case WithdrawalArrives(w, userSecret) =>
        WithdrawalKeeps(g, s, p, p, Included, w, userSecret);
        WithdrawalExtends(s, w, userSecret);
    }
  }

  lemma StillFresh(s: State, a: Arrival, s': State, rest: seq<Arrival>)
    requires Fresh(s.rows, [a] + rest) && Extends(s, a, s')
    ensures Fresh(s'.rows, rest)
  {
    hide NullifierFor, EffectiveSecret;
    var calls := [a] + rest;
    assert calls[0] == a && forall i :: 0 <= i < |rest| ==> rest[i] == calls[i + 1];
    forall i | 0 <= i < |rest| ensures !KnownWithdrawal(s'.rows, rest[i]) {
      assert !KnownWithdrawal(s.rows, calls[i + 1]) && !SameWithdrawal(calls[0], calls[i + 1]);
    }
  }

  // --------------------------------------------------------------- a drain under way

  /**
   * A drain from `first`, frontier `p`, has settled `settled` and stands at `s`, frontier `q`: the
   * log may have grown, but what was settled are its operations between the frontiers, in order,
   * in batches of at most one withdrawal, numbered without gaps, and linked root to root.
   */
  ghost predicate Settling(g: string, first: State, p: nat, s: State, q: nat, settled: seq<SettlementUpdate>) {
    && Inv(g, s, q, q) && p <= q <= |s.rows|
    && Grown(first.rows, s.rows)
    && AllOps(settled) == OpsOf(s.rows[p..q])
    && ChainedUpdates(settled, CursorOf(first).committedRoot, CursorOf(s).committedRoot)
    && s.counter == first.counter + |settled|
    && (forall i :: 0 <= i < |settled| ==> settled[i].batchId == BatchId(first.counter + 1 + i))
    && (forall u <- settled :: |u.withdrawals| <= 1)
  }

  /** The old rows come first in the new log, but for their marks. */
  ghost predicate Grown(rows: seq<Row>, rows': seq<Row>) {
    |rows| <= |rows'| && Remarked(rows, rows'[..|rows|])
  }

  lemma GrownByCall(first: seq<Row>, rows: seq<Row>, rows': seq<Row>)
    requires Grown(first, rows) && rows <= rows'
    ensures Grown(first, rows')
  {
    assert rows'[..|first|] == rows[..|first|];
  }

  lemma GrownByMarks(first: seq<Row>, rows: seq<Row>, rows': seq<Row>)
    requires Grown(first, rows) && Remarked(rows, rows')
    ensures Grown(first, rows')
  {
    RemarkedLength(rows, rows');
    RemarkedSlice(rows, rows', 0, |first|);
    assert rows[0..|first|] == rows[..|first|] && rows'[0..|first|] == rows'[..|first|];
    RemarkedTransitive(first, rows[..|first|], rows'[..|first|]);
  }

  lemma SettlingStarts(g: string, s: State, p: nat)
    requires Inv(g, s, p, p)
    ensures Settling(g, s, p, s, p, [])
  {
    hide Chained;
    InvFrontier(g, s, p, p);
    assert s.rows[..|s.rows|] == s.rows && s.rows[p..p] == [];
  }

  lemma SettlingBounds(g: string, first: State, p: nat, s: State, q: nat, settled: seq<SettlementUpdate>)
    requires Settling(g, first, p, s, q, settled)
    ensures p <= q <= |s.rows| && Inv(g, s, q, q)
  {
    hide Chained, Grown, AllOps, OpsOf, ChainedUpdates;
  }

  /** One call between passes. */
  lemma SettlingServes(g: string, first: State, p: nat, s: State, q: nat, settled: seq<SettlementUpdate>, a: Arrival)
    requires Settling(g, first, p, s, q, settled) && Allowed(s, EventOf(a))
    ensures var s' := Next(s, EventOf(a));
            Settling(g, first, p, s', q, settled) && Extends(s, a, s') && |s.rows| <= |s'.rows| <= |s.rows| + 1
  {
    hide Chained, Grown, AllOps, OpsOf, ChainedUpdates, BatchId, Next, Allowed, RowFrom;
    ArrivalExtends(g, s, q, a);
    var s' := Next(s, EventOf(a));
    assert s.rows <= s'.rows;
    GrownByCall(first.rows, s.rows, s'.rows);
    assert s'.rows[p..q] == s.rows[p..q];
  }

  /** Ordinary calls append ordinary rows. */
  lemma OrdinaryGrows(s: State, a: Arrival, s': State, q: nat, denom: string)
    requires Extends(s, a, s') && OrdinaryFrom(s.rows, q, denom) && OrdinaryEvent(EventOf(a), denom) && Trimmed(denom)
    ensures OrdinaryFrom(s'.rows, q, denom)
  {
    hide NullifierFor, EffectiveSecret, Trimmed, Blank;
  }

  predicate OrdinaryCalls(calls: seq<Arrival>, denom: string) {
    forall i :: 0 <= i < |calls| ==> OrdinaryEvent(EventOf(calls[i]), denom)
  }

  /** A round of calls between two passes. */
  lemma {:induction false} RoundServes(g: string, first: State, p: nat, s: State, q: nat,
                                       settled: seq<SettlementUpdate>,
                                       calls: seq<Arrival>, rest: seq<Arrival>)
    requires Settling(g, first, p, s, q, settled) && Fresh(s.rows, calls + rest)
    ensures var s' := Served(s, calls);
            && Settling(g, first, p, s', q, settled) && Fresh(s'.rows, rest)
            && |s.rows| <= |s'.rows| <= |s.rows| + |calls|
    decreases |calls|
  {
    hide Settling, Fresh, Next, Extends, Allowed;
    if calls == [] {
      assert calls + rest == rest;
    } else {
      var front, a := calls[..|calls| - 1], calls[|calls| - 1];
      assert calls + rest == front + ([a] + rest);
      RoundServes(g, first, p, s, q, settled, front, [a] + rest);
      var t := Served(s, front);
      FreshAllowed(t, a, rest);
      SettlingServes(g, first, p, t, q, settled, a);
      StillFresh(t, a, Next(t, EventOf(a)), rest);
    }
  }

  lemma {:induction false} RoundStaysOrdinary(g: string, first: State, p: nat, s: State, q: nat,
                                              settled: seq<SettlementUpdate>,
                                              calls: seq<Arrival>, rest: seq<Arrival>, denom: string)
    requires Settling(g, first, p, s, q, settled) && Fresh(s.rows, calls + rest)
    requires OrdinaryFrom(s.rows, q, denom) && OrdinaryCalls(calls, denom) && Trimmed(denom)
    ensures OrdinaryFrom(Served(s, calls).rows, q, denom)
    decreases |calls|
  {
    hide Settling, Fresh, Next, Extends, Allowed, OrdinaryFrom, OrdinaryEvent, Trimmed;
    if calls != [] {
      var front, a := calls[..|calls| - 1], calls[|calls| - 1];
      assert calls + rest == front + ([a] + rest);
      assert forall i :: 0 <= i < |front| ==> front[i] == calls[i];
      RoundServes(g, first, p, s, q, settled, front, [a] + rest);
      RoundStaysOrdinary(g, first, p, s, q, settled, front, [a] + rest, denom);
      var t := Served(s, front);
      FreshAllowed(t, a, rest);
      SettlingServes(g, first, p, t, q, settled, a);
      OrdinaryGrows(t, a, Next(t, EventOf(a)), q, denom);
    }
  }

  // -------------------------------------------------------------------------- one pass

  lemma {:induction false} AllOpsOne(us: seq<SettlementUpdate>, u: SettlementUpdate)
    ensures AllOps(us + [u]) == AllOps(us) + UpdateOps(u)
    decreases |us|
  {
    hide UpdateOps;
    if us == [] {
      assert [u][1..] == [] && us + [u] == [u];
    } else {
      assert (us + [u])[1..] == us[1..] + [u];
      AllOpsOne(us[1..], u);
    }
  }

  lemma {:induction false} ChainedOne(us: seq<SettlementUpdate>, u: SettlementUpdate, root: string)
    requires ChainedUpdates(us, root, u.oldStateRoot)
    ensures ChainedUpdates(us + [u], root, u.newStateRoot)
    decreases |us|
  {
    if us == [] {
      assert us + [u] == [u] && [u][1..] == [];
    } else {
      assert (us + [u])[1..] == us[1..] + [u];
      ChainedOne(us[1..], u, us[0].newStateRoot);
    }
  }

  /** What the update settled by a pass is made of. */
  lemma SettledUpdate(g: string, s: State, q: nat)
    requires GenesisApart(g) && Inv(g, s, q, q) && BuildPendingBatch(s, []).1.Success?
    ensures q < |s.rows| && NextBatch(s.rows, q) != []
    ensures var u := BuildPendingBatch(s, []).1.value.update;
            && u.oldStateRoot == CursorOf(s).committedRoot && u.batchId == BatchId(s.counter + 1)
            && UpdateOps(u) == OpsOf(NextBatch(s.rows, q)) && |u.withdrawals| <= 1
  {
    hide Chained, GenesisApart, BuildPendingBatch, NextBatch, InputOf, UpdateFor, UpdateOps, OpsOf, BatchId,
         Consecutive, LedgerAt, Faithful;
    CommittedPass(g, s, q, [], "");
    ChainShape(g, s, q, q, Included);
    var root, batch := s.rows[q].rootBefore, NextBatch(s.rows, q);
    UpdateRoots(root, batch, s.counter + 1);
    BatchOpsInOrder(root, s.rows, q, s.counter + 1);
    NextBatchHasOneWithdrawal(s.rows, q);
    OneWithdrawalAtMost(root, batch, s.counter + 1);
  }

  lemma OneWithdrawalAtMost(root: string, batch: seq<Row>, n: nat)
    requires batch != [] && |WithdrawalsIn(batch)| <= 1
    ensures |UpdateFor(InputOf(root, batch), n).withdrawals| <= 1
  {
    hide Select;
  }

  /** The cursor stands where an accepted batch ends. */
  lemma SettledCursor(s: State, u: SettlementUpdate, end: PassEnd)
    requires Concluded(s, u, end).1 == Success(true)
    ensures CursorOf(Concluded(s, u, end).0).committedRoot == u.newStateRoot
  {
    hide WithStatus, CancelIncludedBatch, FailBatch;
  }

  lemma SettleOnceCursor(s: State, verifying: bool, expectedKey: string, oracle: PassOracle)
    requires SettleOnce(s, verifying, expectedKey, oracle).1 == Success(true)
    ensures BuildPendingBatch(s, []).1.Success?
    ensures CursorOf(SettleOnce(s, verifying, expectedKey, oracle).0).committedRoot ==
            BuildPendingBatch(s, []).1.value.update.newStateRoot
  {
    hide BuildPendingBatch, Concluded, EndOf;
    var (s1, built) := BuildPendingBatch(s, []);
    if built.Success? { SettledCursor(s1, built.value.update, EndOf(built.value, verifying, expectedKey, oracle)); }
  }

  lemma OpsOfConcat(a: seq<Row>, b: seq<Row>)
    ensures OpsOf(a + b) == OpsOf(a) + OpsOf(b)
  {
    hide OpOf;
  }

  lemma RemarkedOps(a: seq<Row>, b: seq<Row>)
    requires Remarked(a, b)
    ensures OpsOf(a) == OpsOf(b)
  {
    hide Decimals.Decimal, Decimals.Value;
    forall i | 0 <= i < |a| ensures OpOf(a[i]) == OpOf(b[i]) { assert b[i] == a[i].Marked(b[i].mark); }
  }

  lemma SettledOps(rows: seq<Row>, rows': seq<Row>, p: nat, q: nat)
    requires p <= q < |rows| && Remarked(rows, rows')
    ensures q + |NextBatch(rows, q)| <= |rows'|
    ensures OpsOf(rows[p..q]) + OpsOf(NextBatch(rows, q)) == OpsOf(rows'[p..q + |NextBatch(rows, q)|])
  {
    hide NextBatch, OpsOf, Remarked;
    SplitAtNextBatch(rows, q);
    NextBatchSlice(rows, q);
    RemarkedLength(rows, rows');
    var n := q + |NextBatch(rows, q)|;
    OpsOfConcat(rows[p..q], rows[q..n]);
    assert rows[p..q] + rows[q..n] == rows[p..n];
    RemarkedSlice(rows, rows', p, n);
    RemarkedOps(rows[p..n], rows'[p..n]);
  }

  /** A pass that settles moves the frontier past the next batch of the log as it is by now. */
  lemma SettlingStep(g: string, first: State, p: nat, s: State, q: nat, settled: seq<SettlementUpdate>,
                     verifying: bool, expectedKey: string, oracle: PassOracle)
    requires GenesisApart(g) && Settling(g, first, p, s, q, settled)
    ensures var (s', r) := SettleOnce(s, verifying, expectedKey, oracle);
            && s'.ledger == s.ledger
            && (r == Success(false) ==> q == |s.rows| && Settling(g, first, p, s', q, settled) && s'.rows == s.rows)
            && (r == Success(true) ==>
                  && q < |s.rows| && BuildPendingBatch(s, []).1.Success? && |s'.rows| == |s.rows|
                  && var q' := q + |NextBatch(s.rows, q)|;
                     q < q' <= |s.rows| &&
                       Settling(g, first, p, s', q', settled + [BuildPendingBatch(s, []).1.value.update])
                     && Remarked(s.rows, s'.rows))
  {
    hide Chained, GenesisApart, BuildPendingBatch, NextBatch, Remarked, SettleOnce, Grown, AllOps, OpsOf,
         ChainedUpdates, BatchesOf, UpdateOps, BatchId;
    PassProgress(g, s, q, verifying, expectedKey, oracle);
    var (s', r) := SettleOnce(s, verifying, expectedKey, oracle);
    if r == Success(true) {
      var u, q' := BuildPendingBatch(s, []).1.value.update, q + |NextBatch(s.rows, q)|;
      SettledUpdate(g, s, q);
      SettleOnceCursor(s, verifying, expectedKey, oracle);
      RemarkedLength(s.rows, s'.rows);
      GrownByMarks(first.rows, s.rows, s'.rows);
      SettledOps(s.rows, s'.rows, p, q);
      AllOpsOne(settled, u);
      ChainedOne(settled, u, CursorOf(first).committedRoot);
    } else if r == Success(false) {
      IdleCursor(g, s, q, verifying, expectedKey, oracle);
    }
  }

  lemma IdleCursor(g: string, s: State, q: nat, verifying: bool, expectedKey: string, oracle: PassOracle)
    requires GenesisApart(g) && Inv(g, s, q, q) && SettleOnce(s, verifying, expectedKey, oracle).1 == Success(false)
    ensures CursorOf(SettleOnce(s, verifying, expectedKey, oracle).0) == CursorOf(s)
  {
    hide Chained, GenesisApart, BuildPendingBatch, NextBatch, EndOf, CancelIncludedBatch, CommitBatch, FailBatch,
         EmitsRows, Emit, InputOf;
    BuildEmitsNextBatch(g, s, q, q, []);
  }

  lemma OrdinaryAfterPass(rows: seq<Row>, rows': seq<Row>, q: nat, q': nat, denom: string)
    requires Remarked(rows, rows') && OrdinaryFrom(rows, q, denom) && q <= q' <= |rows|
    ensures OrdinaryFrom(rows', q', denom)
  {
    RemarkedOrdinary(rows, rows', q, q', denom);
  }

  // -------------------------------------------------------------------------- the end

  /** What an idle end means: everything that arrived is settled, in the order it was applied. */
  lemma IdleSettlesEverything(g: string, first: State, p: nat, s: State, settled: seq<SettlementUpdate>)
    requires Settling(g, first, p, s, |s.rows|, settled)
    ensures Select(s.rows, IsPendingDeposit) == [] && Select(s.rows, IsPendingWithdrawal) == []
    ensures p <= |s.rows| && AllOps(settled) == OpsOf(s.rows[p..])
    ensures ChainedUpdates(settled, CursorOf(first).committedRoot, s.ledger.root) &&
              CursorOf(s).committedRoot == s.ledger.root
  {
    hide Chained, Grown, AllOps, OpsOf, ChainedUpdates, Select, Consecutive, LedgerAt, Faithful, Phased;
    InvParts(g, s, |s.rows|, |s.rows|);
    NothingPending(s.rows);
    ChainShape(g, s, |s.rows|, |s.rows|, Included);
    assert s.rows[p..|s.rows|] == s.rows[p..];
  }

  // ------------------------------------------------------------ what the loop maintains

  /** Settled so far, whatever the last pass did: the operations up to row `q` of the log, as far as it grew. */
  ghost predicate SettledUpTo(first: State, p: nat, rows: seq<Row>, q: nat, settled: seq<SettlementUpdate>) {
    && p <= q <= |rows| && Grown(first.rows, rows)
    && AllOps(settled) == OpsOf(rows[p..q])
    && (exists root :: ChainedUpdates(settled, CursorOf(first).committedRoot, root))
    && (forall i :: 0 <= i < |settled| ==> settled[i].batchId == BatchId(first.counter + 1 + i))
    && (forall u <- settled :: |u.withdrawals| <= 1)
  }

  lemma SettlingUpTo(g: string, first: State, p: nat, s: State, q: nat, settled: seq<SettlementUpdate>, rows: seq<Row>)
    requires Settling(g, first, p, s, q, settled) && Remarked(s.rows, rows)
    ensures SettledUpTo(first, p, rows, q, settled)
  {
    hide Chained, Grown, AllOps, OpsOf, ChainedUpdates, BatchId, Remarked;
    RemarkedLength(s.rows, rows);
    GrownByMarks(first.rows, s.rows, rows);
    RemarkedSlice(s.rows, rows, p, q);
    RemarkedOps(s.rows[p..q], rows[p..q]);
  }

  lemma ReopenRemarks(s: State, batchId: string, reason: string)
    ensures Remarked(s.rows, CancelIncludedBatch(s, batchId, reason).0.rows)
  {
  }

  lemma SubmittedRemarks(s: State, u: SettlementUpdate, v: Verdict)
    ensures Remarked(s.rows, Submitted(s, u, v).rows)
  {
  }

  lemma ConcludedRemarks(s: State, u: SettlementUpdate, end: PassEnd)
    ensures Remarked(s.rows, Concluded(s, u, end).0.rows)
  {
    hide Remarked, CancelIncludedBatch, Submitted;
    ReopenRemarks(s, u.batchId, "prove failed");
    ReopenRemarks(s, u.batchId, "submit failed");
    if end.SubmitEnded? {
      var s1 := Submitted(s, u, end.verdict);
      SubmittedRemarks(s, u, end.verdict);
      ReopenRemarks(s1, u.batchId, "submit not accepted");
      RemarkedTransitive(s.rows, s1.rows, CancelIncludedBatch(s1, u.batchId, "submit not accepted").0.rows);
    }
  }

  lemma PassRemarks(s: State, verifying: bool, expectedKey: string, oracle: PassOracle)
    ensures Remarked(s.rows, SettleOnce(s, verifying, expectedKey, oracle).0.rows)
  {
    hide BuildPendingBatch, Concluded, EndOf, Remarked;
    var (s1, built) := BuildPendingBatch(s, []);
    BuildOnlyRemarks(s, []);
    if built.Success? {
      var end := EndOf(built.value, verifying, expectedKey, oracle);
      ConcludedRemarks(s1, built.value.update, end);
      RemarkedTransitive(s.rows, s1.rows, Concluded(s1, built.value.update, end).0.rows);
    }
  }

  /**
   * The state of a drain between two passes, with `rest` the calls yet to come: when no call ever
   * comes, the drain follows the batches of the first log; when all is ordinary, it stays ordinary.
   */
  ghost predicate Underway(g: string, first: State, p: nat, s: State, q: nat, settled: seq<SettlementUpdate>,
                           rest: seq<Arrival>, quiet: bool, ordinary: bool, denom: string) {
    && Settling(g, first, p, s, q, settled) && Fresh(s.rows, rest)
    && (quiet ==> rest == [] && Drained(g, first, p, s, q, settled))
    && (ordinary ==> Trimmed(denom) && OrdinaryFrom(s.rows, q, denom) && OrdinaryCalls(rest, denom))
  }

  lemma UnderwayStarts(g: string, s: State, p: nat, rest: seq<Arrival>, quiet: bool, ordinary: bool, denom: string)
    requires Inv(g, s, p, p) && Fresh(s.rows, rest) && (quiet ==> rest == [])
    requires ordinary ==> Trimmed(denom) && OrdinaryFrom(s.rows, p, denom) && OrdinaryCalls(rest, denom)
    ensures Underway(g, s, p, s, p, [], rest, quiet, ordinary, denom)
  {
    hide *;
    SettlingStarts(g, s, p);
    DrainStarts(g, s, p);
    MakeUnderway(g, s, p, s, p, [], rest, quiet, ordinary, denom);
  }

  lemma MakeUnderway(g: string, first: State, p: nat, s: State, q: nat, settled: seq<SettlementUpdate>,
                     rest: seq<Arrival>, quiet: bool, ordinary: bool, denom: string)
    requires Settling(g, first, p, s, q, settled) && Fresh(s.rows, rest)
    requires quiet ==> rest == [] && Drained(g, first, p, s, q, settled)
    requires ordinary ==> Trimmed(denom) && OrdinaryFrom(s.rows, q, denom) && OrdinaryCalls(rest, denom)
    ensures Underway(g, first, p, s, q, settled, rest, quiet, ordinary, denom)
  {
    hide Settling, Fresh, Drained, OrdinaryFrom, OrdinaryCalls, Trimmed;
  }

  lemma UnderwayParts(g: string, first: State, p: nat, s: State, q: nat, settled: seq<SettlementUpdate>,
                      rest: seq<Arrival>, quiet: bool, ordinary: bool, denom: string)
    requires Underway(g, first, p, s, q, settled, rest, quiet, ordinary, denom)
    ensures Settling(g, first, p, s, q, settled) && Fresh(s.rows, rest) && p <= q <= |s.rows| && Inv(g, s, q, q)
    ensures quiet ==> rest == [] && Drained(g, first, p, s, q, settled)
    ensures ordinary ==> Trimmed(denom) && OrdinaryFrom(s.rows, q, denom) && OrdinaryCalls(rest, denom)
  {
    hide Settling, Fresh, Drained, OrdinaryFrom, OrdinaryCalls, Trimmed, Chained;
    SettlingBounds(g, first, p, s, q, settled);
  }

  lemma ServedNothing(s: State)
    ensures Served(s, []) == s
  {
  }

  lemma UnderwayServes(g: string, first: State, p: nat, s: State, q: nat, settled: seq<SettlementUpdate>,
                       calls: seq<Arrival>, rest: seq<Arrival>, quiet: bool, ordinary: bool, denom: string)
    requires Underway(g, first, p, s, q, settled, calls + rest, quiet, ordinary, denom)
    ensures var s' := Served(s, calls);
            && Underway(g, first, p, s', q, settled, rest, quiet, ordinary, denom)
            && |s.rows| <= |s'.rows| <= |s.rows| + |calls| && q <= |s'.rows|
  {
    hide *;
    UnderwayParts(g, first, p, s, q, settled, calls + rest, quiet, ordinary, denom);
    RoundServes(g, first, p, s, q, settled, calls, rest);
    if quiet {
      assert calls == [] && rest == [];
      ServedNothing(s);
    }
    if ordinary {
      OrdinarySplit(calls, rest, denom);
      RoundStaysOrdinary(g, first, p, s, q, settled, calls, rest, denom);
    }
    SettlingBounds(g, first, p, Served(s, calls), q, settled);
    MakeUnderway(g, first, p, Served(s, calls), q, settled, rest, quiet, ordinary, denom);
  }

  lemma KnownAfterMarks(rows: seq<Row>, rows': seq<Row>, a: Arrival)
    requires Remarked(rows, rows') && KnownWithdrawal(rows', a)
    ensures KnownWithdrawal(rows, a)
  {
    var r :| r in rows' && r.WithdrawalRow? && r.request.withdrawId == a.request.withdrawId;
    var j :| 0 <= j < |rows'| && rows'[j] == r;
    assert rows[j] in rows && rows'[j] == rows[j].Marked(rows'[j].mark);
  }

  lemma FreshAfterMarks(rows: seq<Row>, rows': seq<Row>, rest: seq<Arrival>)
    requires Fresh(rows, rest) && Remarked(rows, rows')
    ensures Fresh(rows', rest)
  {
    hide KnownWithdrawal, Remarked;
    forall a | KnownWithdrawal(rows', a) ensures KnownWithdrawal(rows, a) { KnownAfterMarks(rows, rows', a); }
  }

  /** A pass that settles keeps the drain under way, one frontier further. */
  lemma UnderwaySettles(g: string, first: State, p: nat, s: State, q: nat, settled: seq<SettlementUpdate>,
                        rest: seq<Arrival>, quiet: bool, ordinary: bool, denom: string,
                        verifying: bool, expectedKey: string, oracle: PassOracle)
    requires GenesisApart(g) && Underway(g, first, p, s, q, settled, rest, quiet, ordinary, denom)
    requires SettleOnce(s, verifying, expectedKey, oracle).1 == Success(true)
    ensures q < |s.rows| && BuildPendingBatch(s, []).1.Success?
    ensures var s', q' := SettleOnce(s, verifying, expectedKey, oracle).0, q + |NextBatch(s.rows, q)|;
            && q < q' <= |s.rows| == |s'.rows|
            && Underway(g, first, p, s', q', settled + [BuildPendingBatch(s, []).1.value.update], rest, quiet,
              ordinary, denom)
  {
    hide *;
    UnderwayParts(g, first, p, s, q, settled, rest, quiet, ordinary, denom);
    SettlingStep(g, first, p, s, q, settled, verifying, expectedKey, oracle);
    var s', q' := SettleOnce(s, verifying, expectedKey, oracle).0, q + |NextBatch(s.rows, q)|;
    FreshAfterMarks(s.rows, s'.rows, rest);
    if quiet { DrainStep(g, first, p, s, q, settled, verifying, expectedKey, oracle); }
    if ordinary { OrdinaryAfterPass(s.rows, s'.rows, q, q', denom); }
    MakeUnderway(g, first, p, s', q', settled + [BuildPendingBatch(s, []).1.value.update], rest, quiet, ordinary,
      denom);
  }

  /** What a drain leaves behind when its last pass was idle, or failed. */
  ghost predicate Ended(g: string, first: State, p: nat, s: State, q: nat, settled: seq<SettlementUpdate>,
                        quiet: bool, idle: bool) {
    && SettledUpTo(first, p, s.rows, q, settled)
    && (idle ==> q == |s.rows| && Settling(g, first, p, s, q, settled))
    && (quiet ==> p <= |first.rows| && settled <= BatchesOf(first.rows, p, first.counter) && s.ledger == first.ledger)
    && (quiet && idle ==> Emptied(g, first, p, s, settled))
  }

  lemma UnderwayEnds(g: string, first: State, p: nat, s: State, q: nat, settled: seq<SettlementUpdate>,
                     rest: seq<Arrival>, quiet: bool, ordinary: bool, denom: string,
                     verifying: bool, expectedKey: string, oracle: PassOracle)
    requires GenesisApart(g) && Underway(g, first, p, s, q, settled, rest, quiet, ordinary, denom)
    requires SettleOnce(s, verifying, expectedKey, oracle).1 != Success(true)
    ensures var (s', r) := SettleOnce(s, verifying, expectedKey, oracle);
            Ended(g, first, p, s', q, settled, quiet, r == Success(false))
  {
    hide Settling, Chained, GenesisApart, SettleOnce, SettledUpTo, Drained, Emptied, BatchesOf, Fresh, OrdinaryFrom,
         OrdinaryCalls, Underway, Remarked, Trimmed, BuildPendingBatch, NextBatch, Grown, ChainedUpdates, AllOps,
         OpsOf;
    UnderwayParts(g, first, p, s, q, settled, rest, quiet, ordinary, denom);
    var (s', r) := SettleOnce(s, verifying, expectedKey, oracle);
    PassRemarks(s, verifying, expectedKey, oracle);
    SettlingUpTo(g, first, p, s, q, settled, s'.rows);
    SettlingStep(g, first, p, s, q, settled, verifying, expectedKey, oracle);
    if quiet {
      DrainBounds(g, first, p, s, q, settled);
      DrainStep(g, first, p, s, q, settled, verifying, expectedKey, oracle);
      DrainedPrefix(g, first, p, s, q, settled);
    }
  }

  lemma DrainBounds(g: string, first: State, p: nat, s: State, q: nat, settled: seq<SettlementUpdate>)
    requires Drained(g, first, p, s, q, settled)
    ensures p <= q <= |first.rows| && s.ledger == first.ledger
  {
    hide Chained, BatchesOf, Remarked;
  }

  /** Ordinary rows, ordinary calls to come, honest prover and chain, a well-formed first root. */
  ghost predicate AllOrdinary(g: string, first: State, p: nat, denom: string, calls: seq<Arrival>,
                              expectedKey: string, oracles: nat -> PassOracle) {
    Smooth(g, first, p, denom, expectedKey, oracles) && Trimmed(denom) && OrdinaryCalls(calls, denom)
  }

  lemma AllOrdinaryParts(g: string, first: State, p: nat, denom: string, calls: seq<Arrival>, expectedKey: string,
                         oracles: nat -> PassOracle)
    requires AllOrdinary(g, first, p, denom, calls, expectedKey, oracles)
    ensures Trimmed(denom) && OrdinaryFrom(first.rows, p, denom) && OrdinaryCalls(calls, denom) && ValidHex(g)
    ensures forall i: nat :: Honest(expectedKey, oracles(i))
  {
    hide Trimmed, OrdinaryFrom, OrdinaryCalls, ValidHex, Honest;
  }

  lemma OrdinaryPassNeverFails(g: string, first: State, p: nat, s: State, q: nat, settled: seq<SettlementUpdate>,
                               rest: seq<Arrival>, quiet: bool, denom: string,
                               verifying: bool, expectedKey: string, oracle: PassOracle)
    requires GenesisApart(g) && ValidHex(g) && Underway(g, first, p, s, q, settled, rest, quiet, true, denom)
    requires Honest(expectedKey, oracle)
    ensures SettleOnce(s, verifying, expectedKey, oracle).1.Success?
  {
    hide *;
    UnderwayParts(g, first, p, s, q, settled, rest, quiet, true, denom);
    OrdinaryPassSucceeds(g, s, q, denom, verifying, expectedKey, oracle);
  }

  /**
   * A drain cuts the log as it finds it: trailing deposits that were settled on their own would be
   * in one batch with the row that arrives after them. So what a busy drain settles need not be a
   * prefix of the batches of the log it ends with, though its operations are.
   */
  lemma LaterRowCutsAnew(rows: seq<Row>, p: nat, n: nat, r: Row)
    requires p < |rows| && forall i :: p <= i < |rows| ==> rows[i].DepositRow?
    ensures !(BatchesOf(rows, p, n) <= BatchesOf(rows + [r], p, n))
  {
    hide *;
    var rows' := rows + [r];
    BatchesOfStep(rows, p, n);
    BatchesOfStep(rows', p, n);
    BatchOpsInOrder(rows[p].rootBefore, rows, p, n + 1);
    BatchOpsInOrder(rows'[p].rootBefore, rows', p, n + 1);
    LaterRowJoins(rows, p, r);
    OpsOfLength(NextBatch(rows, p));
    OpsOfLength(NextBatch(rows', p));
    assert BatchesOf(rows, p, n)[0] != BatchesOf(rows', p, n)[0];
  }

  lemma OpsOfLength(rows: seq<Row>)
    ensures |OpsOf(rows)| == |rows|
  {
  }

  lemma LaterRowJoins(rows: seq<Row>, p: nat, r: Row)
    requires p < |rows| && forall i :: p <= i < |rows| ==> rows[i].DepositRow?
    ensures |NextBatch(rows, p)| < |NextBatch(rows + [r], p)|
  {
    hide NextBatch;
    var rows' := rows + [r];
    NextBatchHasOneWithdrawal(rows, p);
    NextBatchHasOneWithdrawal(rows', p);
    NextBatchSlice(rows, p);
    NextBatchSlice(rows', p);
    var m, m' := |NextBatch(rows, p)|, |NextBatch(rows', p)|;
    assert NextBatch(rows, p)[m - 1] == rows[p + m - 1] && NextBatch(rows', p)[m' - 1] == rows'[p + m' - 1];
  }

  /** The calls that get in before pass `i`. */
  function Round(arrivals: seq<seq<Arrival>>, i: nat): seq<Arrival> {
    if i < |arrivals| then arrivals[i] else []
  }

  /** The calls that get in before pass `i` or later. */
  function From(arrivals: seq<seq<Arrival>>, i: nat): seq<Arrival> {
    if i < |arrivals| then Flat(arrivals[i..]) else []
  }

  lemma RoundsGoOn(arrivals: seq<seq<Arrival>>, i: nat)
    ensures From(arrivals, i) == Round(arrivals, i) + From(arrivals, i + 1)
    ensures From(arrivals, 0) == Flat(arrivals)
    ensures arrivals == [] ==> From(arrivals, i) == []
  {
    assert arrivals[0..] == arrivals;
    if i < |arrivals| {
      var rest := arrivals[i..];
      assert rest[0] == arrivals[i] && rest[1..] == arrivals[i + 1..];
      assert i + 1 == |arrivals| ==> Flat(rest[1..]) == [];
    }
  }

  lemma OrdinarySplit(a: seq<Arrival>, b: seq<Arrival>, denom: string)
    requires OrdinaryCalls(a + b, denom)
    ensures OrdinaryCalls(a, denom) && OrdinaryCalls(b, denom)
  {
    hide OrdinaryEvent;
    assert forall i :: 0 <= i < |a| ==> (a + b)[i] == a[i];
    assert forall i :: 0 <= i < |b| ==> (a + b)[|a| + i] == b[i];
  }
}
