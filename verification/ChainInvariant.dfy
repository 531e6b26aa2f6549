/**
 * The invariant that ties ledger, log and cursor together over every run: the log is the history
 * of the ledger, its rows read committed, then included, then pending, and the cursor stands at
 * the root where the uncommitted part starts.
 */
module ChainInvariant {
  import opened Wrappers
  import opened Text
  import opened Decimals
  import opened Hashing
  import opened Types
  import opened StateRoot
  import opened Ledgers
  import opened LedgerLaws
  import opened SettlementLogs
  import opened SettlementBuilders
  import opened SettlementModel

  // ------------------------------------------------------------ the log as a history

  ghost predicate AllMoves(rows: seq<Row>) {
    forall i :: 0 <= i < |rows| ==> MoveOf(rows[i].Op()).Some?
  }

  function MovesOf(rows: seq<Row>): seq<Move>
    requires AllMoves(rows)
  {
    seq(|rows|, i requires 0 <= i < |rows| => MoveOf(rows[i].Op()).value)
  }

  ghost predicate Replayable(g: string, rows: seq<Row>) {
    AllMoves(rows) && Playable(Genesis(g), MovesOf(rows))
  }

  /** The ledger after the first `i` rows of the log. */
  ghost function LedgerAt(g: string, rows: seq<Row>, i: nat): Ledger
    requires Replayable(g, rows) && i <= |rows|
  {
    PlayPrefix(Genesis(g), MovesOf(rows), i);
    Play(Genesis(g), MovesOf(rows)[..i])
  }

  /** Row `i` recorded the roots and balances around its own operation. */
  ghost predicate Recorded(g: string, rows: seq<Row>, i: nat)
    requires Replayable(g, rows) && i < |rows|
  {
    var k := MovesOf(rows)[i].key;
    var r := rows[i];
    && r.rootBefore == LedgerAt(g, rows, i).root
    && r.rootAfter == LedgerAt(g, rows, i + 1).root
    && r.balanceBefore == Decimal(Balance(LedgerAt(g, rows, i).accounts, k))
    && r.balanceAfter == Decimal(Balance(LedgerAt(g, rows, i + 1).accounts, k))
    && (r.WithdrawalRow? ==> Derived(r))
  }

  /** The derived fields of a withdrawal row are digests of its own inputs and some secret. */
  ghost predicate Derived(r: Row)
    requires r.WithdrawalRow?
  {
    && (exists secret :: NullifierFor(secret, r.request.nonce) == Success(r.nullifier))
    && WithdrawAddressHash(r.request.destination) == Success(r.destinationHash)
  }

  ghost predicate Faithful(g: string, rows: seq<Row>, ledger: Ledger) {
    && Replayable(g, rows)
    && ledger == LedgerAt(g, rows, |rows|)
    && (forall i :: 0 <= i < |rows| ==> Recorded(g, rows, i))
    && UniqueKeys(rows)
    && (forall i :: 0 <= i < |rows| && rows[i].DepositRow? ==> rows[i].record.depositId in ledger.deposits)
  }

  // ------------------------------------------------------------------------ phases

  /** The mark carries the id of a batch numbered below `n`. */
  ghost predicate Numbered(m: Mark, n: nat) {
    exists k: nat :: k < n && m.batchId == Some(BatchId(k))
  }

  /**
   * Rows below `c` are committed, rows from `c` to `p` have status `st` in the batch numbered `n`,
   * the rest wait.
   */
  ghost predicate Phased(rows: seq<Row>, c: nat, p: nat, n: nat, st: Status) {
    && c <= p <= |rows|
    && (forall i :: 0 <= i < c ==>
          rows[i].mark.status == Committed && Numbered(rows[i].mark, if c < p then n else n + 1))
    && (forall i :: c <= i < p ==> rows[i].mark.status == st && rows[i].mark.batchId == Some(BatchId(n)))
    && (forall i :: p <= i < |rows| ==>
          rows[i].mark.status == Pending && rows[i].mark.batchId == None && rows[i].mark.txHash == None)
  }

  /** The chain invariant; the batch between the frontiers is outstanding, or the chain turned it down. */
  ghost predicate Chained(g: string, s: State, c: nat, p: nat, st: Status) {
    && Faithful(g, s.rows, s.ledger)
    && Phased(s.rows, c, p, s.counter, st) && (st == Included || (st == Failed && c < p))
    && (s.cursor == None ==> s.rows == [])
    && CursorOf(s).committedRoot == LedgerAt(g, s.rows, c).root
  }

  /** The invariant with no batch turned down. */
  ghost predicate Inv(g: string, s: State, c: nat, p: nat) { Chained(g, s, c, p, Included) }

  /** The invariant with the batch between the frontiers turned down. */
  ghost predicate Halted(g: string, s: State, c: nat, p: nat) { Chained(g, s, c, p, Failed) }

  lemma RowRoots(g: string, rows: seq<Row>, ledger: Ledger, i: nat)
    requires Faithful(g, rows, ledger) && i < |rows|
    ensures rows[i].rootBefore == LedgerAt(g, rows, i).root && rows[i].rootAfter == LedgerAt(g, rows, i + 1).root
  {
    hide LedgerAt;
    assert Recorded(g, rows, i);
  }

  lemma FaithfulLedger(g: string, rows: seq<Row>, ledger: Ledger)
    requires Faithful(g, rows, ledger)
    ensures Replayable(g, rows) && ledger == LedgerAt(g, rows, |rows|)
  {
  }

  /** Adjacent rows meet in a root. */
  ghost predicate Consecutive(rows: seq<Row>) {
    forall i, j :: 0 <= i < j < |rows| && j == i + 1 ==> rows[i].rootAfter == rows[j].rootBefore
  }

  lemma AdjacentRowsMeet(g: string, rows: seq<Row>, ledger: Ledger, i: nat)
    requires Faithful(g, rows, ledger) && i + 1 < |rows|
    ensures rows[i].rootAfter == rows[i + 1].rootBefore
  {
    hide LedgerAt, Faithful;
    RowRoots(g, rows, ledger, i);
    RowRoots(g, rows, ledger, i + 1);
  }

  lemma FaithfulConsecutive(g: string, rows: seq<Row>, ledger: Ledger)
    requires Faithful(g, rows, ledger)
    ensures Consecutive(rows)
  {
    hide Faithful;
    forall i, j | 0 <= i < j < |rows| && j == i + 1 ensures rows[i].rootAfter == rows[j].rootBefore {
      AdjacentRowsMeet(g, rows, ledger, i);
    }
  }

  /** What the invariant says in the log's own terms. */
  lemma ChainShape(g: string, s: State, c: nat, p: nat, st: Status)
    requires Chained(g, s, c, p, st)
    ensures c <= p <= |s.rows| && (st == Included || (st == Failed && c < p))
    ensures forall i :: 0 <= i < |s.rows| ==>
              s.rows[i].mark.status == if i < c then Committed else if i < p then st else Pending
    ensures Consecutive(s.rows)
    ensures CursorOf(s).committedRoot == if c < |s.rows| then s.rows[c].rootBefore else s.ledger.root
    ensures s.rows != [] ==> s.rows[|s.rows| - 1].rootAfter == s.ledger.root
  {
    hide LedgerAt, Faithful, Numbered, Consecutive, Replayable;
    FaithfulLedger(g, s.rows, s.ledger);
    FaithfulConsecutive(g, s.rows, s.ledger);
    if c < |s.rows| { RowRoots(g, s.rows, s.ledger, c); }
    if s.rows != [] { RowRoots(g, s.rows, s.ledger, |s.rows| - 1); }
  }

  // --------------------------------------------------------- marks do not touch history

  ghost predicate Remarked(rows: seq<Row>, rows': seq<Row>) {
    |rows| == |rows'| && forall i :: 0 <= i < |rows| ==> rows'[i] == rows[i].Marked(rows'[i].mark)
  }

  lemma RemarkedMoves(g: string, rows: seq<Row>, rows': seq<Row>)
    requires Remarked(rows, rows') && Replayable(g, rows)
    ensures Replayable(g, rows') && MovesOf(rows') == MovesOf(rows)
    ensures forall i: nat :: i <= |rows| ==> LedgerAt(g, rows', i) == LedgerAt(g, rows, i)
  {
    hide MoveOf, Playable, Play;
    forall i | 0 <= i < |rows| ensures rows'[i].Op() == rows[i].Op() {
      assert rows'[i] == rows[i].Marked(rows'[i].mark);
    }
    assert MovesOf(rows') == MovesOf(rows);
  }

  lemma RemarkedFaithful(g: string, rows: seq<Row>, rows': seq<Row>, ledger: Ledger)
    requires Remarked(rows, rows') && Faithful(g, rows, ledger)
    ensures Faithful(g, rows', ledger)
  {
    hide LedgerAt, Replayable, MovesOf, NullifierFor, WithdrawAddressHash;
    RemarkedMoves(g, rows, rows');
    forall i | 0 <= i < |rows| ensures Recorded(g, rows', i) {
      assert Recorded(g, rows, i) && rows'[i] == rows[i].Marked(rows'[i].mark);
    }
    forall i, j | 0 <= i < j < |rows'| ensures !SameKey(rows'[i], rows'[j]) {
      assert !SameKey(rows[i], rows[j]);
      assert rows'[i] == rows[i].Marked(rows'[i].mark) && rows'[j] == rows[j].Marked(rows'[j].mark);
    }
  }

  // ------------------------------------------------------------------------ applying

  lemma AppendedMoves(g: string, rows: seq<Row>, r: Row)
    requires Replayable(g, rows) && MoveOf(r.Op()).Some?
    requires Enabled(LedgerAt(g, rows, |rows|), MoveOf(r.Op()).value)
    ensures Replayable(g, rows + [r])
    ensures MovesOf(rows + [r]) == MovesOf(rows) + [MoveOf(r.Op()).value]
    ensures forall i: nat :: i <= |rows| ==> LedgerAt(g, rows + [r], i) == LedgerAt(g, rows, i)
    ensures LedgerAt(g, rows + [r], |rows| + 1) == After(LedgerAt(g, rows, |rows|), MoveOf(r.Op()).value)
  {
    hide MoveOf, Playable, Play, After, Enabled;
    var mvs, mv := MovesOf(rows), MoveOf(r.Op()).value;
    assert MovesOf(rows + [r]) == mvs + [mv];
    assert mvs[..|rows|] == mvs;
    PlayOne(Genesis(g), mvs, mv);
    assert (mvs + [mv])[..|rows| + 1] == mvs + [mv];
    forall i: nat | i <= |rows| ensures LedgerAt(g, rows + [r], i) == LedgerAt(g, rows, i) {
      assert (mvs + [mv])[..i] == mvs[..i];
    }
  }

  /** The row a successful apply writes: it records the move around which the ledger changed. */
  ghost predicate RecordsMove(l: Ledger, r: Row, l': Ledger) {
    && MoveOf(r.Op()).Some? && Enabled(l, MoveOf(r.Op()).value) && l' == After(l, MoveOf(r.Op()).value)
    && r.mark == FRESH
    && r.rootBefore == l.root && r.rootAfter == l'.root
    && r.balanceBefore == Decimal(Balance(l.accounts, MoveOf(r.Op()).value.key))
    && r.balanceAfter == Decimal(Balance(l'.accounts, MoveOf(r.Op()).value.key))
    && (r.WithdrawalRow? ==> Derived(r))
    && (r.DepositRow? ==>
      MoveOf(r.Op()).value == Credit(r.record.depositId, MoveOf(r.Op()).value.key, MoveOf(r.Op()).value.amount))
  }

  lemma AppendFaithful(g: string, rows: seq<Row>, l: Ledger, r: Row, l': Ledger)
    requires Faithful(g, rows, l) && RecordsMove(l, r, l')
    requires forall i :: 0 <= i < |rows| ==> !SameKey(rows[i], r)
    ensures Faithful(g, rows + [r], l')
    ensures forall i: nat :: i <= |rows| ==> LedgerAt(g, rows + [r], i) == LedgerAt(g, rows, i)
  {
    hide LedgerAt, Replayable, MoveOf, Derived, RootOf, Moved;
    AppendedMoves(g, rows, r);
    var rows' := rows + [r];
    forall i | 0 <= i < |rows'| ensures Recorded(g, rows', i) {
      if i < |rows| { assert Recorded(g, rows, i) && rows'[i] == rows[i]; }
    }
  }

  lemma AppendPhased(rows: seq<Row>, r: Row, c: nat, p: nat, n: nat, st: Status)
    requires Phased(rows, c, p, n, st) && r.mark == FRESH
    ensures Phased(rows + [r], c, p, n, st)
  {
    hide Numbered;
  }

  lemma RecordsFresh(l: Ledger, r: Row, l': Ledger)
    requires RecordsMove(l, r, l')
    ensures r.mark == FRESH
  {
    hide MoveOf, After, Enabled, Derived;
  }

  lemma ChainedParts(g: string, s: State, c: nat, p: nat, st: Status)
    requires Chained(g, s, c, p, st)
    ensures Faithful(g, s.rows, s.ledger) && Phased(s.rows, c, p, s.counter, st) && Replayable(g, s.rows)
    ensures UniqueKeys(s.rows) && (st == Included || (st == Failed && c < p))
    ensures c <= p <= |s.rows| && CursorOf(s).committedRoot == LedgerAt(g, s.rows, c).root
    ensures s.cursor == None ==> s.rows == []
  {
    hide LedgerAt, Recorded, MoveOf, Playable;
  }

  lemma MakeChained(g: string, s: State, c: nat, p: nat, st: Status)
    requires Faithful(g, s.rows, s.ledger) && Phased(s.rows, c, p, s.counter, st) && Replayable(g, s.rows) &&
              c <= |s.rows|
    requires (st == Included || (st == Failed && c < p)) && s.cursor.Some?
    requires s.cursor.value.committedRoot == LedgerAt(g, s.rows, c).root
    ensures Chained(g, s, c, p, st)
  {
    hide LedgerAt, Faithful, Phased, Replayable;
  }

  lemma AppendKeeps(g: string, s: State, c: nat, p: nat, st: Status, r: Row, l: Ledger, pendingRoot: string)
    requires Chained(g, s, c, p, st) && RecordsMove(s.ledger, r, l)
    requires forall i :: 0 <= i < |s.rows| ==> !SameKey(s.rows[i], r)
    ensures Chained(g, State(l, s.rows + [r], Some(CursorOf(s).(pendingRoot := pendingRoot)), s.counter), c, p, st)
  {
    hide *;
    ChainedParts(g, s, c, p, st);
    RecordsFresh(s.ledger, r, l);
    AppendPhased(s.rows, r, c, p, s.counter, st);
    AppendFaithful(g, s.rows, s.ledger, r, l);
    FaithfulLedger(g, s.rows + [r], l);
    MakeChained(g, State(l, s.rows + [r], Some(CursorOf(s).(pendingRoot := pendingRoot)), s.counter), c, p, st);
  }

  lemma DepositRecordsMove(l: Ledger, d: DepositRecord)
    requires Apply(l, DepositOp(d)).Success?
    ensures RecordsMove(l, DepositRowFor(l, d, Apply(l, DepositOp(d)).value), Apply(l, DepositOp(d)).value)
    ensures d.depositId !in l.deposits
  {
    ApplyExactly(l, DepositOp(d));
    hide Apply, Decimal, RootOf, ParseNonNegative, Trim, Trimmed, Moved;
  }

  lemma DepositKeeps(g: string, s: State, c: nat, p: nat, st: Status, d: DepositRecord)
    requires Chained(g, s, c, p, st)
    ensures Chained(g, ApplyIndexedDeposit(s, d).0, c, p, st)
  {
    hide LedgerAt, Apply, RecordsMove, DepositRowFor;
    if Apply(s.ledger, DepositOp(d)).Success? {
      var l := Apply(s.ledger, DepositOp(d)).value;
      DepositRecordsMove(s.ledger, d);
      var row := DepositRowFor(s.ledger, d, l);
      DepositRowShape(s.ledger, d, l);
      assert forall i :: 0 <= i < |s.rows| ==> !SameKey(s.rows[i], row);
      AppendKeeps(g, s, c, p, st, row, l, l.root);
    }
  }

  lemma DepositRowShape(l: Ledger, d: DepositRecord, l': Ledger)
    ensures DepositRowFor(l, d, l').DepositRow? && DepositRowFor(l, d, l').record == d
  {
  }

  lemma WithdrawalRecordsMove(l: Ledger, w: WithdrawRequest, secret: string, nullifier: string, hash: string)
    requires NullifierFor(secret, w.nonce) == Success(nullifier) && WithdrawAddressHash(w.destination) == Success(hash)
    requires Apply(l, WithdrawOp(w, nullifier)).Success?
    ensures RecordsMove(l, WithdrawalRowFor(l, w, nullifier, hash, Apply(l, WithdrawOp(w, nullifier)).value),
                        Apply(l, WithdrawOp(w, nullifier)).value)
  {
    ApplyExactly(l, WithdrawOp(w, nullifier));
    hide Apply, Decimal, RootOf, ParseNonNegative, Trim, Trimmed, NullifierFor, WithdrawAddressHash, Moved;
  }

  lemma WithdrawalKeeps(g: string, s: State, c: nat, p: nat, st: Status, w: WithdrawRequest, userSecret: string)
    requires Chained(g, s, c, p, st)
    requires forall i :: 0 <= i < |s.rows| && s.rows[i].WithdrawalRow? ==> s.rows[i].request.withdrawId != w.withdrawId
    ensures Chained(g, ApplyWithdrawRequest(s, w, userSecret).0, c, p, st)
  {
    hide LedgerAt, Apply, RecordsMove, NullifierFor, WithdrawAddressHash, EffectiveSecret, Decimal, AccountAt;
    var nullifier := NullifierFor(EffectiveSecret(userSecret), w.nonce);
    var hash := WithdrawAddressHash(w.destination);
    if nullifier.Success? && hash.Success? && Apply(s.ledger, WithdrawOp(w, nullifier.value)).Success? {
      var l := Apply(s.ledger, WithdrawOp(w, nullifier.value)).value;
      WithdrawalRecordsMove(s.ledger, w, EffectiveSecret(userSecret), nullifier.value, hash.value);
      var row := WithdrawalRowFor(s.ledger, w, nullifier.value, hash.value, l);
      assert forall i :: 0 <= i < |s.rows| ==> !SameKey(s.rows[i], row);
      AppendKeeps(g, s, c, p, st, row, l, l.root);
    }
  }

  // ------------------------------------------------------- commit, fail, reopen, mark

  lemma EarlierNumber(m: Mark, n: nat)
    requires Numbered(m, n)
    ensures m.batchId != Some(BatchId(n)) && m.batchId != None && Numbered(m, n + 1)
  {
    hide BatchId;
    var k: nat :| k < n && m.batchId == Some(BatchId(k));
    if BatchId(k) == BatchId(n) { BatchIdInjective(k, n); }
  }

  /** The rows that carry the number of the batch between the frontiers are exactly its rows. */
  lemma BatchRows(rows: seq<Row>, c: nat, p: nat, n: nat, st: Status)
    requires Phased(rows, c, p, n, st) && c < p
    ensures forall i :: 0 <= i < |rows| ==> (rows[i].mark.batchId == Some(BatchId(n)) <==> c <= i < p)
    ensures forall i :: 0 <= i < c ==> Numbered(rows[i].mark, n + 1)
  {
    hide Numbered;
    forall i | 0 <= i < c ensures rows[i].mark.batchId != Some(BatchId(n)) && Numbered(rows[i].mark, n + 1) {
      EarlierNumber(rows[i].mark, n);
    }
  }

  lemma CommitPhased(rows: seq<Row>, c: nat, p: nat, n: nat, st: Status, txHash: string)
    requires Phased(rows, c, p, n, st) && c < p
    ensures var rows' := WithStatus(rows, BatchId(n), Committed, txHash, "");
            Remarked(rows, rows') && Phased(rows', p, p, n, Included)
  {
    hide BatchId;
    BatchRows(rows, c, p, n, st);
  }

  lemma FailPhased(rows: seq<Row>, c: nat, p: nat, n: nat, st: Status, reason: string)
    requires Phased(rows, c, p, n, st) && c < p
    ensures var rows' := WithStatus(rows, BatchId(n), Failed, "", reason);
            Remarked(rows, rows') && Phased(rows', c, p, n, Failed)
  {
    hide BatchId, Numbered;
    BatchRows(rows, c, p, n, st);
  }

  lemma ReopenPhased(rows: seq<Row>, c: nat, p: nat, n: nat, reason: string)
    requires Phased(rows, c, p, n, Included) && c < p
    ensures var rows' := WithReopened(rows, BatchId(n), reason);
            Remarked(rows, rows') && Phased(rows', c, c, n, Included)
  {
    hide BatchId, Numbered;
    BatchRows(rows, c, p, n, Included);
  }

  /** A change of marks that moves the frontiers moves them in the invariant. */
  lemma RemarkKeeps(g: string, s: State, c: nat, p: nat, st: Status, s': State, c': nat, p': nat, st': Status)
    requires Chained(g, s, c, p, st) && s'.ledger == s.ledger && Remarked(s.rows, s'.rows)
    requires Phased(s'.rows, c', p', s'.counter, st') && (st' == Included || (st' == Failed && c' < p'))
    requires s'.cursor.Some? && Replayable(g, s.rows) && c' <= |s.rows|
    requires s'.cursor.value.committedRoot == LedgerAt(g, s.rows, c').root
    ensures Chained(g, s', c', p', st')
  {
    hide *;
    ChainedParts(g, s, c, p, st);
    RemarkedFaithful(g, s.rows, s'.rows, s.ledger);
    RemarkedMoves(g, s.rows, s'.rows);
    RemarkedSize(s.rows, s'.rows);
    MakeChained(g, s', c', p', st');
  }

  lemma RemarkedSize(rows: seq<Row>, rows': seq<Row>)
    requires Remarked(rows, rows')
    ensures |rows| == |rows'|
  {
  }

  lemma CursorSet(g: string, s: State, c: nat, p: nat, st: Status)
    requires Chained(g, s, c, p, st) && s.rows != []
    ensures s.cursor == Some(CursorOf(s))
  {
    hide Faithful, Phased, LedgerAt;
  }

  /** The commit of the batch between the frontiers, outstanding or turned down before. */
  lemma CommitKeeps(g: string, s: State, c: nat, p: nat, st: Status, txHash: string, newRoot: string)
    requires Chained(g, s, c, p, st) && c < p && p <= |s.rows| && Replayable(g, s.rows)
    requires newRoot == LedgerAt(g, s.rows, p).root
    ensures Inv(g, CommitBatch(s, BatchId(s.counter), txHash, newRoot), p, p)
  {
    hide LedgerAt, BatchId, Faithful, Phased, WithStatus, Replayable, Chained;
    ChainedParts(g, s, c, p, st);
    CommitPhased(s.rows, c, p, s.counter, st, txHash);
    RemarkKeeps(g, s, c, p, st, CommitBatch(s, BatchId(s.counter), txHash, newRoot), p, p, Included);
  }

  /** A batch the chain turns down, once or again, stays between the frontiers as failed. */
  lemma FailHalts(g: string, s: State, c: nat, p: nat, st: Status, reason: string)
    requires Chained(g, s, c, p, st) && c < p
    ensures Halted(g, FailBatch(s, BatchId(s.counter), reason), c, p)
  {
    hide LedgerAt, BatchId, Faithful, Phased, WithStatus, Replayable, Chained;
    ChainedParts(g, s, c, p, st);
    CursorSet(g, s, c, p, st);
    FailPhased(s.rows, c, p, s.counter, st, reason);
    RemarkKeeps(g, s, c, p, st, FailBatch(s, BatchId(s.counter), reason), c, p, Failed);
  }

  /** An answer for a batch no row belongs to changes nothing. */
  lemma NoRowsToFail(s: State, batchId: string, reason: string)
    requires forall i :: 0 <= i < |s.rows| ==> s.rows[i].mark.batchId != Some(batchId)
    ensures FailBatch(s, batchId, reason) == s
  {
    assert WithStatus(s.rows, batchId, Failed, "", reason) == s.rows;
  }

  lemma NothingToReopen(rows: seq<Row>, c: nat, p: nat, n: nat, st: Status, batchId: string, reason: string)
    requires Phased(rows, c, p, n, st) && (batchId != BatchId(n) || c == p || st == Failed)
    ensures WithReopened(rows, batchId, reason) == rows
    ensures forall r <- rows :: !IsIncludedIn(r, batchId)
  {
    hide BatchId, Numbered;
  }

  /** Reopening touches only the outstanding batch; any other id finds nothing to reopen. */
  lemma ReopenKeeps(g: string, s: State, c: nat, p: nat, st: Status, batchId: string, reason: string)
    requires Chained(g, s, c, p, st)
    ensures var found := batchId == BatchId(s.counter) && c < p && st == Included;
            && Chained(g, CancelIncludedBatch(s, batchId, reason).0, c, if found then c else p, st)
            && (found ==> CancelIncludedBatch(s, batchId, reason).1 == Success(()))
            && (!found ==> CancelIncludedBatch(s, batchId, reason) == (s, Failure(RecordNotFound)))
  {
    hide LedgerAt, BatchId, Faithful, WithReopened, Replayable, Chained, Numbered;
    ChainedParts(g, s, c, p, st);
    if batchId == BatchId(s.counter) && c < p && st == Included {
      assert s.rows[c] in s.rows && IsIncludedIn(s.rows[c], batchId);
      hide Phased;
      CursorSet(g, s, c, p, st);
      ReopenPhased(s.rows, c, p, s.counter, reason);
      RemarkKeeps(g, s, c, p, st, CancelIncludedBatch(s, batchId, reason).0, c, c, Included);
    } else {
      hide Phased;
      NothingToReopen(s.rows, c, p, s.counter, st, batchId, reason);
    }
  }
}
