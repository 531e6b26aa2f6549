/** Restarting from the store: when replaying the pending rows restores the ledger. */
module Rehydrations {
  import opened Wrappers
  import opened Ledgers
  import opened LedgerLaws
  import opened SettlementLogs
  import opened SettlementModel
  import opened ChainInvariant
  import opened PendingBatches

  // ------------------------------------------------------------ replaying what is enabled

  lemma {:induction false} PlayableRuns(l: Ledger, ops: seq<Operation>, mvs: seq<Move>)
    requires |ops| == |mvs| && forall i :: 0 <= i < |ops| ==> MoveOf(ops[i]) == Some(mvs[i])
    requires Playable(l, mvs)
    ensures Run(l, ops) == Play(l, mvs) && Skips(l, ops) == 0
  {
    hide Apply, MoveOf, After, Enabled;
    if ops != [] {
      var front := ops[..|ops| - 1];
      PlayableRuns(l, front, mvs[..|mvs| - 1]);
      ApplyExactly(Run(l, front), ops[|ops| - 1]);
    }
  }

  lemma MovesOne(rows: seq<Row>, r: Row)
    ensures AllMoves(rows + [r]) <==> AllMoves(rows) && MoveOf(r.Op()).Some?
    ensures AllMoves(rows + [r]) ==> MovesOf(rows + [r]) == MovesOf(rows) + [MoveOf(r.Op()).value]
  {
    hide MoveOf;
    var all := rows + [r];
    assert all[|rows|] == r && forall i :: 0 <= i < |rows| ==> all[i] == rows[i];
  }

  lemma KindsOne(mvs: seq<Move>, mv: Move)
    ensures Credits(mvs + [mv]) == if mv.Credit? then Credits(mvs) + [mv] else Credits(mvs)
    ensures Debits(mvs + [mv]) == if mv.Debit? then Debits(mvs) + [mv] else Debits(mvs)
  {
    assert (mvs + [mv])[..|mvs|] == mvs;
  }

  lemma MovesNone()
    ensures MovesOf([]) == [] && Credits([]) == [] && Debits([]) == []
  {
  }

  lemma {:induction false} ListedCredits(rows: seq<Row>)
    requires AllMoves(rows)
    ensures AllMoves(DepositsIn(rows)) && MovesOf(DepositsIn(rows)) == Credits(MovesOf(rows))
    decreases |rows|
  {
    hide *;
    if rows == [] {
      DepositsInOne([], None);
      MovesNone();
    } else {
      var front, r := rows[..|rows| - 1], rows[|rows| - 1];
      assert rows == front + [r];
      MovesOne(front, r);
      MoveKind(r);
      KindsOne(MovesOf(front), MoveOf(r.Op()).value);
      ListedCredits(front);
      DepositsInOne(front, Some(r));
      MovesOne(DepositsIn(front), r);
    }
  }

  /** The listings of nothing, and of one row more. */
  lemma DepositsInOne(front: seq<Row>, r: Option<Row>)
    ensures r == None ==> DepositsIn([]) == [] && WithdrawalsIn([]) == []
    ensures r.Some? ==>
              DepositsIn(front + [r.value]) ==
              if r.value.DepositRow? then DepositsIn(front) + [r.value] else DepositsIn(front)
    ensures r.Some? ==>
              WithdrawalsIn(front + [r.value]) ==
              if r.value.WithdrawalRow? then WithdrawalsIn(front) + [r.value] else WithdrawalsIn(front)
  {
    hide Select;
    if r == None {
      SelectNone(IsDeposit);
      SelectNone(IsWithdrawal);
    } else {
      SelectOne(front, r.value, IsDeposit);
      SelectOne(front, r.value, IsWithdrawal);
    }
  }

  lemma {:induction false} ListedDebits(rows: seq<Row>)
    requires AllMoves(rows)
    ensures AllMoves(WithdrawalsIn(rows)) && MovesOf(WithdrawalsIn(rows)) == Debits(MovesOf(rows))
    decreases |rows|
  {
    hide *;
    if rows == [] {
      DepositsInOne([], None);
      MovesNone();
    } else {
      var front, r := rows[..|rows| - 1], rows[|rows| - 1];
      assert rows == front + [r];
      MovesOne(front, r);
      MoveKind(r);
      KindsOne(MovesOf(front), MoveOf(r.Op()).value);
      ListedDebits(front);
      DepositsInOne(front, Some(r));
      MovesOne(WithdrawalsIn(front), r);
    }
  }

  lemma MoveKind(r: Row)
    requires MoveOf(r.Op()).Some?
    ensures MoveOf(r.Op()).value.Credit? == r.DepositRow?
  {
    hide Text.Trim, Decimals.ParseNonNegative;
  }

  lemma AllPendingListed(rows: seq<Row>)
    requires forall r <- rows :: r.mark.status == Pending
    ensures Select(rows, IsPendingDeposit) == DepositsIn(rows)
    ensures Select(rows, IsPendingWithdrawal) == WithdrawalsIn(rows)
  {
    assert PendingFrom(rows, 0);
    PendingIsSuffix(rows, 0);
    assert rows[0..] == rows;
  }

  lemma ListedOps(rows: seq<Row>)
    requires AllMoves(rows)
    ensures |OpsIn(rows)| == |MovesOf(rows)|
    ensures forall i :: 0 <= i < |OpsIn(rows)| ==> MoveOf(OpsIn(rows)[i]) == Some(MovesOf(rows)[i])
  {
    hide MoveOf;
  }

  lemma SplitRuns(l: Ledger, ds: seq<Row>, ws: seq<Row>)
    requires AllMoves(ds) && AllMoves(ws) && Playable(l, MovesOf(ds) + MovesOf(ws))
    ensures Run(l, OpsIn(ds) + OpsIn(ws)) == Play(l, MovesOf(ds) + MovesOf(ws))
    ensures Skips(l, OpsIn(ds) + OpsIn(ws)) == 0
  {
    hide AllMoves, MovesOf, OpsIn, MoveOf, Playable, Play, Run, Skips;
    ListedOps(ds);
    ListedOps(ws);
    PlayConcat(l, MovesOf(ds), MovesOf(ws));
    PlayableRuns(l, OpsIn(ds), MovesOf(ds));
    PlayableRuns(Play(l, MovesOf(ds)), OpsIn(ws), MovesOf(ws));
    RunConcat(l, OpsIn(ds), OpsIn(ws));
    SkipsConcat(l, OpsIn(ds), OpsIn(ws));
  }

  /** A log that is still all pending replays without a skip to the ledger it was recorded from. */
  lemma PendingLogRestores(g: string, rows: seq<Row>, ledger: Ledger)
    requires Faithful(g, rows, ledger) && forall r <- rows :: r.mark.status == Pending
    ensures Run(Genesis(g), ReplayOps(rows)) == ledger && Skips(Genesis(g), ReplayOps(rows)) == 0
  {
    FaithfulLedger(g, rows, ledger);
    hide *;
    AllPendingListed(rows);
    ListedCredits(rows);
    ListedDebits(rows);
    assert MovesOf(rows)[..|rows|] == MovesOf(rows);
    DepositsFirst(Genesis(g), MovesOf(rows));
    SplitRuns(Genesis(g), DepositsIn(rows), WithdrawalsIn(rows));
  }

  // ------------------------------------------------------------------ counting what is known

  function Known(l: Ledger): nat { |l.deposits| + |l.nullifiers| }

  lemma MoveIsRemembered(l: Ledger, mv: Move)
    requires Enabled(l, mv)
    ensures Known(After(l, mv)) == Known(l) + 1
  {
    hide Moved, StateRoot.RootOf;
  }

  /** Every call that succeeds is remembered by exactly one deposit id or nullifier. */
  lemma {:induction false} RunRemembers(l: Ledger, ops: seq<Operation>)
    ensures Known(Run(l, ops)) + Skips(l, ops) == Known(l) + |ops|
  {
    hide Apply, MoveOf, After, Enabled, Known;
    if ops != [] {
      var front, op := ops[..|ops| - 1], ops[|ops| - 1];
      RunRemembers(l, front);
      ApplyExactly(Run(l, front), op);
      if Apply(Run(l, front), op).Success? { MoveIsRemembered(Run(l, front), MoveOf(op).value); }
    }
  }

  lemma {:induction false} PlayRemembers(l: Ledger, mvs: seq<Move>)
    requires Playable(l, mvs)
    ensures Known(Play(l, mvs)) == Known(l) + |mvs|
  {
    hide After, Enabled, Known;
    if mvs != [] {
      PlayRemembers(l, mvs[..|mvs| - 1]);
      MoveIsRemembered(Play(l, mvs[..|mvs| - 1]), mvs[|mvs| - 1]);
    }
  }

  lemma {:induction false} PendingCount(rows: seq<Row>)
    ensures |ReplayOps(rows)| <= |rows|
    ensures |ReplayOps(rows)| == |rows| ==> forall r <- rows :: r.mark.status == Pending
  {
    hide Select;
    if rows == [] {
      SelectNone(IsPendingDeposit);
      SelectNone(IsPendingWithdrawal);
    } else {
      var front, r := rows[..|rows| - 1], rows[|rows| - 1];
      assert rows == front + [r];
      PendingCount(front);
      SelectOne(front, r, IsPendingDeposit);
      SelectOne(front, r, IsPendingWithdrawal);
    }
  }

  /**
   * A restarted manager that rehydrates from the store is the manager that was lost if and only if
   * no row had left pending; then nothing is skipped.
   */
  lemma RehydrationRestoresExactly(g: string, rows: seq<Row>, ledger: Ledger)
    requires Faithful(g, rows, ledger)
    ensures Run(Genesis(g), ReplayOps(rows)) == ledger <==> forall r <- rows :: r.mark.status == Pending
    ensures (forall r <- rows :: r.mark.status == Pending) ==> Skips(Genesis(g), ReplayOps(rows)) == 0
  {
    hide Faithful, ReplayOps, Run, Skips, Playable, Play, MoveOf, LedgerAt;
    if forall r <- rows :: r.mark.status == Pending {
      PendingLogRestores(g, rows, ledger);
    }
    if Run(Genesis(g), ReplayOps(rows)) == ledger {
      LedgerRemembersRows(g, rows, ledger);
      RunRemembers(Genesis(g), ReplayOps(rows));
      PendingCount(rows);
    }
  }

  lemma LedgerRemembersRows(g: string, rows: seq<Row>, ledger: Ledger)
    requires Faithful(g, rows, ledger)
    ensures Known(ledger) == |rows| && Known(Genesis(g)) == 0
  {
    FaithfulLedger(g, rows, ledger);
    hide *;
    assert MovesOf(rows)[..|rows|] == MovesOf(rows);
    PlayRemembers(Genesis(g), MovesOf(rows));
  }

  // ---------------------------------------------------------------- replaying over live state

  /** The move's own id or nullifier is among the remembered ones. */
  ghost predicate Spent(l: Ledger, mv: Move) {
    if mv.Credit? then mv.id in l.deposits else mv.nullifier in l.nullifiers
  }

  lemma {:induction false} PlayedIsSpent(l: Ledger, mvs: seq<Move>, i: nat)
    requires Playable(l, mvs) && i < |mvs|
    ensures Spent(Play(l, mvs), mvs[i])
  {
    hide Moved, StateRoot.RootOf, Balance, Nonce;
    if i < |mvs| - 1 { PlayedIsSpent(l, mvs[..|mvs| - 1], i); }
  }

  lemma {:induction false} SpentCallsFail(l: Ledger, ops: seq<Operation>)
    requires forall i :: 0 <= i < |ops| && MoveOf(ops[i]).Some? ==> Spent(l, MoveOf(ops[i]).value)
    ensures Run(l, ops) == l && Skips(l, ops) == |ops|
  {
    hide Apply, MoveOf;
    if ops != [] {
      SpentCallsFail(l, ops[..|ops| - 1]);
      ApplyExactly(l, ops[|ops| - 1]);
    }
  }

  lemma ReplayedFromLog(rows: seq<Row>, op: Operation) returns (i: nat)
    requires op in ReplayOps(rows)
    ensures i < |rows| && rows[i].Op() == op
  {
    hide Select;
    var ds, ws := Select(rows, IsPendingDeposit), Select(rows, IsPendingWithdrawal);
    var k :| 0 <= k < |ReplayOps(rows)| && ReplayOps(rows)[k] == op;
    var r := if k < |ds| then ds[k] else ws[k - |ds|];
    assert r in ds || r in ws;
    i :| 0 <= i < |rows| && rows[i] == r;
  }

  /** Rehydrating over the live ledger replays nothing: every id and nullifier is already known. */
  lemma RehydrationIsIdempotent(g: string, rows: seq<Row>, ledger: Ledger)
    requires Faithful(g, rows, ledger)
    ensures Run(ledger, ReplayOps(rows)) == ledger && Skips(ledger, ReplayOps(rows)) == |ReplayOps(rows)|
  {
    FaithfulLedger(g, rows, ledger);
    hide Faithful, Playable, Play, MoveOf, ReplayOps, Spent;
    var ops := ReplayOps(rows);
    assert MovesOf(rows)[..|rows|] == MovesOf(rows);
    forall k | 0 <= k < |ops| && MoveOf(ops[k]).Some? ensures Spent(ledger, MoveOf(ops[k]).value) {
      var i := ReplayedFromLog(rows, ops[k]);
      PlayedIsSpent(Genesis(g), MovesOf(rows), i);
    }
    SpentCallsFail(ledger, ops);
  }
}
