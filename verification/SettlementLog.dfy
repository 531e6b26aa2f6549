/**
 * The durable settlement log. The two SQL tables are kept as one list of tagged rows in the order
 * they were inserted; either listing reads only its own rows, so the order between the tables is
 * there for specifications and for nothing else.
 */
module SettlementLogs {
  import opened Wrappers
  import opened Types
  import opened Ledgers

  datatype Status = Pending | Included | Committed | Failed

  /** The columns a settlement pass rewrites. None is SQL NULL. */
  datatype Mark = Mark(
    status: Status, batchId: Option<string>, txHash: Option<string>, errorMessage: Option<string>)

  const FRESH := Mark(Pending, None, None, None)

  /** NULLIF(s, ''). */
  function NullIfEmpty(s: string): Option<string> { if s == "" then None else Some(s) }

  datatype Row =
    | DepositRow(record: DepositRecord,
                 rootBefore: string, rootAfter: string, balanceBefore: string, balanceAfter: string, mark: Mark)
    | WithdrawalRow(request: WithdrawRequest, nullifier: string, destinationHash: string,
                    rootBefore: string, rootAfter: string, balanceBefore: string, balanceAfter: string, mark: Mark)
  {
    function Id(): string { if DepositRow? then record.depositId else request.withdrawId }

    function Owner(): string { if DepositRow? then record.owner else request.owner }

    function Denom(): string { if DepositRow? then record.denom else request.denom }

    function Op(): Operation {
      if DepositRow? then DepositOp(record) else WithdrawOp(request, nullifier)
    }

    function Marked(m: Mark): Row { this.(mark := m) }
  }

  datatype Cursor = Cursor(committedRoot: string, pendingRoot: string, lastCommittedBatchId: string)

  /** Same table and same primary key. */
  predicate SameKey(r: Row, s: Row) { r.DepositRow? == s.DepositRow? && r.Id() == s.Id() }

  // ------------------------------------------------------------- statements on rows

  /** INSERT … ON CONFLICT DO UPDATE; an updated row keeps its place. */
  function Upserted(rows: seq<Row>, row: Row): seq<Row> {
    if exists r <- rows :: SameKey(r, row) then
      seq(|rows|, i requires 0 <= i < |rows| => if SameKey(rows[i], row) then row else rows[i])
    else
      rows + [row]
  }

  function Select(rows: seq<Row>, p: Row -> bool): (out: seq<Row>)
    ensures forall r <- out :: r in rows && p(r)
  {
    if rows == [] then [] else
      assert rows == rows[..|rows| - 1] + [rows[|rows| - 1]];
      Select(rows[..|rows| - 1], p) + if p(rows[|rows| - 1]) then [rows[|rows| - 1]] else []
  }

  predicate IsPendingDeposit(r: Row) { r.DepositRow? && r.mark.status == Pending }

  predicate IsPendingWithdrawal(r: Row) { r.WithdrawalRow? && r.mark.status == Pending }

  /** Is `r` one of the rows these id lists name? */
  predicate Named(r: Row, depositIds: seq<string>, withdrawIds: seq<string>) {
    if r.DepositRow? then r.Id() in depositIds else r.Id() in withdrawIds
  }

  function IncludedRow(r: Row, batchId: string): Row {
    r.Marked(r.mark.(status := Included, batchId := Some(batchId)))
  }

  function WithIncluded(rows: seq<Row>, batchId: string, depositIds: seq<string>, withdrawIds: seq<string>): seq<Row> {
    seq(|rows|, i requires 0 <= i < |rows| =>
      if Named(rows[i], depositIds, withdrawIds) then IncludedRow(rows[i], batchId) else rows[i])
  }

  /** Every id names a row. */
  predicate AllFound(rows: seq<Row>, depositIds: seq<string>, withdrawIds: seq<string>) {
    && (forall id <- depositIds :: exists r <- rows :: r.DepositRow? && r.Id() == id)
    && (forall id <- withdrawIds :: exists r <- rows :: r.WithdrawalRow? && r.Id() == id)
  }

  /** markByBatch: whatever its status, a row of the batch takes the new one. */
  function WithStatus(rows: seq<Row>, batchId: string, status: Status, txHash: string, error: string): seq<Row> {
    seq(|rows|, i requires 0 <= i < |rows| =>
      if rows[i].mark.batchId == Some(batchId)
      then rows[i].Marked(Mark(status, rows[i].mark.batchId, NullIfEmpty(txHash), NullIfEmpty(error)))
      else rows[i])
  }

  predicate IsIncludedIn(r: Row, batchId: string) {
    r.mark.batchId == Some(batchId) && r.mark.status == Included
  }

  function WithReopened(rows: seq<Row>, batchId: string, reason: string): seq<Row> {
    seq(|rows|, i requires 0 <= i < |rows| =>
      if IsIncludedIn(rows[i], batchId) then rows[i].Marked(Mark(Pending, None, None, NullIfEmpty(reason)))
      else rows[i])
  }

  // ---------------------------------------------------- what the statements keep and undo

  ghost predicate UniqueKeys(rows: seq<Row>) {
    forall i, j :: 0 <= i < j < |rows| ==> !SameKey(rows[i], rows[j])
  }

  /** After an upsert the key holds exactly the new row, and every other row is still there. */
  lemma UpsertKeepsOnePerKey(rows: seq<Row>, row: Row)
    requires UniqueKeys(rows)
    ensures UniqueKeys(Upserted(rows, row))
    ensures forall r :: r in Upserted(rows, row) <==> r == row || (r in rows && !SameKey(r, row))
  {
    var out := Upserted(rows, row);
    if exists r <- rows :: SameKey(r, row) {
      var i :| 0 <= i < |rows| && SameKey(rows[i], row);
      assert out[i] == row;
      forall r | r in rows && !SameKey(r, row) ensures r in out {
        var j :| 0 <= j < |rows| && rows[j] == r;
        assert out[j] == r;
      }
    }
  }

  /** Saving a key twice leaves what saving the later row alone leaves. */
  lemma LastUpsertWins(rows: seq<Row>, a: Row, b: Row)
    requires SameKey(a, b)
    ensures Upserted(Upserted(rows, a), b) == Upserted(rows, b)
  {
    var once := Upserted(rows, a);
    if exists r <- rows :: SameKey(r, a) {
      var i :| 0 <= i < |rows| && SameKey(rows[i], a);
      assert once[i] == a && SameKey(rows[i], b);
      assert a in once && rows[i] in rows;
    } else {
      assert once[|rows|] == a;
      assert a in once;
      assert forall r <- rows :: !SameKey(r, b);
    }
  }

  /** The chain's last answer for a batch is the one that stays: an earlier one leaves no trace. */
  lemma LastStatusWins(rows: seq<Row>, batchId: string, s: Status, txHash: string, error: string,
                       s': Status, txHash': string, error': string)
    ensures WithStatus(WithStatus(rows, batchId, s, txHash, error), batchId, s', txHash', error') ==
            WithStatus(rows, batchId, s', txHash', error')
  {
  }

  /** Answers for two batches may arrive in either order. */
  lemma StatusesOfTwoBatchesCommute(rows: seq<Row>, a: string, b: string, s: Status, txHash: string, error: string,
                                    s': Status, txHash': string, error': string)
    requires a != b
    ensures WithStatus(WithStatus(rows, a, s, txHash, error), b, s', txHash', error') ==
            WithStatus(WithStatus(rows, b, s', txHash', error'), a, s, txHash, error)
  {
    var x := WithStatus(WithStatus(rows, a, s, txHash, error), b, s', txHash', error');
    var y := WithStatus(WithStatus(rows, b, s', txHash', error'), a, s, txHash, error);
    forall i | 0 <= i < |rows| ensures x[i] == y[i] {}
  }

  // ------------------------------------------------------------------- the store

  class OffchainSettlementRepository {
    var rows: seq<Row>
    var cursor: Option<Cursor>

    constructor ()
      ensures rows == [] && cursor == None
    {
      rows, cursor := [], None;
    }

    method GetCursor() returns (r: Result<Cursor>)
      ensures r == if cursor.Some? then Success(cursor.value) else Failure(RecordNotFound)
    {
      return if cursor.Some? then Success(cursor.value) else Failure(RecordNotFound);
    }

    method UpsertCursor(c: Cursor)
      modifies `cursor
      ensures cursor == Some(c)
    {
      cursor := Some(c);
    }

    /** SavePendingDeposit and SavePendingWithdrawal: the key holds `row` afterwards, in its place or at the end. */
    method SavePending(row: Row)
      modifies `rows
      ensures forall i :: 0 <= i < |old(rows)| ==>
                i < |rows| && rows[i] == if SameKey(old(rows)[i], row) then row else old(rows)[i]
      ensures (exists r <- old(rows) :: SameKey(r, row)) ==> |rows| == |old(rows)|
      ensures !(exists r <- old(rows) :: SameKey(r, row)) ==> |rows| == |old(rows)| + 1 && rows[|old(rows)|] == row
      ensures rows == Upserted(old(rows), row)
    {
      var table: seq<Row> := [];
      var found := false;
      for i := 0 to |rows|
        invariant |table| == i
        invariant forall j :: 0 <= j < i ==> table[j] == if SameKey(rows[j], row) then row else rows[j]
        invariant found <==> exists j :: 0 <= j < i && SameKey(rows[j], row)
      {
        if SameKey(rows[i], row) {
          found := true;
          table := table + [row];
        } else {
          table := table + [rows[i]];
        }
      }
      if !found {
        table := table + [row];
        assert table[..|rows|] == rows;
      }
      rows := table;
    }

    method ListPendingDeposits() returns (out: seq<Row>)
      ensures out == Select(rows, IsPendingDeposit)
    {
      out := [];
      for i := 0 to |rows|
        invariant out == Select(rows[..i], IsPendingDeposit)
      {
        assert rows[..i + 1][..i] == rows[..i];
        if IsPendingDeposit(rows[i]) {
          out := out + [rows[i]];
        }
      }
      assert rows[..|rows|] == rows;
    }

    method ListPendingWithdrawals() returns (out: seq<Row>)
      ensures out == Select(rows, IsPendingWithdrawal)
    {
      out := [];
      for i := 0 to |rows|
        invariant out == Select(rows[..i], IsPendingWithdrawal)
      {
        assert rows[..i + 1][..i] == rows[..i];
        if IsPendingWithdrawal(rows[i]) {
          out := out + [rows[i]];
        }
      }
      assert rows[..|rows|] == rows;
    }

    /** One transaction: an unknown id rolls all of it back. */
    method MarkIncluded(batchId: string, depositIds: seq<string>, withdrawIds: seq<string>) returns (r: Result<()>)
      modifies `rows
      ensures r.Success? <==> AllFound(old(rows), depositIds, withdrawIds)
      ensures r.Failure? ==> r == Failure(RecordNotFound)
      ensures rows == if r.Success? then WithIncluded(old(rows), batchId, depositIds, withdrawIds) else old(rows)
      ensures |rows| == |old(rows)|
      ensures r.Success? ==> forall i :: 0 <= i < |rows| ==>
                var (row, was) := (rows[i], old(rows)[i]);
                var named := if was.DepositRow? then was.record.depositId in depositIds
                             else was.request.withdrawId in withdrawIds;
                if named then row == was.Marked(was.mark.(status := Included, batchId := Some(batchId))) else row == was
    {
      var table := rows;
      for i := 0 to |depositIds|
        invariant AllFound(rows, depositIds[..i], [])
        invariant table == WithIncluded(rows, batchId, depositIds[..i], [])
      {
        var id := depositIds[i];
        assert id in depositIds && depositIds[..i + 1] == depositIds[..i] + [id];
        if !exists s <- rows :: s.DepositRow? && s.Id() == id {
          return Failure(RecordNotFound);
        }
        table := WithIncluded(table, batchId, [id], []);
      }
      assert depositIds[..|depositIds|] == depositIds;
      for i := 0 to |withdrawIds|
        invariant AllFound(rows, depositIds, withdrawIds[..i])
        invariant table == WithIncluded(rows, batchId, depositIds, withdrawIds[..i])
      {
        var id := withdrawIds[i];
        assert id in withdrawIds && withdrawIds[..i + 1] == withdrawIds[..i] + [id];
        if !exists s <- rows :: s.WithdrawalRow? && s.Id() == id {
          return Failure(RecordNotFound);
        }
        table := WithIncluded(table, batchId, [], [id]);
      }
      assert withdrawIds[..|withdrawIds|] == withdrawIds;
      rows := table;
      return Success(());
    }

    /** Rewrites the marks of the rows of one batch, whatever their status, and nothing else. */
    method MarkByBatch(batchId: string, status: Status, txHash: string, error: string)
      modifies `rows
      ensures |rows| == |old(rows)|
      ensures forall i :: 0 <= i < |rows| && old(rows)[i].mark.batchId != Some(batchId) ==> rows[i] == old(rows)[i]
      ensures forall i :: 0 <= i < |rows| && old(rows)[i].mark.batchId == Some(batchId) ==>
                && rows[i] == old(rows)[i].Marked(rows[i].mark)
                && rows[i].mark.status == status && rows[i].mark.batchId == Some(batchId)
                && rows[i].mark.txHash == (if txHash == "" then None else Some(txHash))
                && rows[i].mark.errorMessage == (if error == "" then None else Some(error))
      ensures rows == WithStatus(old(rows), batchId, status, txHash, error)
    {
      var table: seq<Row> := [];
      for i := 0 to |rows|
        invariant |table| == i
        invariant forall j :: 0 <= j < i ==> table[j] == WithStatus(rows, batchId, status, txHash, error)[j]
      {
        var m := rows[i].mark;
        if m.batchId == Some(batchId) {
          m := m.(status := status, txHash := NullIfEmpty(txHash), errorMessage := NullIfEmpty(error));
        }
        table := table + [rows[i].Marked(m)];
      }
      rows := table;
    }

    /** Returns the included rows of one batch to pending, without batch and transaction, and touches no other row. */
    method ReopenIncluded(batchId: string, reason: string) returns (r: Result<()>)
      modifies `rows
      ensures r == if exists s <- old(rows) :: IsIncludedIn(s, batchId) then Success(()) else Failure(RecordNotFound)
      ensures |rows| == |old(rows)|
      ensures forall i :: 0 <= i < |rows| ==>
                var (row, was) := (rows[i], old(rows)[i]);
                if was.mark.status == Included && was.mark.batchId == Some(batchId) then
                  row == was.Marked(Mark(Pending, None, None, if reason == "" then None else Some(reason)))
                else row == was
      ensures rows == WithReopened(old(rows), batchId, reason)
    {
      var table: seq<Row> := [];
      var found := false;
      for i := 0 to |rows|
        invariant |table| == i
        invariant forall j :: 0 <= j < i ==> table[j] == WithReopened(rows, batchId, reason)[j]
        invariant found <==> exists j :: 0 <= j < i && IsIncludedIn(rows[j], batchId)
      {
        if IsIncludedIn(rows[i], batchId) {
          found := true;
          table := table + [rows[i].Marked(Mark(Pending, None, None, NullIfEmpty(reason)))];
        } else {
          table := table + [rows[i]];
        }
      }
      rows := table;
      if !found {
        return Failure(RecordNotFound);
      }
      return Success(());
    }
  }
}
