/** Nullifiers depend on secret and nonce alone: when the next withdrawal of an account is refused. */
module NullifierReuse {
  import opened Wrappers
  import opened Text
  import opened Decimals
  import opened Hashing
  import opened Types
  import opened StateRoot
  import opened Ledgers
  import opened LedgerLaws
  import opened OffchainManagers
  import opened SettlementLogs
  import opened SettlementModel
  import opened ChainInvariant
  import opened PendingWitnesses
  import opened SettlementRuns
  import opened Rehydrations

  /**
   * Owners who share a secret share their nullifiers: once one has withdrawn with a nonce, the
   * other's withdrawal with that nonce is refused as a repeat, whatever its balance and nonce.
   */
  lemma SharedSecretCollides(l: Ledger, a: WithdrawRequest, b: WithdrawRequest, secret: string)
    requires NullifierFor(secret, a.nonce).Success? &&
              Apply(l, WithdrawOp(a, NullifierFor(secret, a.nonce).value)).Success?
    requires ValidWithdrawRequest(b) && Value(a.nonce) == Value(b.nonce)
    ensures var l' := Apply(l, WithdrawOp(a, NullifierFor(secret, a.nonce).value)).value;
            && NullifierFor(secret, b.nonce) == NullifierFor(secret, a.nonce)
            && Apply(l', WithdrawOp(b, NullifierFor(secret, b.nonce).value)) == Failure(WithdrawAlreadyApplied)
  {
    hide Trim, Trimmed, ParseNonNegative, RootOf, NullifierPreimage;
  }

  lemma {:induction false} NullifierFromMove(l: Ledger, mvs: seq<Move>, n: string) returns (i: nat)
    requires Playable(l, mvs) && n in Play(l, mvs).nullifiers && n !in l.nullifiers
    ensures i < |mvs| && mvs[i].Debit? && mvs[i].nullifier == n
  {
    hide Moved, RootOf, Balance, Nonce;
    var front, mv := mvs[..|mvs| - 1], mvs[|mvs| - 1];
    if mv.Debit? && mv.nullifier == n {
      i := |mvs| - 1;
    } else {
      i := NullifierFromMove(l, front, n);
    }
  }

  lemma DerivedIsTrimmed(secret: string, nonce: string)
    ensures NullifierFor(secret, nonce).Success? ==>
              Trimmed(NullifierFor(secret, nonce).value) && !Blank(NullifierFor(secret, nonce).value)
  {
    hide Trim, ParseNonNegative, NullifierPreimage;
  }

  lemma WithdrawalMove(r: Row)
    requires r.WithdrawalRow? && MoveOf(r.Op()).Some? && Derived(r)
    ensures MoveOf(r.Op()).value.Debit? && MoveOf(r.Op()).value.nullifier == r.nullifier
  {
    var secret :| NullifierFor(secret, r.request.nonce) == Success(r.nullifier);
    DerivedIsTrimmed(secret, r.request.nonce);
    hide Trim, ParseNonNegative, NullifierFor, WithdrawAddressHash;
  }

  lemma DepositMove(r: Row)
    requires r.DepositRow? && MoveOf(r.Op()).Some?
    ensures MoveOf(r.Op()).value.Credit?
  {
    MoveOfRow(r);
  }

  /** The consumed nullifiers are exactly those of the recorded withdrawals. */
  lemma ConsumedAreRecorded(g: string, rows: seq<Row>, ledger: Ledger, n: string)
    requires Faithful(g, rows, ledger)
    ensures n in ledger.nullifiers <==> exists r <- rows :: r.WithdrawalRow? && r.nullifier == n
  {
    FaithfulLedger(g, rows, ledger);
    hide Faithful, Playable, Play, MoveOf, Derived;
    var mvs := MovesOf(rows);
    assert mvs[..|rows|] == mvs;
    if n in ledger.nullifiers {
      var i := NullifierFromMove(Genesis(g), mvs, n);
      RecordedMove(g, rows, ledger, i);
      assert rows[i] in rows;
    }
    forall r | r in rows && r.WithdrawalRow? && r.nullifier == n ensures n in ledger.nullifiers {
      var i: nat :| i < |rows| && rows[i] == r;
      RecordedMove(g, rows, ledger, i);
      PlayedIsSpent(Genesis(g), mvs, i);
    }
  }

  lemma RecordedMove(g: string, rows: seq<Row>, ledger: Ledger, i: nat)
    requires Faithful(g, rows, ledger) && i < |rows|
    ensures MoveOf(rows[i].Op()).Some? && MovesOf(rows)[i] == MoveOf(rows[i].Op()).value
    ensures MovesOf(rows)[i].Debit? == rows[i].WithdrawalRow?
    ensures rows[i].WithdrawalRow? ==> MovesOf(rows)[i].nullifier == rows[i].nullifier
  {
    FaithfulLedger(g, rows, ledger);
    hide Playable, MoveOf, Derived, LedgerAt, UniqueKeys;
    assert Recorded(g, rows, i);
    if rows[i].WithdrawalRow? { WithdrawalMove(rows[i]); } else { DepositMove(rows[i]); }
  }

  lemma BuiltRequestShape(m: Accounts, intent: WithdrawIntent, withdrawId: string)
    requires RequestFor(m, intent, withdrawId).Success?
    ensures var w := RequestFor(m, intent, withdrawId).value;
            w.withdrawId == withdrawId && !Blank(w.destination) && ParseNonNegative(w.nonce).Success?
  {
    hide Trim, ParseNonNegative, Decimal, AccountAt;
  }

  lemma EffectiveSecretUsable(userSecret: string)
    ensures !Blank(EffectiveSecret(userSecret))
  {
    assert Trimmed(DEFAULT_SECRET) && DEFAULT_SECRET[0] == 'm';
    hide Trim;
  }

  lemma ServiceAppliesExactly(s: State, w: WithdrawRequest, userSecret: string)
    requires !Blank(w.destination) && ParseNonNegative(w.nonce).Success?
    ensures NullifierFor(EffectiveSecret(userSecret), w.nonce).Success?
    ensures ApplyWithdrawRequest(s, w, userSecret).1.Success? <==>
            Apply(s.ledger, WithdrawOp(w, NullifierFor(EffectiveSecret(userSecret), w.nonce).value)).Success?
  {
    EffectiveSecretUsable(userSecret);
    hide Trim, ParseNonNegative, Apply, EffectiveSecret, WithdrawalRowFor, Upserted, NullifierPreimage;
  }

  /**
   * A request built from the live ledger and submitted at once succeeds if and only if no recorded
   * withdrawal, of any owner, already carries the nullifier of this secret and this nonce.
   */
  lemma NextWithdrawalSucceedsExactly(g: string, s: State, c: nat, p: nat, intent: WithdrawIntent,
                                      withdrawId: string, userSecret: string)
    requires Inv(g, s, c, p) && !Blank(withdrawId) && RequestFor(s.ledger.accounts, intent, withdrawId).Success?
    ensures var w := RequestFor(s.ledger.accounts, intent, withdrawId).value;
            var nullifier := NullifierFor(EffectiveSecret(userSecret), w.nonce);
            && nullifier.Success?
            && (ApplyWithdrawRequest(s, w, userSecret).1.Success? <==>
                forall r <- s.rows :: r.WithdrawalRow? ==> r.nullifier != nullifier.value)
  {
    hide Chained, Faithful, RequestFor, Blank, NullifierFor, ApplyWithdrawRequest, Apply, ParseNonNegative,
         EffectiveSecret, Trim, Trimmed;
    var w := RequestFor(s.ledger.accounts, intent, withdrawId).value;
    BuiltRequestShape(s.ledger.accounts, intent, withdrawId);
    ServiceAppliesExactly(s, w, userSecret);
    var nullifier := NullifierFor(EffectiveSecret(userSecret), w.nonce).value;
    DerivedIsTrimmed(EffectiveSecret(userSecret), w.nonce);
    BuiltRequestApplies(s.ledger, intent, withdrawId, nullifier);
    assert Trim(nullifier) == nullifier;
    InvParts(g, s, c, p);
    ConsumedAreRecorded(g, s.rows, s.ledger, nullifier);
  }
}
