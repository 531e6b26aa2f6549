/** The four commitment roots of a batch, the public inputs, and what they pin down. */
module Commitments {
  import opened Wrappers
  import opened Text
  import opened Hashing
  import opened SettlementBuilders

  const DEPOSITS_TAG := "zkdex/batch/depositsRoot/v0"
  const WITHDRAWALS_TAG := "zkdex/batch/withdrawalsRoot/v0"
  const NULLIFIERS_TAG := "zkdex/batch/nullifiersRoot/v0"
  const OUTPUTS_TAG := "zkdex/batch/withdrawOutputsRoot/v0"

  datatype BatchCommitments = BatchCommitments(
    depositsRoot: string, withdrawalsRoot: string, nullifiersRoot: string, withdrawOutputsRoot: string)

  // ------------------------------------------------------------------- preimages

  /** The fields of one entry joined by '|' and closed by ';'. */
  function Entry(fields: seq<string>): string {
    if fields == [] then ";"
    else if |fields| == 1 then fields[0] + ";"
    else fields[0] + "|" + Entry(fields[1..])
  }

  function Entries(rows: seq<seq<string>>): string {
    if rows == [] then "" else Entry(rows[0]) + Entries(rows[1..])
  }

  function DepositFields(d: SettlementDeposit): seq<string> { [d.depositId, d.owner, d.denom, d.amount] }

  function WithdrawalFields(w: SettlementWithdrawal): seq<string> {
    [w.withdrawId, w.owner, w.denom, w.amount, w.destination, w.destinationHash, w.nullifier]
  }

  function NullifierFields(w: SettlementWithdrawal): seq<string> { [w.nullifier] }

  function OutputFields(w: SettlementWithdrawal): seq<string> { [w.destinationHash, w.amount, w.denom] }

  function Table<T>(items: seq<T>, fields: T -> seq<string>): seq<seq<string>> {
    seq(|items|, i requires 0 <= i < |items| => fields(items[i]))
  }

  function Preimage(tag: string, rows: seq<seq<string>>): string { tag + "|" + Entries(rows) }

  // --------------------------------------------------------------------- builders

  lemma {:induction false} EntriesSnoc(rows: seq<seq<string>>, row: seq<string>)
    ensures Entries(rows + [row]) == Entries(rows) + Entry(row)
  {
    if rows == [] {
      assert rows + [row] == [row] && [row][1..] == [];
    } else {
      assert (rows + [row])[1..] == rows[1..] + [row];
      EntriesSnoc(rows[1..], row);
    }
  }

  lemma EntryCons(x: string, rest: seq<string>)
    requires rest != []
    ensures Entry([x] + rest) == x + "|" + Entry(rest)
  {
    assert ([x] + rest)[1..] == rest;
  }

  lemma Entry3(a: string, b: string, c: string)
    ensures Entry([a, b, c]) == a + "|" + (b + "|" + (c + ";"))
  {
    assert [a, b, c] == [a] + ([b] + [c]);
    EntryCons(a, [b] + [c]);
    EntryCons(b, [c]);
  }

  lemma Entry4(a: string, b: string, c: string, d: string)
    ensures Entry([a, b, c, d]) == a + "|" + (b + "|" + (c + "|" + (d + ";")))
  {
    assert [a, b, c, d] == [a] + [b, c, d];
    EntryCons(a, [b, c, d]);
    Entry3(b, c, d);
  }

  lemma Entry7(a: string, b: string, c: string, d: string, e: string, f: string, g: string)
    ensures Entry([a, b, c, d, e, f, g]) ==
            a + "|" + (b + "|" + (c + "|" + (d + "|" + (e + "|" + (f + "|" + (g + ";"))))))
  {
    assert [a, b, c, d, e, f, g] == [a] + ([b] + ([c] + [d, e, f, g]));
    EntryCons(a, [b] + ([c] + [d, e, f, g]));
    EntryCons(b, [c] + [d, e, f, g]);
    EntryCons(c, [d, e, f, g]);
    Entry4(d, e, f, g);
  }

  method DepositsRoot(items: seq<SettlementDeposit>) returns (root: string)
    ensures root == Sha256Hex(Preimage(DEPOSITS_TAG, Table(items, DepositFields)))
  {
    var b := "";
    for i := 0 to |items|
      invariant b == Entries(Table(items[..i], DepositFields))
    {
      var d := items[i];
      assert Table(items[..i + 1], DepositFields) == Table(items[..i], DepositFields) + [DepositFields(d)];
      EntriesSnoc(Table(items[..i], DepositFields), DepositFields(d));
      Entry4(d.depositId, d.owner, d.denom, d.amount);
      b := b + (d.depositId + "|" + (d.owner + "|" + (d.denom + "|" + (d.amount + ";"))));
    }
    assert items[..|items|] == items;
    root := Sha256Hex(DEPOSITS_TAG + "|" + b);
  }

  method WithdrawalsRoot(items: seq<SettlementWithdrawal>) returns (root: string)
    ensures root == Sha256Hex(Preimage(WITHDRAWALS_TAG, Table(items, WithdrawalFields)))
  {
    var b := "";
    for i := 0 to |items|
      invariant b == Entries(Table(items[..i], WithdrawalFields))
    {
      var w := items[i];
      assert Table(items[..i + 1], WithdrawalFields) == Table(items[..i], WithdrawalFields) + [WithdrawalFields(w)];
      EntriesSnoc(Table(items[..i], WithdrawalFields), WithdrawalFields(w));
      Entry7(w.withdrawId, w.owner, w.denom, w.amount, w.destination, w.destinationHash, w.nullifier);
      b := b + (w.withdrawId + "|" + (w.owner + "|" + (w.denom + "|" + (w.amount + "|" + (w.destination + "|" +
           (w.destinationHash + "|" + (w.nullifier + ";")))))));
    }
    assert items[..|items|] == items;
    root := Sha256Hex(WITHDRAWALS_TAG + "|" + b);
  }

  method NullifiersRoot(items: seq<SettlementWithdrawal>) returns (root: string)
    ensures root == Sha256Hex(Preimage(NULLIFIERS_TAG, Table(items, NullifierFields)))
  {
    var b := "";
    for i := 0 to |items|
      invariant b == Entries(Table(items[..i], NullifierFields))
    {
      var w := items[i];
      assert Table(items[..i + 1], NullifierFields) == Table(items[..i], NullifierFields) + [NullifierFields(w)];
      EntriesSnoc(Table(items[..i], NullifierFields), NullifierFields(w));
      b := b + (w.nullifier + ";");
    }
    assert items[..|items|] == items;
    root := Sha256Hex(NULLIFIERS_TAG + "|" + b);
  }

  method WithdrawOutputsRoot(items: seq<SettlementWithdrawal>) returns (root: string)
    ensures root == Sha256Hex(Preimage(OUTPUTS_TAG, Table(items, OutputFields)))
  {
    var b := "";
    for i := 0 to |items|
      invariant b == Entries(Table(items[..i], OutputFields))
    {
      var w := items[i];
      assert Table(items[..i + 1], OutputFields) == Table(items[..i], OutputFields) + [OutputFields(w)];
      EntriesSnoc(Table(items[..i], OutputFields), OutputFields(w));
      Entry3(w.destinationHash, w.amount, w.denom);
      b := b + (w.destinationHash + "|" + (w.amount + "|" + (w.denom + ";")));
    }
    assert items[..|items|] == items;
    root := Sha256Hex(OUTPUTS_TAG + "|" + b);
  }

  function CommitmentsFor(u: SettlementUpdate): BatchCommitments {
    BatchCommitments(
      Sha256Hex(Preimage(DEPOSITS_TAG, Table(u.deposits, DepositFields))),
      Sha256Hex(Preimage(WITHDRAWALS_TAG, Table(u.withdrawals, WithdrawalFields))),
      Sha256Hex(Preimage(NULLIFIERS_TAG, Table(u.withdrawals, NullifierFields))),
      Sha256Hex(Preimage(OUTPUTS_TAG, Table(u.withdrawals, OutputFields))))
  }

  method BuildCommitments(u: SettlementUpdate) returns (c: BatchCommitments)
    ensures c == CommitmentsFor(u)
  {
    hide Preimage, Table;
    var deposits := DepositsRoot(u.deposits);
    var withdrawals := WithdrawalsRoot(u.withdrawals);
    var nullifiers := NullifiersRoot(u.withdrawals);
    var outputs := WithdrawOutputsRoot(u.withdrawals);
    c := BatchCommitments(deposits, withdrawals, nullifiers, outputs);
  }

  // ------------------------------------------------------------- unique decodability

  /** No field holds a separator. */
  predicate SeparatorFree(fields: seq<string>) {
    forall f <- fields :: '|' !in f && ';' !in f
  }

  ghost predicate Decodable(rows: seq<seq<string>>, arity: nat) {
    forall r <- rows :: |r| == arity && SeparatorFree(r)
  }

  lemma {:induction false} EntryInjective(a: seq<string>, x: string, b: seq<string>, y: string)
    requires |a| == |b| > 0 && SeparatorFree(a) && SeparatorFree(b)
    requires Entry(a) + x == Entry(b) + y
    ensures a == b && x == y
  {
    if |a| == 1 {
      assert Entry(a) + x == a[0] + [';'] + x && Entry(b) + y == b[0] + [';'] + y;
      SplitFirst(a[0], x, b[0], y, ';');
    } else {
      var u, v := Entry(a[1..]) + x, Entry(b[1..]) + y;
      assert Entry(a) + x == a[0] + ['|'] + u && Entry(b) + y == b[0] + ['|'] + v;
      SplitFirst(a[0], u, b[0], v, '|');
      EntryInjective(a[1..], x, b[1..], y);
      assert a == [a[0]] + a[1..] && b == [b[0]] + b[1..];
    }
  }

  lemma EntryNonEmpty(a: seq<string>)
    ensures Entry(a) != ""
  {
  }

  lemma {:induction false} EntriesInjective(a: seq<seq<string>>, b: seq<seq<string>>, arity: nat)
    requires arity > 0 && Decodable(a, arity) && Decodable(b, arity)
    requires Entries(a) == Entries(b)
    ensures a == b
  {
    if a == [] {
      if b != [] { EntryNonEmpty(b[0]); }
    } else {
      EntryNonEmpty(a[0]);
      assert b != [];
      EntryInjective(a[0], Entries(a[1..]), b[0], Entries(b[1..]));
      EntriesInjective(a[1..], b[1..], arity);
      assert a == [a[0]] + a[1..] && b == [b[0]] + b[1..];
    }
  }

  /** Equal preimages under one tag decode to the same entries, field by field. */
  lemma PreimageDecodable(tag: string, a: seq<seq<string>>, b: seq<seq<string>>, arity: nat)
    requires arity > 0 && Decodable(a, arity) && Decodable(b, arity)
    requires Preimage(tag, a) == Preimage(tag, b)
    ensures a == b
  {
    assert Entries(a) == Preimage(tag, a)[|tag| + 1..] && Entries(b) == Preimage(tag, b)[|tag| + 1..];
    EntriesInjective(a, b, arity);
  }

  /** The four roots live in separate domains, whatever their entries hold. */
  lemma PreimagesOfDifferentRootsDiffer(s: string, a: seq<seq<string>>, t: string, b: seq<seq<string>>)
    requires {s, t} <= {DEPOSITS_TAG, WITHDRAWALS_TAG, NULLIFIERS_TAG, OUTPUTS_TAG}
    requires s != t
    ensures Preimage(s, a) != Preimage(t, b)
  {
    assert '|' !in DEPOSITS_TAG && '|' !in WITHDRAWALS_TAG && '|' !in NULLIFIERS_TAG && '|' !in OUTPUTS_TAG;
    hide Entries;
    if Preimage(s, a) == Preimage(t, b) {
      SplitFirst(s, Entries(a), t, Entries(b), '|');
    }
  }

  /** Without the restriction on separators two different batches share a deposits root. */
  lemma SeparatorInFieldCollides()
    ensures var a := SettlementDeposit("d", "x|y", "z", "1");
            var b := SettlementDeposit("d", "x", "y|z", "1");
            a != b && Preimage(DEPOSITS_TAG, Table([a], DepositFields)) ==
              Preimage(DEPOSITS_TAG, Table([b], DepositFields))
  {
    Entry4("d", "x|y", "z", "1");
    Entry4("d", "x", "y|z", "1");
    var a := SettlementDeposit("d", "x|y", "z", "1");
    var b := SettlementDeposit("d", "x", "y|z", "1");
    assert Table([a], DepositFields) == [DepositFields(a)] && Table([b], DepositFields) == [DepositFields(b)];
    hide Entry;
    assert [DepositFields(a)][1..] == [] && [DepositFields(b)][1..] == [];
    assert |a.owner| == 3 && |b.owner| == 1;
    assert "x|y" + "|" + ("z" + "|" + ("1" + ";")) == "x" + "|" + ("y|z" + "|" + ("1" + ";"));
  }

  // ------------------------------------------------------------------ public inputs

  /** PublicInputBuilder.Build. */
  function PublicInputs(u: SettlementUpdate, c: BatchCommitments): Result<seq<string>> {
    if !ValidHex(u.oldStateRoot) || !ValidHex(u.newStateRoot) || u.oldStateRoot == u.newStateRoot
       || !ValidHex(c.depositsRoot) || !ValidHex(c.withdrawalsRoot)
       || !ValidHex(c.nullifiersRoot) || !ValidHex(c.withdrawOutputsRoot) then
      Failure(InvalidPublicInputs)
    else
      Success([u.oldStateRoot, u.newStateRoot, c.depositsRoot, c.withdrawalsRoot, c.nullifiersRoot,
        c.withdrawOutputsRoot])
  }

  ghost predicate Separable(u: SettlementUpdate) {
    && (forall d <- u.deposits :: SeparatorFree(DepositFields(d)))
    && (forall w <- u.withdrawals :: SeparatorFree(WithdrawalFields(w)))
  }

  lemma TablesEqual<T(!new)>(a: seq<T>, b: seq<T>, fields: T -> seq<string>)
    requires Table(a, fields) == Table(b, fields)
    requires forall x, y :: fields(x) == fields(y) ==> x == y
    ensures a == b
  {
    assert |a| == |Table(a, fields)| == |b|;
    forall i | 0 <= i < |a| ensures a[i] == b[i] {
      assert Table(a, fields)[i] == fields(a[i]) && Table(b, fields)[i] == fields(b[i]);
    }
  }

  lemma DepositFieldsInjective(x: SettlementDeposit, y: SettlementDeposit)
    requires DepositFields(x) == DepositFields(y)
    ensures x == y
  {
    assert forall i :: 0 <= i < 4 ==> DepositFields(x)[i] == DepositFields(y)[i];
  }

  lemma WithdrawalFieldsInjective(x: SettlementWithdrawal, y: SettlementWithdrawal)
    requires WithdrawalFields(x) == WithdrawalFields(y)
    ensures x == y
  {
    assert forall i :: 0 <= i < 7 ==> WithdrawalFields(x)[i] == WithdrawalFields(y)[i];
    assert WithdrawalFields(x)[5] == x.destinationHash && WithdrawalFields(x)[6] == x.nullifier;
  }

  lemma DepositsBound(a: seq<SettlementDeposit>, b: seq<SettlementDeposit>)
    requires forall d <- a :: SeparatorFree(DepositFields(d))
    requires forall d <- b :: SeparatorFree(DepositFields(d))
    requires Preimage(DEPOSITS_TAG, Table(a, DepositFields)) == Preimage(DEPOSITS_TAG, Table(b, DepositFields))
    ensures a == b
  {
    hide SeparatorFree, Preimage;
    PreimageDecodable(DEPOSITS_TAG, Table(a, DepositFields), Table(b, DepositFields), 4);
    forall x, y | DepositFields(x) == DepositFields(y) ensures x == y { DepositFieldsInjective(x, y); }
    TablesEqual(a, b, DepositFields);
  }

  lemma WithdrawalsBound(a: seq<SettlementWithdrawal>, b: seq<SettlementWithdrawal>)
    requires forall w <- a :: SeparatorFree(WithdrawalFields(w))
    requires forall w <- b :: SeparatorFree(WithdrawalFields(w))
    requires Preimage(WITHDRAWALS_TAG, Table(a, WithdrawalFields)) ==
              Preimage(WITHDRAWALS_TAG, Table(b, WithdrawalFields))
    ensures a == b
  {
    hide SeparatorFree, Preimage;
    PreimageDecodable(WITHDRAWALS_TAG, Table(a, WithdrawalFields), Table(b, WithdrawalFields), 7);
    forall x, y | WithdrawalFields(x) == WithdrawalFields(y) ensures x == y { WithdrawalFieldsInjective(x, y); }
    TablesEqual(a, b, WithdrawalFields);
  }

  /**
   * The public inputs determine the batch: two updates whose fields hold no separator and whose
   * public inputs agree carry the same roots, deposits and withdrawals.
   */
  lemma PublicInputsBind(u: SettlementUpdate, v: SettlementUpdate)
    requires Separable(u) && Separable(v)
    requires PublicInputs(u, CommitmentsFor(u)).Success?
    requires PublicInputs(u, CommitmentsFor(u)) == PublicInputs(v, CommitmentsFor(v))
    ensures u.(batchId := v.batchId) == v
  {
    hide ValidHex, Preimage, SeparatorFree, Table;
    var p, q := PublicInputs(u, CommitmentsFor(u)).value, PublicInputs(v, CommitmentsFor(v)).value;
    assert p[0] == q[0] && p[1] == q[1] && p[2] == q[2] && p[3] == q[3];
    DepositsBound(u.deposits, v.deposits);
    WithdrawalsBound(u.withdrawals, v.withdrawals);
  }

  // ------------------------------------------------------------------ the text itself

  /** Fields joined by bars, closed by a semicolon, one entry after another. */
  lemma OneEntryText(tag: string, fields: seq<string>)
    ensures Preimage(tag, []) == tag + "|"
    ensures Preimage(tag, [fields]) == tag + "|" + Entry(fields)
  {
    hide Entry;
    assert [fields][1..] == [];
  }

  /** The four preimages of a batch of one deposit and one withdrawal, written out. */
  lemma RootTexts(d: SettlementDeposit, w: SettlementWithdrawal)
    ensures Preimage(DEPOSITS_TAG, Table([d], DepositFields)) ==
            "zkdex/batch/depositsRoot/v0" + "|" +
            (d.depositId + "|" + (d.owner + "|" + (d.denom + "|" + (d.amount + ";"))))
    ensures Preimage(WITHDRAWALS_TAG, Table([w], WithdrawalFields)) ==
            "zkdex/batch/withdrawalsRoot/v0" + "|" +
            (w.withdrawId + "|" + (w.owner + "|" + (w.denom + "|" + (w.amount + "|" + (w.destination + "|" +
             (w.destinationHash + "|" + (w.nullifier + ";")))))))
    ensures Preimage(NULLIFIERS_TAG, Table([w], NullifierFields)) ==
            "zkdex/batch/nullifiersRoot/v0" + "|" + (w.nullifier + ";")
    ensures Preimage(OUTPUTS_TAG, Table([w], OutputFields)) ==
            "zkdex/batch/withdrawOutputsRoot/v0" + "|" + (w.destinationHash + "|" + (w.amount + "|" + (w.denom + ";")))
  {
    hide Entry, Preimage;
    Tables(d, w);
    OneEntryText(DEPOSITS_TAG, DepositFields(d));
    OneEntryText(WITHDRAWALS_TAG, WithdrawalFields(w));
    OneEntryText(NULLIFIERS_TAG, NullifierFields(w));
    OneEntryText(OUTPUTS_TAG, OutputFields(w));
    Entry4(d.depositId, d.owner, d.denom, d.amount);
    Entry7(w.withdrawId, w.owner, w.denom, w.amount, w.destination, w.destinationHash, w.nullifier);
    Entry3(w.destinationHash, w.amount, w.denom);
    Entry1(w.nullifier);
  }

  lemma Entry1(a: string)
    ensures Entry([a]) == a + ";"
  {
  }

  lemma Tables(d: SettlementDeposit, w: SettlementWithdrawal)
    ensures Table([d], DepositFields) == [DepositFields(d)] && Table([w], WithdrawalFields) == [WithdrawalFields(w)]
    ensures Table([w], NullifierFields) == [NullifierFields(w)] && Table([w], OutputFields) == [OutputFields(w)]
  {
  }

  /** Which root is which, and the tag each is hashed under. */
  lemma RootsByName(u: SettlementUpdate)
    ensures CommitmentsFor(u).depositsRoot ==
              Sha256Hex(Preimage("zkdex/batch/depositsRoot/v0", Table(u.deposits, DepositFields)))
    ensures CommitmentsFor(u).withdrawalsRoot ==
            Sha256Hex(Preimage("zkdex/batch/withdrawalsRoot/v0", Table(u.withdrawals, WithdrawalFields)))
    ensures CommitmentsFor(u).nullifiersRoot ==
            Sha256Hex(Preimage("zkdex/batch/nullifiersRoot/v0", Table(u.withdrawals, NullifierFields)))
    ensures CommitmentsFor(u).withdrawOutputsRoot ==
            Sha256Hex(Preimage("zkdex/batch/withdrawOutputsRoot/v0", Table(u.withdrawals, OutputFields)))
  {
    hide Preimage, Table;
  }

  /** Public inputs exist exactly for hex roots that differ and hex commitments, and stand in the circuit's order. */
  lemma PublicInputsExactly(u: SettlementUpdate, c: BatchCommitments)
    ensures PublicInputs(u, c).Success? <==>
            && ValidHex(u.oldStateRoot) && ValidHex(u.newStateRoot) && u.oldStateRoot != u.newStateRoot
            && ValidHex(c.depositsRoot) && ValidHex(c.withdrawalsRoot)
            && ValidHex(c.nullifiersRoot) && ValidHex(c.withdrawOutputsRoot)
    ensures PublicInputs(u, c).Success? ==>
              var p := PublicInputs(u, c).value;
              && |p| == 6 && p[0] == u.oldStateRoot && p[1] == u.newStateRoot && p[2] == c.depositsRoot
              && p[3] == c.withdrawalsRoot && p[4] == c.nullifiersRoot && p[5] == c.withdrawOutputsRoot
  {
    hide ValidHex;
  }
}
