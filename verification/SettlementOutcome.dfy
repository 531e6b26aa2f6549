/** What the calls of the settlement service leave behind, told without naming how they get there. */
module SettlementOutcomes {
  import opened Wrappers
  import opened Text
  import opened Decimals
  import opened Hashing
  import opened Types
  import opened StateRoot
  import opened Ledgers
  import opened SettlementLogs
  import opened SettlementModel

  // ------------------------------------------------------- the calls, seen from outside

  /** The cursor after a call that was let through to the ledger: as it was, or made for the first call. */
  ghost predicate CursorKept(s: State, s': State) {
    && s'.cursor.Some?
    && s'.cursor.value.committedRoot == (if s.cursor.Some? then s.cursor.value.committedRoot else s.ledger.root)
    && s'.cursor.value.lastCommittedBatchId == (if s.cursor.Some? then s.cursor.value.lastCommittedBatchId else "")
  }

  /** The cursor's pending root is the root of the ledger. */
  ghost predicate PendingRootIs(s: State, root: string) { s.cursor.Some? && s.cursor.value.pendingRoot == root }

  /** The recorded balances are those of the account of this owner and denom, before and after. */
  ghost predicate BalancesRecorded(r: Row, l: Ledger, l': Ledger, owner: string, denom: string) {
    var k := Key(Trim(owner), Trim(denom));
    && r.rootBefore == l.root && r.rootAfter == l'.root
    && Value(r.balanceBefore) == Balance(l.accounts, k) && Value(r.balanceAfter) == Balance(l'.accounts, k)
  }

  lemma AccountBalance(m: Accounts, owner: string, denom: string)
    requires !Blank(owner) && !Blank(denom)
    ensures Value(Decimal(AccountAt(m, owner, denom).balance)) == Balance(m, Key(Trim(owner), Trim(denom)))
  {
    hide Trim;
  }

  /** What an indexed deposit leaves behind, accepted or refused. */
  lemma DepositRecorded(s: State, d: DepositRecord)
    ensures var (s', r) := ApplyIndexedDeposit(s, d);
            var applied := Apply(s.ledger, DepositOp(d));
            && (r.Success? <==> applied.Success?) && (r.Failure? ==> r == Failure(applied.error))
            && CursorKept(s, s') && s'.counter == s.counter
            && (r.Failure? ==> s'.ledger == s.ledger && s'.rows == s.rows &&
                               PendingRootIs(s', if s.cursor.Some? then s.cursor.value.pendingRoot else s.ledger.root))
            && (r.Success? ==>
                  && s'.ledger == applied.value && s'.rows == Upserted(s.rows, r.value)
                  && PendingRootIs(s', s'.ledger.root)
                  && r.value.DepositRow? && r.value.record == d && r.value.mark == Mark(Pending, None, None, None)
                  && BalancesRecorded(r.value, s.ledger, s'.ledger, d.owner, d.denom))
  {
    DepositRefused(s.ledger, d);
    hide Apply, Decimal, AccountAt, Upserted, Balance, Trim, ParsePositive, Value;
    if Apply(s.ledger, DepositOp(d)).Success? {
      AccountBalance(s.ledger.accounts, d.owner, d.denom);
      AccountBalance(Apply(s.ledger, DepositOp(d)).value.accounts, d.owner, d.denom);
    }
  }

  /** The secret a nullifier derives from: the user's own, the default one only without it. */
  lemma UsersOwnSecret(userSecret: string)
    ensures !Blank(userSecret) ==> EffectiveSecret(userSecret) == userSecret
    ensures Blank(userSecret) ==> EffectiveSecret(userSecret) == "mock-user-secret"
  {
    hide Trim;
  }

  /** What a withdraw request leaves behind, accepted or refused. */
  lemma WithdrawalRecorded(s: State, w: WithdrawRequest, userSecret: string)
    ensures var (s', r) := ApplyWithdrawRequest(s, w, userSecret);
            var nullifier := NullifierFor(if Blank(userSecret) then "mock-user-secret" else userSecret, w.nonce);
            var hash := WithdrawAddressHash(w.destination);
            && s'.counter == s.counter
            && (nullifier.Failure? ==> r == Failure(nullifier.error) && s' == s)
            && (nullifier.Success? && hash.Failure? ==> r == Failure(hash.error) && s' == s)
            && (nullifier.Success? && hash.Success? ==>
                  var applied := Apply(s.ledger, WithdrawOp(w, nullifier.value));
                  && (r.Success? <==> applied.Success?) && (r.Failure? ==> r == Failure(applied.error))
                  && CursorKept(s, s')
                  && (r.Failure? ==>
                        && s'.ledger == s.ledger && s'.rows == s.rows
                        && PendingRootIs(s', if s.cursor.Some? then s.cursor.value.pendingRoot else s.ledger.root))
                  && (r.Success? ==>
                        && s'.ledger == applied.value && s'.rows == Upserted(s.rows, r.value)
                        && PendingRootIs(s', s'.ledger.root)
                        && r.value.WithdrawalRow? && r.value.request == w
                        && r.value.mark == Mark(Pending, None, None, None)
                        && r.value.nullifier == nullifier.value && r.value.destinationHash == hash.value
                        && BalancesRecorded(r.value, s.ledger, s'.ledger, w.owner, w.denom)))
  {
    UsersOwnSecret(userSecret);
    hide Apply, Decimal, AccountAt, Upserted, Balance, Trim, ParsePositive, ParseNonNegative, Value,
         NullifierFor, WithdrawAddressHash, EffectiveSecret;
    var nullifier := NullifierFor(EffectiveSecret(userSecret), w.nonce);
    if nullifier.Success? && WithdrawAddressHash(w.destination).Success? {
      WithdrawalRefused(s.ledger, w, nullifier.value);
      var applied := Apply(s.ledger, WithdrawOp(w, nullifier.value));
      if applied.Success? {
        AccountBalance(s.ledger.accounts, w.owner, w.denom);
        AccountBalance(applied.value.accounts, w.owner, w.denom);
      }
    }
  }

  // ------------------------------------------------------------------ secrets and owners

  /** Owner and secret of a row of the secrets are its trimmed texts. */
  predicate SecretAt(secrets: seq<AccountSecret>, i: int, owner: string, secret: string) {
    0 <= i < |secrets| && Trim(secrets[i].owner) == owner && Trim(secrets[i].userSecret) == secret
  }

  /** Non-blank owners and secrets, and no trimmed owner twice. */
  predicate Indexable(secrets: seq<AccountSecret>) {
    && (forall i :: 0 <= i < |secrets| ==> !Blank(secrets[i].owner) && !Blank(secrets[i].userSecret))
    && (forall i, j :: 0 <= i < j < |secrets| ==> Trim(secrets[i].owner) != Trim(secrets[j].owner))
  }

  /** The index holds each of these pairs, and no other. */
  ghost predicate Indexes(m: map<string, string>, secrets: seq<AccountSecret>) {
    && (forall i :: 0 <= i < |secrets| ==>
          Trim(secrets[i].owner) in m && m[Trim(secrets[i].owner)] == Trim(secrets[i].userSecret))
    && (forall owner <- m :: exists i :: SecretAt(secrets, i, owner, m[owner]))
  }

  lemma IndexableOne(front: seq<AccountSecret>, s: AccountSecret)
    ensures Indexable(front + [s]) <==>
            && Indexable(front) && !Blank(s.owner) && !Blank(s.userSecret)
            && forall i :: 0 <= i < |front| ==> Trim(front[i].owner) != Trim(s.owner)
  {
    hide Trim, Blank;
    var all := front + [s];
    assert all[|front|] == s && forall i :: 0 <= i < |front| ==> all[i] == front[i];
  }

  lemma IndexesOne(m: map<string, string>, front: seq<AccountSecret>, s: AccountSecret)
    requires Indexes(m, front)
    ensures Trim(s.owner) in m <==> exists i :: 0 <= i < |front| && Trim(front[i].owner) == Trim(s.owner)
    ensures Trim(s.owner) !in m ==> Indexes(m[Trim(s.owner) := Trim(s.userSecret)], front + [s])
  {
    hide Trim;
    var all, m' := front + [s], m[Trim(s.owner) := Trim(s.userSecret)];
    if Trim(s.owner) in m {
      var i :| SecretAt(front, i, Trim(s.owner), m[Trim(s.owner)]);
      assert Trim(front[i].owner) == Trim(s.owner);
    } else {
      forall owner | owner in m' ensures exists i :: SecretAt(all, i, owner, m'[owner]) {
        if owner == Trim(s.owner) {
          assert SecretAt(all, |front|, owner, m'[owner]);
        } else {
          var i :| SecretAt(front, i, owner, m[owner]);
          assert SecretAt(all, i, owner, m'[owner]);
        }
      }
    }
  }

  lemma NoSecrets()
    ensures Indexable([]) && Indexes(map[], [])
  {
  }

  /** Indexing succeeds exactly on indexable secrets, and then holds each pair. */
  lemma {:induction false} IndexSecretsExactly(secrets: seq<AccountSecret>)
    ensures IndexSecrets(secrets).Success? <==> Indexable(secrets)
    ensures IndexSecrets(secrets).Success? ==> Indexes(IndexSecrets(secrets).value, secrets)
  {
    hide Trim, IndexSecrets, Blank, Indexable, Indexes;
    IndexSecretsSnoc(secrets);
    if secrets == [] {
      NoSecrets();
    } else {
      var front, s := secrets[..|secrets| - 1], secrets[|secrets| - 1];
      assert secrets == front + [s];
      IndexSecretsExactly(front);
      IndexableOne(front, s);
      if IndexSecrets(front).Success? { IndexesOne(IndexSecrets(front).value, front, s); }
    }
  }

  lemma IndexSecretsSnoc(secrets: seq<AccountSecret>)
    ensures secrets == [] ==> IndexSecrets(secrets) == Success(map[])
    ensures secrets != [] ==>
              var front, s := IndexSecrets(secrets[..|secrets| - 1]), secrets[|secrets| - 1];
              var refused := front.Failure? || Blank(s.owner) || Blank(s.userSecret) || Trim(s.owner) in front.value;
              && (IndexSecrets(secrets).Failure? <==> refused)
              && (!refused ==> IndexSecrets(secrets) == Success(front.value[Trim(s.owner) := Trim(s.userSecret)]))
  {
    hide Trim, Blank;
  }

  /** Each account gets the secret given for its owner, and the default one only when none is given. */
  lemma AccountSecrets(ts: seq<Row>, secrets: seq<AccountSecret>, i: nat)
    requires WitnessAccounts(ts, secrets).Success? && i < |WitnessAccounts(ts, secrets).value|
    ensures var a := WitnessAccounts(ts, secrets).value[i];
            && (forall j :: 0 <= j < |secrets| && Trim(secrets[j].owner) == a.owner ==>
                  a.userSecret == Trim(secrets[j].userSecret))
            && ((forall j :: 0 <= j < |secrets| ==> Trim(secrets[j].owner) != a.owner) ==>
                a.userSecret == "mock-user-secret")
  {
    IndexSecretsExactly(secrets);
    hide Trim, IndexSecrets, GroupByOwner;
  }

  /** The first row of this owner. */
  predicate FirstOf(ts: seq<Row>, owner: string, k: int) {
    0 <= k < |ts| && Trim(ts[k].Owner()) == owner && forall j :: 0 <= j < k ==> Trim(ts[j].Owner()) != owner
  }

  /** The last row of this owner. */
  predicate LastRowOf(ts: seq<Row>, owner: string, k: int) {
    0 <= k < |ts| && Trim(ts[k].Owner()) == owner && forall j :: k < j < |ts| ==> Trim(ts[j].Owner()) != owner
  }

  /** A group tells of the owner's first row where it started, and of its last row where it ended. */
  ghost predicate GroupTells(b: OwnerBalance, ts: seq<Row>) {
    && (exists k :: FirstOf(ts, b.owner, k) && b.oldBalance == ts[k].balanceBefore && b.denom == Trim(ts[k].Denom()))
    && (exists k :: LastRowOf(ts, b.owner, k) && b.newBalance == ts[k].balanceAfter)
  }

  /** Every owner has its group, in order of first appearance. */
  ghost predicate GroupsTell(g: seq<OwnerBalance>, ts: seq<Row>) {
    && (forall i :: 0 <= i < |g| ==> GroupTells(g[i], ts))
    && (forall i, j, a, b :: 0 <= i < j < |g| && FirstOf(ts, g[i].owner, a) && FirstOf(ts, g[j].owner, b) ==> a < b)
    && (forall k :: 0 <= k < |ts| ==> exists i :: 0 <= i < |g| && g[i].owner == Trim(ts[k].Owner()))
  }

  lemma FirstStays(front: seq<Row>, r: Row, owner: string, k: int)
    ensures FirstOf(front, owner, k) ==> FirstOf(front + [r], owner, k)
    ensures FirstOf(front + [r], owner, k) ==> FirstOf(front, owner, k) || (k == |front| && Trim(r.Owner()) == owner)
    ensures (forall j :: 0 <= j < |front| ==> Trim(front[j].Owner()) != Trim(r.Owner())) ==>
              FirstOf(front + [r], Trim(r.Owner()), |front|)
  {
    hide Trim;
    var ts := front + [r];
    assert forall j :: 0 <= j < |front| ==> ts[j] == front[j];
  }

  lemma LastMoves(front: seq<Row>, r: Row, owner: string, k: int)
    ensures LastRowOf(front + [r], Trim(r.Owner()), |front|)
    ensures LastRowOf(front, owner, k) && owner != Trim(r.Owner()) ==> LastRowOf(front + [r], owner, k)
  {
    hide Trim;
    var ts := front + [r];
    assert forall j :: 0 <= j < |front| ==> ts[j] == front[j];
  }

  lemma GroupStillTells(b: OwnerBalance, front: seq<Row>, r: Row)
    requires GroupTells(b, front)
    ensures b.owner != Trim(r.Owner()) ==> GroupTells(b, front + [r])
    ensures b.owner == Trim(r.Owner()) ==> GroupTells(b.(newBalance := r.balanceAfter), front + [r])
  {
    hide Trim;
    var ts := front + [r];
    var k :| FirstOf(front, b.owner, k) && b.oldBalance == front[k].balanceBefore && b.denom == Trim(front[k].Denom());
    FirstStays(front, r, b.owner, k);
    var l :| LastRowOf(front, b.owner, l) && b.newBalance == front[l].balanceAfter;
    LastMoves(front, r, b.owner, l);
    InBounds(front, b.owner, k, l);
    assert ts[k] == front[k] && ts[l] == front[l] && ts[|front|] == r;
  }

  lemma InBounds(ts: seq<Row>, owner: string, k: int, l: int)
    requires FirstOf(ts, owner, k) && LastRowOf(ts, owner, l)
    ensures 0 <= k < |ts| && 0 <= l < |ts| && Trim(ts[k].Owner()) == owner
  {
  }

  lemma NewGroupTells(front: seq<Row>, r: Row)
    requires forall j :: 0 <= j < |front| ==> Trim(front[j].Owner()) != Trim(r.Owner())
    ensures GroupTells(OwnerBalance(Trim(r.Owner()), Trim(r.Denom()), r.balanceBefore, r.balanceAfter), front + [r])
  {
    hide Trim, FirstOf, LastRowOf;
    FirstStays(front, r, Trim(r.Owner()), |front|);
    LastMoves(front, r, Trim(r.Owner()), |front|);
    assert (front + [r])[|front|] == r;
  }

  lemma FirstOrder(g: seq<OwnerBalance>, h: seq<OwnerBalance>, front: seq<Row>, r: Row, i: nat, j: nat, a: int, b: int)
    requires GroupsTell(g, front) && i < j < |h| && |g| <= |h| <= |g| + 1
    requires forall n :: 0 <= n < |g| ==> h[n].owner == g[n].owner
    requires |h| == |g| + 1 ==>
               h[|g|].owner == Trim(r.Owner()) &&
               forall k :: 0 <= k < |front| ==> Trim(front[k].Owner()) != Trim(r.Owner())
    requires FirstOf(front + [r], h[i].owner, a) && FirstOf(front + [r], h[j].owner, b)
    ensures a < b
  {
    hide Trim, GroupTells;
    TellsFirst(g[i], front);
    var a' :| FirstOf(front, g[i].owner, a');
    FirstStays(front, r, g[i].owner, a');
    FirstUnique(front + [r], g[i].owner, a, a');
    if j < |g| {
      TellsFirst(g[j], front);
      var b' :| FirstOf(front, g[j].owner, b');
      FirstStays(front, r, g[j].owner, b');
      FirstUnique(front + [r], g[j].owner, b, b');
    } else {
      FirstStays(front, r, h[j].owner, b);
    }
  }

  lemma TellsFirst(b: OwnerBalance, ts: seq<Row>)
    requires GroupTells(b, ts)
    ensures exists k :: FirstOf(ts, b.owner, k)
  {
  }

  lemma FirstUnique(ts: seq<Row>, owner: string, a: int, b: int)
    requires FirstOf(ts, owner, a) && FirstOf(ts, owner, b)
    ensures a == b
  {
    hide Trim;
  }

  lemma OwnersNamed(g: seq<OwnerBalance>, ts: seq<Row>, owner: string)
    requires GroupsTell(g, ts) && Position(g, owner) == |g|
    ensures forall k :: 0 <= k < |ts| ==> Trim(ts[k].Owner()) != owner
  {
    hide Trim, GroupTells;
  }

  lemma MakeGroupsTell(g: seq<OwnerBalance>, h: seq<OwnerBalance>, front: seq<Row>, r: Row)
    requires GroupsTell(g, front) && |g| <= |h| <= |g| + 1
    requires forall n :: 0 <= n < |g| ==> h[n].owner == g[n].owner
    requires |h| == |g| + 1 ==>
               h[|g|].owner == Trim(r.Owner()) &&
               forall k :: 0 <= k < |front| ==> Trim(front[k].Owner()) != Trim(r.Owner())
    requires exists i :: 0 <= i < |h| && h[i].owner == Trim(r.Owner())
    requires forall i :: 0 <= i < |h| ==> GroupTells(h[i], front + [r])
    ensures GroupsTell(h, front + [r])
  {
    hide Trim, GroupTells, FirstOf;
    var ts := front + [r];
    forall i, j, a, b | 0 <= i < j < |h| && FirstOf(ts, h[i].owner, a) && FirstOf(ts, h[j].owner, b) ensures a < b {
      FirstOrder(g, h, front, r, i, j, a, b);
    }
    forall k | 0 <= k < |ts| ensures exists i :: 0 <= i < |h| && h[i].owner == Trim(ts[k].Owner()) {
      if k < |front| {
        assert ts[k] == front[k];
        var i :| 0 <= i < |g| && g[i].owner == Trim(front[k].Owner());
        assert h[i].owner == Trim(ts[k].Owner());
      }
    }
  }

  /** Grouping one more row. */
  lemma GroupedTells(g: seq<OwnerBalance>, front: seq<Row>, r: Row)
    requires GroupsTell(g, front) && Grouped(g, r).Success? && DistinctGroups(g)
    ensures GroupsTell(Grouped(g, r).value, front + [r]) && DistinctGroups(Grouped(g, r).value)
  {
    hide Trim, GroupTells, GroupsTell;
    var n, h := Position(g, Trim(r.Owner())), Grouped(g, r).value;
    TellsEach(g, front);
    if n == |g| {
      OwnersNamed(g, front, Trim(r.Owner()));
      forall i | 0 <= i < |g| ensures GroupTells(h[i], front + [r]) { GroupStillTells(g[i], front, r); }
      NewGroupTells(front, r);
      assert h[|g|].owner == Trim(r.Owner());
    } else {
      forall i | 0 <= i < |g| ensures GroupTells(h[i], front + [r]) { GroupStillTells(g[i], front, r); }
      assert h[n].owner == Trim(r.Owner());
    }
    MakeGroupsTell(g, h, front, r);
  }

  lemma TellsEach(g: seq<OwnerBalance>, ts: seq<Row>)
    requires GroupsTell(g, ts)
    ensures forall i :: 0 <= i < |g| ==> GroupTells(g[i], ts)
  {
    hide GroupTells, FirstOf;
  }

  ghost predicate DistinctGroups(g: seq<OwnerBalance>) { forall i, j :: 0 <= i < j < |g| ==> g[i].owner != g[j].owner }

  /**
   * Grouping a batch tells of each owner exactly once, in order of first appearance: the balance
   * before the owner's first row and the one after its last.
   */
  lemma {:induction false} GroupsExactly(ts: seq<Row>)
    requires GroupByOwner(ts).Success?
    ensures GroupsTell(GroupByOwner(ts).value, ts) && DistinctGroups(GroupByOwner(ts).value)
  {
    hide GroupsTell, DistinctGroups, Grouped;
    if ts == [] {
      NoGroups();
    } else {
      var front, r := ts[..|ts| - 1], ts[|ts| - 1];
      assert ts == front + [r];
      GroupsExactly(front);
      GroupedTells(GroupByOwner(front).value, front, r);
    }
  }

  lemma NoGroups()
    ensures GroupsTell([], []) && DistinctGroups([]) && Groupable([])
  {
  }

  /** No owner or denom is blank, and no owner has two denoms. */
  predicate Groupable(ts: seq<Row>) {
    && (forall k :: 0 <= k < |ts| ==> Trim(ts[k].Owner()) != "" && Trim(ts[k].Denom()) != "")
    && (forall j, k :: 0 <= j < k < |ts| && Trim(ts[j].Owner()) == Trim(ts[k].Owner()) ==>
          Trim(ts[j].Denom()) == Trim(ts[k].Denom()))
  }

  predicate FitsGroups(front: seq<Row>, r: Row) {
    && Trim(r.Owner()) != "" && Trim(r.Denom()) != ""
    && forall k :: 0 <= k < |front| && Trim(front[k].Owner()) == Trim(r.Owner()) ==>
         Trim(front[k].Denom()) == Trim(r.Denom())
  }

  lemma GroupableOne(front: seq<Row>, r: Row)
    ensures Groupable(front + [r]) <==> Groupable(front) && FitsGroups(front, r)
  {
    hide Trim;
    var all := front + [r];
    assert all[|front|] == r && forall k :: 0 <= k < |front| ==> all[k] == front[k];
  }

  lemma GroupedFailsExactly(g: seq<OwnerBalance>, front: seq<Row>, r: Row)
    requires GroupsTell(g, front) && Groupable(front)
    ensures Grouped(g, r).Success? <==> FitsGroups(front, r)
  {
    DenomOfGroup(g, front, Trim(r.Owner()));
    hide Trim, GroupsTell, Groupable, Position;
  }

  /** Grouping fails exactly on a blank owner or denom, or on an owner with two denoms. */
  lemma {:induction false} GroupingFailsExactly(ts: seq<Row>)
    ensures GroupByOwner(ts).Success? <==> Groupable(ts)
  {
    hide Trim, Grouped, GroupsTell, DistinctGroups, Groupable, FitsGroups;
    if ts == [] {
      NoGroups();
    } else {
      var front, r := ts[..|ts| - 1], ts[|ts| - 1];
      assert ts == front + [r];
      GroupableOne(front, r);
      GroupingFailsExactly(front);
      if GroupByOwner(front).Success? {
        GroupsExactly(front);
        GroupedFailsExactly(GroupByOwner(front).value, front, r);
      }
    }
  }

  /** A group's denom is that of every row of its owner, if these agree. */
  lemma DenomOfGroup(g: seq<OwnerBalance>, ts: seq<Row>, owner: string)
    requires GroupsTell(g, ts)
    requires forall j, k :: 0 <= j < k < |ts| && Trim(ts[j].Owner()) == Trim(ts[k].Owner()) ==>
               Trim(ts[j].Denom()) == Trim(ts[k].Denom())
    ensures var n := Position(g, owner);
            && (n == |g| ==> forall k :: 0 <= k < |ts| ==> Trim(ts[k].Owner()) != owner)
            && (n < |g| ==> (exists k :: 0 <= k < |ts| && Trim(ts[k].Owner()) == owner) &&
                            forall k :: 0 <= k < |ts| && Trim(ts[k].Owner()) == owner ==>
                               Trim(ts[k].Denom()) == g[n].denom)
  {
    hide Trim, GroupTells, LastRowOf;
    TellsEach(g, ts);
    var n := Position(g, owner);
    if n < |g| {
      DenomOfFirst(g[n], ts);
    }
  }

  lemma DenomOfFirst(b: OwnerBalance, ts: seq<Row>)
    requires GroupTells(b, ts)
    ensures exists k :: 0 <= k < |ts| && Trim(ts[k].Owner()) == b.owner && b.denom == Trim(ts[k].Denom())
  {
    hide Trim, LastRowOf;
  }
}
