/** What every run of the ledger keeps. */
module LedgerLaws {
  import opened Types
  import opened StateRoot
  import opened Ledgers

  // ---------------------------------------------------------------- playing moves

  /** Every move of the list is enabled when its turn comes. */
  ghost predicate Playable(l: Ledger, mvs: seq<Move>)
    decreases |mvs|, 0
  {
    mvs == [] ||
    var front := mvs[..|mvs| - 1];
    Playable(l, front) && Enabled(Play(l, front), mvs[|mvs| - 1])
  }

  ghost function Play(l: Ledger, mvs: seq<Move>): Ledger
    requires Playable(l, mvs)
    decreases |mvs|, 1
  {
    if mvs == [] then l else After(Play(l, mvs[..|mvs| - 1]), mvs[|mvs| - 1])
  }

  lemma PlayOne(l: Ledger, mvs: seq<Move>, mv: Move)
    ensures Playable(l, mvs + [mv]) <==> Playable(l, mvs) && Enabled(Play(l, mvs), mv)
    ensures Playable(l, mvs + [mv]) ==> Play(l, mvs + [mv]) == After(Play(l, mvs), mv)
  {
    assert (mvs + [mv])[..|mvs|] == mvs;
  }

  lemma {:induction false} PlayConcat(l: Ledger, a: seq<Move>, b: seq<Move>)
    ensures Playable(l, a + b) <==> Playable(l, a) && Playable(Play(l, a), b)
    ensures Playable(l, a + b) ==> Play(l, a + b) == Play(Play(l, a), b)
    decreases |b|
  {
    if b == [] {
      assert a + b == a;
    } else {
      var front := b[..|b| - 1];
      PlayConcat(l, a, front);
      assert a + b == (a + front) + [b[|b| - 1]];
      PlayOne(l, a + front, b[|b| - 1]);
    }
  }

  lemma PlayPrefix(l: Ledger, mvs: seq<Move>, i: nat)
    requires i <= |mvs| && Playable(l, mvs)
    ensures Playable(l, mvs[..i])
    ensures i < |mvs| ==>
              Playable(l, mvs[..i + 1]) && Enabled(Play(l, mvs[..i]), mvs[i]) &&
              Play(l, mvs[..i + 1]) == After(Play(l, mvs[..i]), mvs[i])
  {
    hide After, Enabled, Playable, Play;
    assert mvs[..i] + mvs[i..] == mvs;
    PlayConcat(l, mvs[..i], mvs[i..]);
    if i < |mvs| {
      assert mvs[..i + 1] + mvs[i + 1..] == mvs;
      PlayConcat(l, mvs[..i + 1], mvs[i + 1..]);
      assert mvs[..i + 1] == mvs[..i] + [mvs[i]];
      PlayOne(l, mvs[..i], mvs[i]);
    }
  }

  // ------------------------------------------------- calls, some of which may fail

  ghost function Step(l: Ledger, op: Operation): Ledger {
    if Apply(l, op).Success? then Apply(l, op).value else l
  }

  /** The ledger after a list of calls; a failing call changes nothing. */
  ghost function Run(l: Ledger, ops: seq<Operation>): Ledger {
    if ops == [] then l else Step(Run(l, ops[..|ops| - 1]), ops[|ops| - 1])
  }

  /** The moves of the calls that succeeded. */
  ghost function Performed(l: Ledger, ops: seq<Operation>): seq<Move> {
    if ops == [] then [] else
      var front, op := ops[..|ops| - 1], ops[|ops| - 1];
      if Apply(Run(l, front), op).Success? then
        (ApplyExactly(Run(l, front), op); Performed(l, front) + [MoveOf(op).value])
      else Performed(l, front)
  }

  /** How many of the calls failed. */
  ghost function Skips(l: Ledger, ops: seq<Operation>): nat {
    if ops == [] then 0 else
      Skips(l, ops[..|ops| - 1]) + if Apply(Run(l, ops[..|ops| - 1]), ops[|ops| - 1]).Success? then 0 else 1
  }

  lemma {:induction false} RunPlaysPerformed(l: Ledger, ops: seq<Operation>)
    ensures Playable(l, Performed(l, ops))
    ensures Run(l, ops) == Play(l, Performed(l, ops))
  {
    hide Apply, MoveOf, After, Enabled;
    if ops != [] {
      var front, op := ops[..|ops| - 1], ops[|ops| - 1];
      RunPlaysPerformed(l, front);
      ApplyExactly(Run(l, front), op);
      if Apply(Run(l, front), op).Success? {
        PlayOne(l, Performed(l, front), MoveOf(op).value);
      }
    }
  }

  // --------------------------------------------------------------------- accounting

  function Deposited(mvs: seq<Move>, k: Key): nat {
    if mvs == [] then 0 else
      var mv := mvs[|mvs| - 1];
      Deposited(mvs[..|mvs| - 1], k) + if mv.Credit? && mv.key == k then mv.amount else 0
  }

  function Withdrawn(mvs: seq<Move>, k: Key): nat {
    if mvs == [] then 0 else
      var mv := mvs[|mvs| - 1];
      Withdrawn(mvs[..|mvs| - 1], k) + if mv.Debit? && mv.key == k then mv.amount else 0
  }

  function WithdrawalsOf(mvs: seq<Move>, k: Key): nat {
    if mvs == [] then 0 else
      var mv := mvs[|mvs| - 1];
      WithdrawalsOf(mvs[..|mvs| - 1], k) + if mv.Debit? && mv.key == k then 1 else 0
  }

  function DepositIds(mvs: seq<Move>): seq<string> {
    if mvs == [] then [] else
      var mv := mvs[|mvs| - 1];
      DepositIds(mvs[..|mvs| - 1]) + if mv.Credit? then [mv.id] else []
  }

  function Nullifiers(mvs: seq<Move>): seq<string> {
    if mvs == [] then [] else
      var mv := mvs[|mvs| - 1];
      Nullifiers(mvs[..|mvs| - 1]) + if mv.Debit? then [mv.nullifier] else []
  }

  /** Between any two points of a run an account gains its deposits and loses its withdrawals. */
  lemma {:induction false} BalancesTelescope(l: Ledger, mvs: seq<Move>, k: Key)
    requires Playable(l, mvs)
    ensures Balance(Play(l, mvs).accounts, k) + Withdrawn(mvs, k) == Balance(l.accounts, k) + Deposited(mvs, k)
    ensures Nonce(Play(l, mvs).accounts, k) == Nonce(l.accounts, k) + WithdrawalsOf(mvs, k)
  {
    hide RootOf;
    if mvs != [] { BalancesTelescope(l, mvs[..|mvs| - 1], k); }
  }

  /** The sum of the nonces of all accounts. */
  ghost function TotalNonce(m: map<Key, Account>): nat
    decreases |m|
  {
    if m == map[] then 0 else
      var k :| k in m;
      m[k].nonce + TotalNonce(m - {k})
  }

  lemma {:induction false} TotalNonceSplit(m: map<Key, Account>, k: Key)
    requires k in m
    ensures TotalNonce(m) == m[k].nonce + TotalNonce(m - {k})
    decreases |m|
  {
    var j :| j in m && TotalNonce(m) == m[j].nonce + TotalNonce(m - {j});
    if j != k {
      hide TotalNonce;
      assert (m - {j})[k] == m[k] && (m - {k})[j] == m[j];
      TotalNonceSplit(m - {j}, k);
      TotalNonceSplit(m - {k}, j);
      assert m - {j} - {k} == m - {k} - {j};
    }
  }

  lemma TotalNoncePut(m: Accounts, k: Key, balance: nat, nonce: nat)
    requires k.Valid()
    ensures TotalNonce(Put(m, k, balance, nonce)) == TotalNonce(m) - Nonce(m, k) + nonce
  {
    var m' := Put(m, k, balance, nonce);
    TotalNonceSplit(m', k);
    assert m' - {k} == m - {k};
    if k in m { TotalNonceSplit(m, k); } else { assert m - {k} == m; }
  }

  /** The books of a ledger that started empty with root `g` and performed `mvs`. */
  ghost predicate Balanced(g: string, mvs: seq<Move>, l: Ledger) {
    && (forall k :: Balance(l.accounts, k) + Withdrawn(mvs, k) == Deposited(mvs, k))
    && (forall k :: Nonce(l.accounts, k) == WithdrawalsOf(mvs, k))
    && l.deposits == (set id <- DepositIds(mvs)) && |l.deposits| == |DepositIds(mvs)|
    && l.nullifiers == (set n <- Nullifiers(mvs)) && |l.nullifiers| == |Nullifiers(mvs)| == TotalNonce(l.accounts)
    && l.root == (if mvs == [] then g else RootOf(l.accounts))
  }

  /** The ids and nullifiers on the books, and how many nonce steps they paid for. */
  ghost predicate IdsBooked(l: Ledger, ids: seq<string>, nullifiers: seq<string>) {
    && l.deposits == (set id <- ids) && |l.deposits| == |ids|
    && l.nullifiers == (set n <- nullifiers) && |l.nullifiers| == |nullifiers| == TotalNonce(l.accounts)
  }

  lemma SetOfOneMore(ids: seq<string>, id: string)
    ensures (set x <- ids + [id]) == (set x <- ids) + {id}
  {
    assert forall x :: x in ids + [id] <==> x in ids || x == id;
  }

  lemma AfterSets(l: Ledger, mv: Move)
    requires Enabled(l, mv)
    ensures After(l, mv).deposits == if mv.Credit? then l.deposits + {mv.id} else l.deposits
    ensures After(l, mv).nullifiers == if mv.Debit? then l.nullifiers + {mv.nullifier} else l.nullifiers
  {
    hide RootOf, Moved, Balance, Nonce;
  }

  lemma IdsBookedAfter(l: Ledger, mv: Move, ids: seq<string>, nullifiers: seq<string>)
    requires Enabled(l, mv) && IdsBooked(l, ids, nullifiers)
    ensures IdsBooked(After(l, mv), ids + (if mv.Credit? then [mv.id] else []),
              nullifiers + if mv.Debit? then [mv.nullifier] else [])
  {
    hide RootOf, TotalNonce, Moved, Balance, Nonce, After, Enabled;
    BooksAfter(l, mv);
    AfterSets(l, mv);
    if mv.Credit? {
      SetOfOneMore(ids, mv.id);
      assert nullifiers + [] == nullifiers;
    } else {
      SetOfOneMore(nullifiers, mv.nullifier);
      assert ids + [] == ids;
    }
  }

  lemma NoIdsBooked(g: string)
    ensures IdsBooked(Genesis(g), DepositIds([]), Nullifiers([]))
  {
    NoNonces();
  }

  lemma {:induction false} PlayIds(g: string, mvs: seq<Move>)
    requires Playable(Genesis(g), mvs)
    ensures IdsBooked(Play(Genesis(g), mvs), DepositIds(mvs), Nullifiers(mvs))
  {
    hide IdsBooked, After, Enabled;
    if mvs == [] {
      NoIdsBooked(g);
    } else {
      var front, mv := mvs[..|mvs| - 1], mvs[|mvs| - 1];
      PlayIds(g, front);
      IdsBookedAfter(Play(Genesis(g), front), mv, DepositIds(front), Nullifiers(front));
    }
  }

  lemma PlayBalanced(g: string, mvs: seq<Move>)
    requires Playable(Genesis(g), mvs)
    ensures Balanced(g, mvs, Play(Genesis(g), mvs))
  {
    hide RootOf, TotalNonce, Moved;
    var l := Play(Genesis(g), mvs);
    forall k
      ensures Balance(l.accounts, k) + Withdrawn(mvs, k) == Deposited(mvs, k)
      ensures Nonce(l.accounts, k) == WithdrawalsOf(mvs, k)
    {
      BalancesTelescope(Genesis(g), mvs, k);
    }
    PlayIds(g, mvs);
  }

  lemma BooksAfter(l: Ledger, mv: Move)
    requires Enabled(l, mv)
    ensures TotalNonce(After(l, mv).accounts) == TotalNonce(l.accounts) + if mv.Debit? then 1 else 0
    ensures mv.Credit? ==> mv.id !in l.deposits
    ensures mv.Debit? ==> mv.nullifier !in l.nullifiers
  {
    hide RootOf, TotalNonce;
    var m := After(l, mv).accounts;
    TotalNoncePut(l.accounts, mv.key, Balance(m, mv.key), Nonce(m, mv.key));
  }

  lemma NoNonces()
    ensures TotalNonce(map[]) == 0
  {
  }

  /**
   * Over any history of calls, failed ones included, the books balance: balances are deposits
   * minus withdrawals, nonces count withdrawals, each nullifier paid for one nonce step, and
   * the root is the root of the current accounts.
   */
  lemma AnyHistoryBalanced(g: string, ops: seq<Operation>)
    ensures Balanced(g, Performed(Genesis(g), ops), Run(Genesis(g), ops))
  {
    hide Balanced, Performed, Run;
    RunPlaysPerformed(Genesis(g), ops);
    PlayBalanced(g, Performed(Genesis(g), ops));
  }

  // --------------------------------------------------------------- roots never repeat

  /** (nonce, balance) of account `k` is no smaller in `n`, comparing nonces first. */
  predicate NotBehindAt(m: Accounts, n: Accounts, k: Key) {
    Nonce(m, k) < Nonce(n, k) || (Nonce(m, k) == Nonce(n, k) && Balance(m, k) <= Balance(n, k))
  }

  predicate AheadAt(m: Accounts, n: Accounts, k: Key) {
    Nonce(m, k) < Nonce(n, k) || (Nonce(m, k) == Nonce(n, k) && Balance(m, k) < Balance(n, k))
  }

  /** Every move raises (nonce, balance) of the account it touches and leaves the others alone. */
  lemma MoveAdvances(l: Ledger, mv: Move)
    requires Enabled(l, mv)
    ensures AheadAt(l.accounts, After(l, mv).accounts, mv.key)
    ensures forall k :: k != mv.key ==>
              (k in l.accounts <==> k in After(l, mv).accounts) &&
              (k in l.accounts ==> After(l, mv).accounts[k] == l.accounts[k])
  {
    hide RootOf;
  }

  lemma {:induction false} RunsNeverFallBehind(l: Ledger, mvs: seq<Move>, k: Key)
    requires Playable(l, mvs)
    ensures NotBehindAt(l.accounts, Play(l, mvs).accounts, k)
  {
    if mvs != [] {
      RunsNeverFallBehind(l, mvs[..|mvs| - 1], k);
      MoveAdvances(Play(l, mvs[..|mvs| - 1]), mvs[|mvs| - 1]);
    }
  }

  lemma RunsAdvance(l: Ledger, mvs: seq<Move>)
    requires Playable(l, mvs) && mvs != []
    ensures Play(l, mvs).accounts != l.accounts
    ensures Play(l, mvs).root == RootOf(Play(l, mvs).accounts)
  {
    hide RootOf;
    var front, mv := mvs[..|mvs| - 1], mvs[|mvs| - 1];
    RunsNeverFallBehind(l, front, mv.key);
    MoveAdvances(Play(l, front), mv);
  }

  /**
   * The starting root is not the root of any non-empty account table. The computed genesis root
   * satisfies this; a pinned one has to be assumed to.
   */
  ghost predicate GenesisApart(g: string) {
    forall m: Accounts :: m != map[] ==> RootOf(m) != g
  }

  lemma ComputedGenesisApart()
    ensures GenesisApart(RootOf(map[]))
  {
    forall m: Accounts | m != map[] ensures RootOf(m) != RootOf(map[]) {
      if RootOf(m) == RootOf(map[]) { RootInjective(m, map[]); }
    }
  }

  lemma {:induction false} NeverEmptiedAgain(l: Ledger, mvs: seq<Move>)
    requires Playable(l, mvs) && mvs != []
    ensures Play(l, mvs).accounts != map[]
  {
    hide RootOf;
    assert mvs[|mvs| - 1].key in Play(l, mvs).accounts;
  }

  lemma PlayNothing(l: Ledger)
    ensures Playable(l, []) && Play(l, []) == l
  {
  }

  lemma GenesisIsApartFrom(g: string, m: Accounts)
    requires GenesisApart(g) && m != map[]
    ensures RootOf(m) != g
  {
  }

  lemma LaterRootDiffers(g: string, a: seq<Move>, b: seq<Move>)
    requires GenesisApart(g) && b != []
    requires Playable(Genesis(g), a) && Playable(Play(Genesis(g), a), b)
    ensures Play(Genesis(g), a).root != Play(Play(Genesis(g), a), b).root
  {
    hide After, Enabled, Playable, Play, RootOf, GenesisApart;
    var l := Play(Genesis(g), a);
    RunsAdvance(l, b);
    var l' := Play(l, b);
    if a == [] {
      PlayNothing(Genesis(g));
      NeverEmptiedAgain(l, b);
      GenesisIsApartFrom(g, l'.accounts);
    } else {
      RunsAdvance(Genesis(g), a);
      if l.root == l'.root { RootInjective(l.accounts, l'.accounts); }
    }
  }

  /** The state root never returns to an earlier value. */
  lemma RootsNeverRepeat(g: string, mvs: seq<Move>, i: nat, j: nat)
    requires GenesisApart(g) && Playable(Genesis(g), mvs) && i < j <= |mvs|
    ensures Playable(Genesis(g), mvs[..i]) && Playable(Genesis(g), mvs[..j])
    ensures Play(Genesis(g), mvs[..i]).root != Play(Genesis(g), mvs[..j]).root
  {
    hide After, Enabled, Playable, Play, RootOf, GenesisApart;
    PlayPrefix(Genesis(g), mvs, i);
    PlayPrefix(Genesis(g), mvs, j);
    assert mvs[..j] == mvs[..i] + mvs[i..j];
    PlayConcat(Genesis(g), mvs[..i], mvs[i..j]);
    LaterRootDiffers(g, mvs[..i], mvs[i..j]);
  }

  // ---------------------------------------------------------------------- reordering

  lemma PutPut(m: Accounts, k: Key, b: nat, n: nat, j: Key, c: nat, o: nat)
    requires k.Valid() && j.Valid()
    ensures j == k ==> Put(Put(m, k, b, n), j, c, o) == Put(m, j, c, o)
    ensures j != k ==> Put(Put(m, k, b, n), j, c, o) == Put(Put(m, j, c, o), k, b, n)
  {
    var (x, y) := (Account(k.owner, k.denom, b, n), Account(j.owner, j.denom, c, o));
    UpdateUpdate(m, k, x, j, y);
  }

  lemma UpdateUpdate<K, V>(m: map<K, V>, k: K, x: V, j: K, y: V)
    ensures j == k ==> m[k := x][j := y] == m[j := y]
    ensures j != k ==> m[k := x][j := y] == m[j := y][k := x]
  {
  }

  lemma MovedIs(m: Accounts, mv: Move, balance: nat, nonce: nat)
    requires mv.Debit? ==> mv.amount <= Balance(m, mv.key)
    requires balance == if mv.Credit? then Balance(m, mv.key) + mv.amount else Balance(m, mv.key) - mv.amount
    requires nonce == if mv.Credit? then Nonce(m, mv.key) else mv.nonce
    ensures mv.key.Valid() && Moved(m, mv) == Put(m, mv.key, balance, nonce)
  {
    hide Put, Balance, Nonce;
  }

  lemma MovedCommutes(m: Accounts, mv: Move, c: Move)
    requires c.Credit? && (mv.Debit? ==> mv.amount <= Balance(m, mv.key) && mv.nonce == Nonce(m, mv.key) + 1)
    ensures mv.Debit? ==> mv.amount <= Balance(Moved(m, c), mv.key)
    ensures Moved(Moved(m, c), mv) == Moved(Moved(m, mv), c)
  {
    hide *;
    var k, j := c.key, mv.key;
    var (b, n) := (Balance(m, k) + c.amount, Nonce(m, k));
    var d := if mv.Credit? then Balance(m, j) + mv.amount else Balance(m, j) - mv.amount;
    var o := if mv.Credit? then Nonce(m, j) else mv.nonce;
    MovedIs(m, c, b, n);
    MovedIs(m, mv, d, o);
    PutReads(m, k, b, n, j);
    PutReads(m, j, d, o, k);
    if j == k {
      MovedIs(Moved(m, c), mv, d + c.amount, o);
      MovedIs(Moved(m, mv), c, d + c.amount, o);
      PutPut(m, k, b, n, k, d + c.amount, o);
      PutPut(m, k, d, o, k, d + c.amount, o);
    } else {
      MovedIs(Moved(m, c), mv, d, o);
      MovedIs(Moved(m, mv), c, b, n);
      PutPut(m, k, b, n, j, d, o);
    }
  }

  /** A deposit that may follow a move may as well precede it. */
  lemma CreditCommutes(l: Ledger, mv: Move, c: Move)
    requires c.Credit? && Enabled(l, mv) && Enabled(After(l, mv), c)
    ensures Enabled(l, c) && Enabled(After(l, c), mv)
    ensures After(After(l, c), mv) == After(After(l, mv), c)
  {
    hide RootOf;
    MovedCommutes(l.accounts, mv, c);
    assert Enabled(After(l, c), mv) by { MoveAdvances(l, c); }
    assert l.deposits + {c.id} + (if mv.Credit? then {mv.id} else {}) ==
           l.deposits + (if mv.Credit? then {mv.id} else {}) + {c.id};
  }

  lemma {:induction false} CreditFirst(l: Ledger, mvs: seq<Move>, c: Move)
    requires c.Credit? && Playable(l, mvs + [c])
    ensures Playable(l, [c] + mvs)
    ensures Play(l, [c] + mvs) == Play(l, mvs + [c])
    decreases |mvs|
  {
    hide After, Enabled;
    PlayOne(l, mvs, c);
    if mvs == [] {
      assert [c] + mvs == mvs + [c];
    } else {
      var front, mv := mvs[..|mvs| - 1], mvs[|mvs| - 1];
      assert mvs == front + [mv];
      PlayOne(l, front, mv);
      CreditCommutes(Play(l, front), mv, c);
      PlayOne(l, front, c);
      CreditFirst(l, front, c);
      assert [c] + mvs == ([c] + front) + [mv];
      PlayOne(l, [c] + front, mv);
    }
  }

  function Credits(mvs: seq<Move>): seq<Move> {
    if mvs == [] then [] else
      Credits(mvs[..|mvs| - 1]) + if mvs[|mvs| - 1].Credit? then [mvs[|mvs| - 1]] else []
  }

  function Debits(mvs: seq<Move>): seq<Move> {
    if mvs == [] then [] else
      Debits(mvs[..|mvs| - 1]) + if mvs[|mvs| - 1].Debit? then [mvs[|mvs| - 1]] else []
  }

  /** All deposits first, then the withdrawals: nothing is refused and the same ledger is reached. */
  lemma {:induction false} DepositsFirst(l: Ledger, mvs: seq<Move>)
    requires Playable(l, mvs)
    ensures Playable(l, Credits(mvs) + Debits(mvs))
    ensures Play(l, Credits(mvs) + Debits(mvs)) == Play(l, mvs)
  {
    hide After, Enabled, Playable, Play;
    if mvs != [] {
      var front, mv := mvs[..|mvs| - 1], mvs[|mvs| - 1];
      var c, d := Credits(front), Debits(front);
      assert mvs == front + [mv];
      PlayOne(l, front, mv);
      DepositsFirst(l, front);
      PlayOne(l, c + d, mv);
      assert (c + d) + [mv] == c + (d + [mv]);
      if mv.Credit? {
        PlayConcat(l, c, d + [mv]);
        CreditFirst(Play(l, c), d, mv);
        PlayConcat(l, c, [mv] + d);
        assert c + ([mv] + d) == (c + [mv]) + d;
        assert Credits(mvs) + Debits(mvs) == (c + [mv]) + (d + []) == (c + [mv]) + d;
      } else {
        assert Credits(mvs) + Debits(mvs) == (c + []) + (d + [mv]) == c + (d + [mv]);
      }
    } else {
      assert Credits(mvs) + Debits(mvs) == mvs;
    }
  }

  // --------------------------------------------------- deposits in any order, one root

  predicate DistinctDeposits(ops: seq<Operation>) {
    && (forall op <- ops :: op.DepositOp?)
    && (forall i, j :: 0 <= i < j < |ops| ==> ops[i].record.depositId != ops[j].record.depositId)
  }

  lemma DepositCallsCommute(l: Ledger, a: Operation, b: Operation)
    requires a.DepositOp? && b.DepositOp? && a.record.depositId != b.record.depositId
    ensures Step(Step(l, a), b) == Step(Step(l, b), a)
  {
    hide Apply, MoveOf, RootOf, Moved;
    ApplyExactly(l, a);
    ApplyExactly(l, b);
    ApplyExactly(Step(l, a), b);
    ApplyExactly(Step(l, b), a);
    DepositId(a);
    DepositId(b);
    if Apply(l, a).Success? && Apply(l, b).Success? {
      CreditCommutes(l, MoveOf(a).value, MoveOf(b).value);
    }
  }

  lemma DepositId(a: Operation)
    requires a.DepositOp?
    ensures MoveOf(a).Some? ==> MoveOf(a).value.Credit? && MoveOf(a).value.id == a.record.depositId
  {
  }

  lemma {:induction false} RunDepositFirst(l: Ledger, ops: seq<Operation>, a: Operation)
    requires a.DepositOp?
    requires forall op <- ops :: op.DepositOp? && op.record.depositId != a.record.depositId
    ensures Run(l, ops + [a]) == Run(l, [a] + ops)
    decreases |ops|
  {
    hide Step;
    assert (ops + [a])[..|ops|] == ops;
    if ops == [] {
      assert [a] + ops == ops + [a];
    } else {
      var front, b := ops[..|ops| - 1], ops[|ops| - 1];
      assert b in ops;
      RunDepositFirst(l, front, a);
      assert (front + [a])[..|front|] == front;
      DepositCallsCommute(Run(l, front), b, a);
      assert ([a] + ops)[..|ops|] == [a] + front;
    }
  }

  lemma {:induction false} RunConcat(l: Ledger, a: seq<Operation>, b: seq<Operation>)
    ensures Run(l, a + b) == Run(Run(l, a), b)
    decreases |b|
  {
    hide Step;
    if b == [] {
      assert a + b == a;
    } else {
      RunConcat(l, a, b[..|b| - 1]);
      assert (a + b)[..|a + b| - 1] == a + b[..|b| - 1];
    }
  }

  lemma RunNothing(l: Ledger)
    ensures Run(l, []) == l
  {
  }

  lemma RunOne(l: Ledger, ops: seq<Operation>, a: Operation)
    ensures Run(l, ops + [a]) == Step(Run(l, ops), a)
  {
    assert (ops + [a])[..|ops|] == ops;
  }

  lemma SkipsOne(l: Ledger, ops: seq<Operation>, a: Operation)
    ensures Skips(l, ops + [a]) == Skips(l, ops) + if Apply(Run(l, ops), a).Success? then 0 else 1
  {
    assert (ops + [a])[..|ops|] == ops;
  }

  lemma {:induction false} SkipsConcat(l: Ledger, a: seq<Operation>, b: seq<Operation>)
    ensures Skips(l, a + b) == Skips(l, a) + Skips(Run(l, a), b)
    decreases |b|
  {
    hide Apply, Run;
    if b == [] {
      assert a + b == a;
    } else {
      var front, op := b[..|b| - 1], b[|b| - 1];
      SkipsConcat(l, a, front);
      RunConcat(l, a, front);
      assert a + b == (a + front) + [op] && b == front + [op];
      SkipsOne(l, a + front, op);
      SkipsOne(Run(l, a), front, op);
    }
  }

  lemma RunDepositLast(l: Ledger, u: seq<Operation>, a: Operation, v: seq<Operation>)
    requires a.DepositOp?
    requires forall op <- v :: op.DepositOp? && op.record.depositId != a.record.depositId
    ensures Run(l, u + [a] + v) == Step(Run(l, u + v), a)
  {
    hide Step;
    RunConcat(l, u, [a] + v);
    assert u + ([a] + v) == u + [a] + v;
    RunDepositFirst(Run(l, u), v, a);
    RunConcat(l, u, v);
    assert (v + [a])[..|v|] == v;
  }

  lemma DropFromBoth<T>(front: seq<T>, x: T, u: seq<T>, v: seq<T>)
    requires multiset(front + [x]) == multiset(u + [x] + v)
    ensures multiset(front) == multiset(u + v)
  {
    hide *;
    assert multiset(front + [x]) == multiset(front) + multiset{x};
    assert multiset(u + [x] + v) == multiset(u + v) + multiset{x};
    assert multiset(front) == multiset(front + [x]) - multiset{x};
  }

  lemma DistinctWithout(u: seq<Operation>, a: Operation, v: seq<Operation>)
    requires DistinctDeposits(u + [a] + v)
    ensures a.DepositOp? && DistinctDeposits(u + v)
    ensures forall op <- v :: op.DepositOp? && op.record.depositId != a.record.depositId
  {
    var b := u + [a] + v;
    assert b[|u|] == a;
    forall i | 0 <= i < |u + v| ensures (u + v)[i] == b[if i < |u| then i else i + 1] {}
    forall op | op in v ensures op.DepositOp? && op.record.depositId != a.record.depositId {
      var i :| 0 <= i < |v| && v[i] == op;
      assert b[|u| + 1 + i] == op;
    }
  }

  /** Deposits with distinct ids reach the same ledger, root included, in whatever order they come. */
  lemma {:induction false} DepositOrderIrrelevant(l: Ledger, a: seq<Operation>, b: seq<Operation>)
    requires DistinctDeposits(a) && DistinctDeposits(b)
    requires multiset(a) == multiset(b)
    ensures Run(l, a) == Run(l, b)
    decreases |a|
  {
    hide Step, Run, DistinctDeposits;
    assert |a| == |multiset(a)| == |multiset(b)| == |b|;
    if a != [] {
      var front, op := a[..|a| - 1], a[|a| - 1];
      assert a == front + [op];
      assert op in multiset(b);
      var i :| 0 <= i < |b| && b[i] == op;
      var u, v := b[..i], b[i + 1..];
      assert b == u + [op] + v;
      DropFromBoth(front, op, u, v);
      assert front + [op] + [] == a && front + [] == front;
      DistinctWithout(front, op, []);
      DistinctWithout(u, op, v);
      DepositOrderIrrelevant(l, front, u + v);
      RunDepositLast(l, u, op, v);
      RunOne(l, front, op);
    }
  }
}
