/** Recovering the order of pending transitions from their roots, and cutting it for one batch. */
module TransitionOrder {
  import opened Wrappers
  import opened Text
  import opened SettlementLogs

  /** addPendingTransition. */
  function Indexed(m: map<string, Row>, t: Row): Result<map<string, Row>> {
    if Blank(t.rootBefore) || Blank(t.rootAfter) || t.rootBefore in m then Failure(InvalidPendingSettlement)
    else Success(m[t.rootBefore := t])
  }

  function IndexAll(ts: seq<Row>): Result<map<string, Row>> {
    if ts == [] then Success(map[]) else
      var m :- IndexAll(ts[..|ts| - 1]);
      Indexed(m, ts[|ts| - 1])
  }

  /** `n` steps from `root`; visited entries stay in the index. */
  function Walk(m: map<string, Row>, root: string, n: nat): Result<seq<Row>>
    decreases n
  {
    if n == 0 then Success([])
    else if root !in m then Failure(InvalidPendingSettlement)
    else
      var rest :- Walk(m, m[root].rootAfter, n - 1);
      Success([m[root]] + rest)
  }

  /** orderPendingSettlementTransitions. */
  function Ordered(committedRoot: string, deposits: seq<Row>, withdrawals: seq<Row>): Result<seq<Row>> {
    var m :- IndexAll(deposits + withdrawals);
    Walk(m, committedRoot, |m|)
  }

  method OrderPendingSettlementTransitions(committedRoot: string, deposits: seq<Row>, withdrawals: seq<Row>)
    returns (r: Result<seq<Row>>)
    ensures r == Ordered(committedRoot, deposits, withdrawals)
  {
    hide Walk, Indexed;
    var all := deposits + withdrawals;
    var byRootBefore: map<string, Row> := map[];
    for i := 0 to |all|
      invariant IndexAll(all[..i]) == Success(byRootBefore)
    {
      assert all[..i + 1][..i] == all[..i];
      var added := Indexed(byRootBefore, all[i]);
      if added.Failure? {
        IndexAllFails(all, i + 1);
        return Failure(added.error);
      }
      byRootBefore := added.value;
    }
    assert all[..|all|] == all;
    r := FollowRoots(byRootBefore, committedRoot);
  }

  lemma {:induction false} IndexAllFails(ts: seq<Row>, n: nat)
    requires n <= |ts| && IndexAll(ts[..n]).Failure?
    ensures IndexAll(ts) == IndexAll(ts[..n])
    decreases |ts|
  {
    if n < |ts| {
      var front := ts[..|ts| - 1];
      assert front[..n] == ts[..n];
      IndexAllFails(front, n);
    } else {
      assert ts[..n] == ts;
    }
  }

  method FollowRoots(m: map<string, Row>, committedRoot: string) returns (r: Result<seq<Row>>)
    ensures r == Walk(m, committedRoot, |m|)
  {
    var ordered: seq<Row> := [];
    var currentRoot := committedRoot;
    PrependNothing(Walk(m, committedRoot, |m|));
    while |ordered| < |m|
      invariant |ordered| <= |m|
      invariant Walk(m, committedRoot, |m|) == Prepended(ordered, Walk(m, currentRoot, |m| - |ordered|))
    {
      if currentRoot !in m {
        return Failure(InvalidPendingSettlement);
      }
      ghost var rest := Walk(m, m[currentRoot].rootAfter, |m| - |ordered| - 1);
      assert Walk(m, currentRoot, |m| - |ordered|) == Prepended([m[currentRoot]], rest);
      assert rest.Success? ==> ordered + ([m[currentRoot]] + rest.value) == (ordered + [m[currentRoot]]) + rest.value;
      ordered := ordered + [m[currentRoot]];
      currentRoot := m[currentRoot].rootAfter;
    }
    assert ordered + [] == ordered;
    return Success(ordered);
  }

  lemma PrependNothing(r: Result<seq<Row>>)
    ensures Prepended([], r) == r
  {
    if r.Success? { assert [] + r.value == r.value; }
  }

  function Prepended(a: seq<Row>, r: Result<seq<Row>>): Result<seq<Row>> {
    if r.Success? then Success(a + r.value) else r
  }

  // -------------------------------------------------------------------- properties

  /** A chain from `root`: each transition starts where the one before it ended. */
  ghost predicate LinkedFrom(root: string, ts: seq<Row>) {
    && (ts != [] ==> ts[0].rootBefore == root)
    && (forall i, j :: 0 <= i < j < |ts| && j == i + 1 ==> ts[i].rootAfter == ts[j].rootBefore)
  }

  ghost predicate DistinctStarts(ts: seq<Row>) {
    forall i, j :: 0 <= i < j < |ts| ==> ts[i].rootBefore != ts[j].rootBefore
  }

  predicate RootsPresent(ts: seq<Row>) {
    forall t <- ts :: !Blank(t.rootBefore) && !Blank(t.rootAfter)
  }

  /** The index holds every transition under its own start, and nothing else. */
  ghost predicate Indexes(m: map<string, Row>, ts: seq<Row>) {
    && |m| == |ts|
    && (forall t <- ts :: t.rootBefore in m && m[t.rootBefore] == t)
    && (forall root <- m :: m[root] in ts && m[root].rootBefore == root)
  }

  lemma IndexesOne(m: map<string, Row>, ts: seq<Row>, t: Row)
    requires Indexes(m, ts) && t.rootBefore !in m
    ensures Indexes(m[t.rootBefore := t], ts + [t])
  {
  }

  lemma IndexedExactly(m: map<string, Row>, t: Row)
    ensures Indexed(m, t).Success? <==> !Blank(t.rootBefore) && !Blank(t.rootAfter) && t.rootBefore !in m
    ensures Indexed(m, t).Success? ==> Indexed(m, t).value == m[t.rootBefore := t]
    ensures Indexed(m, t).Failure? ==> Indexed(m, t) == Failure(InvalidPendingSettlement)
  {
    hide Blank;
  }

  lemma RootsPresentOne(ts: seq<Row>, t: Row)
    ensures RootsPresent(ts + [t]) <==> RootsPresent(ts) && !Blank(t.rootBefore) && !Blank(t.rootAfter)
  {
    hide Blank;
    assert forall u :: u in ts + [t] <==> u in ts || u == t;
  }

  lemma DistinctStartsOne(ts: seq<Row>, t: Row)
    ensures DistinctStarts(ts + [t]) <==> DistinctStarts(ts) && forall u <- ts :: u.rootBefore != t.rootBefore
  {
    var all := ts + [t];
    assert forall i :: 0 <= i < |ts| ==> all[i] == ts[i];
    if DistinctStarts(all) {
      forall u | u in ts ensures u.rootBefore != t.rootBefore {
        var i :| 0 <= i < |ts| && ts[i] == u;
        assert all[i].rootBefore != all[|ts|].rootBefore;
      }
    }
  }

  lemma IndexAllOne(ts: seq<Row>, t: Row)
    ensures IndexAll(ts + [t]) == if IndexAll(ts).Failure? then IndexAll(ts) else Indexed(IndexAll(ts).value, t)
  {
    assert (ts + [t])[..|ts|] == ts;
  }

  lemma IndexedStarts(m: map<string, Row>, ts: seq<Row>, t: Row)
    requires Indexes(m, ts)
    ensures t.rootBefore !in m <==> forall u <- ts :: u.rootBefore != t.rootBefore
  {
  }

  lemma NothingIndexed()
    ensures IndexAll([]) == Success(map[]) && Indexes(map[], []) && RootsPresent([]) && DistinctStarts([])
  {
  }

  lemma {:induction false} IndexAllIndexes(ts: seq<Row>)
    ensures IndexAll(ts).Success? <==> RootsPresent(ts) && DistinctStarts(ts)
    ensures IndexAll(ts).Success? ==> Indexes(IndexAll(ts).value, ts)
    ensures IndexAll(ts).Failure? ==> IndexAll(ts) == Failure(InvalidPendingSettlement)
    decreases |ts|
  {
    hide *;
    if ts == [] {
      NothingIndexed();
    } else {
      var front, t := ts[..|ts| - 1], ts[|ts| - 1];
      assert ts == front + [t];
      IndexAllIndexes(front);
      IndexAllOne(front, t);
      RootsPresentOne(front, t);
      DistinctStartsOne(front, t);
      if IndexAll(front).Success? {
        var m := IndexAll(front).value;
        IndexedExactly(m, t);
        IndexedStarts(m, front, t);
        if t.rootBefore !in m { IndexesOne(m, front, t); }
      }
    }
  }

  /** Indexing succeeds exactly when no root is blank and no two transitions share a start. */
  lemma IndexAllExactly(ts: seq<Row>)
    ensures IndexAll(ts).Success? <==> RootsPresent(ts) && DistinctStarts(ts)
    ensures IndexAll(ts).Success? ==>
              var m := IndexAll(ts).value;
              && |m| == |ts|
              && (forall t <- ts :: t.rootBefore in m && m[t.rootBefore] == t)
              && (forall root <- m :: m[root] in ts && m[root].rootBefore == root)
    ensures IndexAll(ts).Failure? ==> IndexAll(ts) == Failure(InvalidPendingSettlement)
  {
    hide IndexAll, RootsPresent, DistinctStarts;
    IndexAllIndexes(ts);
  }

  lemma {:induction false} WalkSound(m: map<string, Row>, root: string, n: nat)
    requires forall r <- m :: m[r].rootBefore == r
    requires Walk(m, root, n).Success?
    ensures var out := Walk(m, root, n).value;
            |out| == n && LinkedFrom(root, out) && forall t <- out :: t.rootBefore in m && m[t.rootBefore] == t
    decreases n
  {
    if n > 0 { WalkSound(m, m[root].rootAfter, n - 1); }
  }

  /** A success is a linked walk from the committed root, as long as the input, made of its entries. */
  lemma OrderSound(committedRoot: string, deposits: seq<Row>, withdrawals: seq<Row>)
    requires Ordered(committedRoot, deposits, withdrawals).Success?
    ensures var out := Ordered(committedRoot, deposits, withdrawals).value;
            && LinkedFrom(committedRoot, out) && |out| == |deposits| + |withdrawals|
            && (forall t <- out :: t in deposits + withdrawals)
            && RootsPresent(deposits + withdrawals) && DistinctStarts(deposits + withdrawals)
  {
    hide LinkedFrom, RootsPresent, DistinctStarts;
    IndexAllExactly(deposits + withdrawals);
    var m := IndexAll(deposits + withdrawals).value;
    WalkSound(m, committedRoot, |m|);
  }

  lemma {:induction false} WalkFollowsChain(m: map<string, Row>, root: string, chain: seq<Row>)
    requires LinkedFrom(root, chain)
    requires forall t <- chain :: t.rootBefore in m && m[t.rootBefore] == t
    ensures Walk(m, root, |chain|) == Success(chain)
    decreases |chain|
  {
    if chain != [] {
      assert chain[0] in chain && chain == [chain[0]] + chain[1..];
      WalkFollowsChain(m, chain[0].rootAfter, chain[1..]);
    }
  }

  /** However the pending rows are listed, a chain that never revisits a root is recovered as it was. */
  lemma OrderRecovers(committedRoot: string, chain: seq<Row>, deposits: seq<Row>, withdrawals: seq<Row>)
    requires LinkedFrom(committedRoot, chain) && RootsPresent(chain) && DistinctStarts(chain)
    requires multiset(deposits + withdrawals) == multiset(chain)
    ensures Ordered(committedRoot, deposits, withdrawals) == Success(chain)
  {
    var all := deposits + withdrawals;
    assert forall t :: t in all <==> t in multiset(all);
    assert forall t :: t in chain <==> t in multiset(chain);
    StartsPermute(chain, all);
    IndexAllExactly(all);
    assert |all| == |multiset(all)| == |chain|;
    hide RootsPresent, DistinctStarts;
    WalkFollowsChain(IndexAll(all).value, committedRoot, chain);
  }

  lemma StartsPermute(a: seq<Row>, b: seq<Row>)
    requires DistinctStarts(a) && multiset(a) == multiset(b)
    ensures DistinctStarts(b)
  {
    forall i, j | 0 <= i < j < |b| ensures b[i].rootBefore != b[j].rootBefore {
      if b[i].rootBefore == b[j].rootBefore {
        assert b[i] in multiset(a) && b[j] in multiset(a);
        assert b[i] == b[j];
        TwoOccurrences(b, i, j);
        OneOccurrence(a, b[i]);
      }
    }
  }

  lemma TwoOccurrences<T>(s: seq<T>, i: nat, j: nat)
    requires i < j < |s| && s[i] == s[j]
    ensures multiset(s)[s[i]] >= 2
  {
    assert s == s[..i] + [s[i]] + s[i + 1..j] + [s[j]] + s[j + 1..];
  }

  lemma {:induction false} OneOccurrence(a: seq<Row>, t: Row)
    requires DistinctStarts(a) && t in a
    ensures multiset(a)[t] == 1
  {
    var i :| 0 <= i < |a| && a[i] == t;
    assert a == a[..i] + [t] + a[i + 1..];
    assert t !in a[..i] && t !in a[i + 1..];
    assert multiset(a)[t] == multiset(a[..i])[t] + 1 + multiset(a[i + 1..])[t];
  }

  /** An ordering is a permutation of its input exactly when it never returns to a root. */
  lemma OrderPermutesExactly(committedRoot: string, deposits: seq<Row>, withdrawals: seq<Row>)
    requires Ordered(committedRoot, deposits, withdrawals).Success?
    ensures var out := Ordered(committedRoot, deposits, withdrawals).value;
            multiset(out) == multiset(deposits + withdrawals) <==> DistinctStarts(out)
  {
    var all := deposits + withdrawals;
    var out := Ordered(committedRoot, deposits, withdrawals).value;
    OrderSound(committedRoot, deposits, withdrawals);
    hide Ordered, LinkedFrom, RootsPresent;
    if multiset(out) == multiset(all) {
      StartsPermute(all, out);
    }
    if DistinctStarts(out) {
      SameSizeSameRows(out, all);
    }
  }

  /** A linked list of `rows`, all of them, from `root`, in which no root starts two transitions. */
  ghost predicate Arranges(chain: seq<Row>, root: string, rows: seq<Row>) {
    multiset(chain) == multiset(rows) && LinkedFrom(root, chain) && DistinctStarts(chain) && RootsPresent(chain)
  }

  /** Ordering succeeds and loses nothing if and only if the rows can be arranged as one chain. */
  lemma OrdersExactly(committedRoot: string, deposits: seq<Row>, withdrawals: seq<Row>)
    ensures (exists chain :: Arranges(chain, committedRoot, deposits + withdrawals)) <==>
            && Ordered(committedRoot, deposits, withdrawals).Success?
            && multiset(Ordered(committedRoot, deposits, withdrawals).value) == multiset(deposits + withdrawals)
  {
    hide Ordered, LinkedFrom, DistinctStarts, RootsPresent;
    if chain :| Arranges(chain, committedRoot, deposits + withdrawals) {
      OrderRecovers(committedRoot, chain, deposits, withdrawals);
    }
    if Ordered(committedRoot, deposits, withdrawals).Success? {
      var out := Ordered(committedRoot, deposits, withdrawals).value;
      if multiset(out) == multiset(deposits + withdrawals) {
        OrderSound(committedRoot, deposits, withdrawals);
        OrderPermutesExactly(committedRoot, deposits, withdrawals);
        OrderedRootsPresent(committedRoot, deposits, withdrawals);
        assert Arranges(out, committedRoot, deposits + withdrawals);
      }
    }
  }

  lemma OrderedRootsPresent(committedRoot: string, deposits: seq<Row>, withdrawals: seq<Row>)
    requires Ordered(committedRoot, deposits, withdrawals).Success?
    ensures RootsPresent(Ordered(committedRoot, deposits, withdrawals).value)
  {
    OrderSound(committedRoot, deposits, withdrawals);
    IndexAllExactly(deposits + withdrawals);
    hide Walk, IndexAll, Blank, LinkedFrom, DistinctStarts;
  }

  /** A check on the rows alone: where some measure of roots grows along every row, nothing is lost. */
  lemma RankedOrdersAll(committedRoot: string, deposits: seq<Row>, withdrawals: seq<Row>, rank: string -> int)
    requires Ordered(committedRoot, deposits, withdrawals).Success?
    requires forall t <- deposits + withdrawals :: rank(t.rootBefore) < rank(t.rootAfter)
    ensures multiset(Ordered(committedRoot, deposits, withdrawals).value) == multiset(deposits + withdrawals)
  {
    hide Ordered, RootsPresent, DistinctStarts;
    OrderSound(committedRoot, deposits, withdrawals);
    RankedStartsDistinct(committedRoot, Ordered(committedRoot, deposits, withdrawals).value, rank);
    OrderPermutesExactly(committedRoot, deposits, withdrawals);
  }

  lemma {:induction false} RankGrows(root: string, ts: seq<Row>, rank: string -> int, i: nat, j: nat)
    requires LinkedFrom(root, ts) && i < j < |ts| && forall t <- ts :: rank(t.rootBefore) < rank(t.rootAfter)
    ensures rank(ts[i].rootBefore) < rank(ts[j].rootBefore)
    decreases j
  {
    var k := j - 1;
    assert ts[k] in ts && ts[k].rootAfter == ts[j].rootBefore;
    if i < k { RankGrows(root, ts, rank, i, k); }
  }

  lemma RankedStartsDistinct(root: string, ts: seq<Row>, rank: string -> int)
    requires LinkedFrom(root, ts) && forall t <- ts :: rank(t.rootBefore) < rank(t.rootAfter)
    ensures DistinctStarts(ts)
  {
    forall i, j | 0 <= i < j < |ts| ensures ts[i].rootBefore != ts[j].rootBefore { RankGrows(root, ts, rank, i, j); }
  }

  lemma DistinctWithoutOne(b: seq<Row>, i: nat)
    requires DistinctStarts(b) && i < |b|
    ensures DistinctStarts(b[..i] + b[i + 1..])
  {
    var rest := b[..i] + b[i + 1..];
    assert forall k :: 0 <= k < |rest| ==> rest[k] == b[if k < i then k else k + 1];
  }

  lemma WithoutOne(b: seq<Row>, i: nat, rest: seq<Row>)
    requires DistinctStarts(b) && i < |b| && rest == b[..i] + b[i + 1..]
    ensures DistinctStarts(rest) && multiset(b) == multiset{b[i]} + multiset(rest)
    ensures forall u :: u in b && u != b[i] ==> u in rest
  {
    hide DistinctStarts;
    DistinctWithoutOne(b, i);
    assert b == b[..i] + [b[i]] + b[i + 1..];
    forall u | u in b && u != b[i] ensures u in rest {
      assert u in b[..i] || u in b[i + 1..];
    }
  }

  lemma {:induction false} SameSizeSameRows(a: seq<Row>, b: seq<Row>)
    requires DistinctStarts(a) && DistinctStarts(b) && |a| == |b|
    requires forall t <- a :: t in b
    ensures multiset(a) == multiset(b)
    decreases |a|
  {
    if a != [] {
      var t := a[0];
      assert t in b;
      var i :| 0 <= i < |b| && b[i] == t;
      var rest := b[..i] + b[i + 1..];
      WithoutOne(a, 0, a[1..]);
      WithoutOne(b, i, rest);
      forall u | u in a[1..] ensures u in rest {
        assert u in a && u.rootBefore != t.rootBefore;
      }
      SameSizeSameRows(a[1..], rest);
    }
  }

  /** Two transitions, one of them a loop: the walk succeeds by repeating it and loses the other. */
  lemma CyclicRootsLoseTransitions(a: Row, b: Row)
    requires RootsPresent([a, b])
    requires a.rootAfter == a.rootBefore != b.rootBefore
    ensures Ordered(a.rootBefore, [a, b], []) == Success([a, a])
    ensures multiset([a, a]) != multiset([a, b])
  {
    hide RootsPresent, Walk, IndexAll;
    IndexAllExactly([a, b]);
    var m := IndexAll([a, b]).value;
    assert [a, b] + [] == [a, b] && a in [a, b] && |m| == 2;
    WalkLoops(m, a);
    assert multiset([a, a])[a] == 2 && multiset([a, b])[a] == 1;
  }

  lemma WalkLoops(m: map<string, Row>, a: Row)
    requires a.rootBefore in m && m[a.rootBefore] == a && a.rootAfter == a.rootBefore
    ensures Walk(m, a.rootBefore, 2) == Success([a, a])
  {
    var root := a.rootBefore;
    assert Walk(m, root, 0) == Success([]);
    assert [a] + [] == [a];
    assert Walk(m, root, 1) == Success([a]);
    assert [a] + [a] == [a, a];
  }

  // ------------------------------------------------------- one withdrawal per batch

  /**
   * Length of the longest prefix with at most one withdrawal: it ends at the first withdrawal,
   * and only there can it be shorter than the list.
   */
  function BoundLength(ts: seq<Row>): (n: nat)
    ensures n <= |ts| && (ts != [] ==> n > 0)
    ensures forall i :: 0 <= i < n - 1 ==> ts[i].DepositRow?
    ensures n < |ts| ==> ts[n - 1].WithdrawalRow?
  {
    if ts == [] then 0 else if ts[0].WithdrawalRow? then 1 else 1 + BoundLength(ts[1..])
  }

  method BoundSingleWithdrawalPrefix(ordered: seq<Row>) returns (bounded: seq<Row>)
    ensures bounded == ordered[..BoundLength(ordered)]
  {
    for i := 0 to |ordered|
      invariant forall j :: 0 <= j < i ==> ordered[j].DepositRow?
    {
      if ordered[i].WithdrawalRow? {
        return ordered[..i + 1];
      }
    }
    return ordered;
  }
}
