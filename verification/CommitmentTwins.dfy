/** Exactly which commitment tables share their preimage with another table. */
module CommitmentTwins {
  import opened Text
  import opened SettlementBuilders
  import opened Commitments

  predicate OfArity(rows: seq<seq<string>>, k: nat) { forall i :: 0 <= i < |rows| ==> |rows[i]| == k }

  /** Another table of the same arity with the same preimage. */
  predicate Twins(rows: seq<seq<string>>, other: seq<seq<string>>, k: nat) {
    OfArity(other, k) && other != rows && Entries(other) == Entries(rows)
  }

  predicate Holds(r: seq<string>, c: char) { exists j :: 0 <= j < |r| && c in r[j] }

  predicate HoldsBar(rows: seq<seq<string>>) { exists i :: 0 <= i < |rows| && Holds(rows[i], '|') }

  /** A ';' next to the boundary between two rows: in the last field of one or the first of the other. */
  predicate Touching(a: seq<string>, b: seq<string>) {
    a != [] && b != [] && (';' in a[|a| - 1] || ';' in b[0])
  }

  ghost predicate BlurredBoundary(rows: seq<seq<string>>) {
    exists i, j :: 0 <= i < j < |rows| && j == i + 1 && Touching(rows[i], rows[j])
  }

  /** Where the separators between fields or rows cannot be told from the fields. */
  ghost predicate Blurred(rows: seq<seq<string>>, k: nat) {
    (k >= 2 && HoldsBar(rows)) || BlurredBoundary(rows)
  }

  // -------------------------------------------------------------- the shape of an entry

  /** All fields but the last, each closed by a bar. */
  function Prefix(r: seq<string>): string {
    if |r| <= 1 then "" else r[0] + "|" + Prefix(r[1..])
  }

  /** What follows the first field. */
  function Rest(r: seq<string>): string { if r == [] then ";" else "|" + Entry(r) }

  lemma EntryHead(r: seq<string>)
    requires r != []
    ensures Entry(r) == r[0] + Rest(r[1..])
  {
  }

  lemma OneField(r: seq<string>)
    requires |r| == 1
    ensures Entry(r) == Prefix(r) + r[0] + ";"
  {
  }

  lemma MoreFields(r: seq<string>)
    requires |r| > 1
    ensures Entry(r) == r[0] + "|" + Entry(r[1..]) && Prefix(r) == r[0] + "|" + Prefix(r[1..])
  {
  }

  lemma Attach(x: string, p: string, l: string)
    ensures x + (p + l + ";") == (x + p) + l + ";"
  {
  }

  lemma {:induction false} EntryLast(r: seq<string>)
    requires r != []
    ensures Entry(r) == Prefix(r) + r[|r| - 1] + ";"
    decreases |r|
  {
    hide *;
    if |r| > 1 {
      EntryLast(r[1..]);
      assert r[1..][|r| - 2] == r[|r| - 1];
      MoreFields(r);
      Attach(r[0] + "|", Prefix(r[1..]), r[|r| - 1]);
    } else {
      OneField(r);
    }
  }

  lemma {:induction false} PrefixIgnoresLast(r: seq<string>, last: string)
    requires r != []
    ensures Prefix(r[|r| - 1 := last]) == Prefix(r)
  {
    if |r| > 1 {
      PrefixIgnoresLast(r[1..], last);
      assert r[|r| - 1 := last][1..] == r[1..][|r| - 2 := last];
    }
  }

  lemma EntryWithLast(r: seq<string>, last: string)
    requires r != []
    ensures Entry(r[|r| - 1 := last]) == Prefix(r) + last + ";"
  {
    EntryLast(r[|r| - 1 := last]);
    PrefixIgnoresLast(r, last);
  }

  lemma SplitAt(s: string, c: char) returns (x: string, y: string)
    requires c in s
    ensures s == x + [c] + y
  {
    var i :| 0 <= i < |s| && s[i] == c;
    x, y := s[..i], s[i + 1..];
  }

  lemma EntriesCons(r: seq<string>, rest: seq<seq<string>>)
    ensures Entries([r] + rest) == Entry(r) + Entries(rest)
  {
    hide Entry;
    assert ([r] + rest)[1..] == rest;
  }

  lemma {:induction false} EntriesConcat(a: seq<seq<string>>, b: seq<seq<string>>)
    ensures Entries(a + b) == Entries(a) + Entries(b)
    decreases |a|
  {
    if a == [] {
      assert a + b == b;
    } else {
      hide Entry, Entries;
      EntriesConcat(a[1..], b);
      assert a == [a[0]] + a[1..] && a + b == [a[0]] + (a[1..] + b);
      EntriesCons(a[0], a[1..]);
      EntriesCons(a[0], a[1..] + b);
      var e, x, y := Entry(a[0]), Entries(a[1..]), Entries(b);
      assert e + (x + y) == (e + x) + y;
    }
  }

  lemma EntriesOne(r: seq<string>)
    ensures Entries([r]) == Entry(r)
  {
    assert [r][1..] == [];
  }

  lemma EntriesAround(pre: seq<seq<string>>, mid: seq<seq<string>>, post: seq<seq<string>>)
    ensures Entries(pre + mid + post) == Entries(pre) + Entries(mid) + Entries(post)
  {
    EntriesConcat(pre + mid, post);
    EntriesConcat(pre, mid);
  }

  // -------------------------------------------------------------------- building twins

  lemma RestIs(r: seq<string>)
    requires r != []
    ensures Rest(r) == "|" + Entry(r)
  {
    hide Entry;
  }

  lemma Regroup(a: string, b: string, c: string, d: string)
    ensures a + (b + (c + d)) == (a + b + c) + d
  {
  }

  lemma FirstPair(r: seq<string>)
    requires |r| >= 2
    ensures Entry(r) == (r[0] + "|" + r[1]) + Rest(r[2..])
  {
    hide Entry, Rest;
    EntryHead(r);
    RestIs(r[1..]);
    EntryHead(r[1..]);
    assert r[1..][1..] == r[2..] && r[1..][0] == r[1];
    Regroup(r[0], "|", r[1], Rest(r[2..]));
  }

  /** Two neighbouring fields that read the same around their bar can be exchanged. */
  lemma {:induction false} ReplacePair(r: seq<string>, j: nat, u: string, v: string)
    requires j + 1 < |r| && r[j] + "|" + r[j + 1] == u + "|" + v
    ensures Entry(r[j := u][j + 1 := v]) == Entry(r)
    decreases j
  {
    hide Entry, Rest;
    var s := r[j := u][j + 1 := v];
    if j == 0 {
      FirstPair(r);
      FirstPair(s);
      assert s[2..] == r[2..];
    } else {
      EntryHead(r);
      EntryHead(s);
      RestIs(r[1..]);
      RestIs(s[1..]);
      assert s[1..] == r[1..][j - 1 := u][j := v];
      ReplacePair(r[1..], j - 1, u, v);
    }
  }

  /** A row of two or more fields with a bar in one of them reads like another row. */
  lemma BarMoves(r: seq<string>) returns (s: seq<string>)
    requires |r| >= 2 && Holds(r, '|')
    ensures |s| == |r| && s != r && Entry(s) == Entry(r)
  {
    var j: nat :| j < |r| && '|' in r[j];
    var x, y := SplitAt(r[j], '|');
    if j + 1 < |r| {
      var v := y + "|" + r[j + 1];
      assert r[j] + "|" + r[j + 1] == x + "|" + v;
      ReplacePair(r, j, x, v);
      s := r[j := x][j + 1 := v];
      assert |s[j]| < |r[j]|;
    } else {
      var u := r[j - 1] + "|" + x;
      assert r[j - 1] + "|" + r[j] == u + "|" + y;
      ReplacePair(r, j - 1, u, y);
      s := r[j - 1 := u][j := y];
      assert |s[j]| < |r[j]|;
    }
  }

  lemma BarTwin(rows: seq<seq<string>>, k: nat) returns (other: seq<seq<string>>)
    requires OfArity(rows, k) && k >= 2 && HoldsBar(rows)
    ensures |other| == |rows| && Twins(rows, other, k)
  {
    var i :| 0 <= i < |rows| && Holds(rows[i], '|');
    var s := BarMoves(rows[i]);
    other := rows[i := s];
    assert rows == rows[..i] + [rows[i]] + rows[i + 1..] && other == rows[..i] + [s] + rows[i + 1..];
    EntriesAround(rows[..i], [rows[i]], rows[i + 1..]);
    EntriesAround(rows[..i], [s], rows[i + 1..]);
    EntriesOne(rows[i]);
    EntriesOne(s);
    assert other[i] != rows[i];
  }

  lemma Embrace(p: string, l: string, h: string, q: string)
    ensures (p + l + ";") + (h + q) == p + (l + ";" + h) + q
  {
    assert (p + l + ";") + (h + q) == ((p + l + ";") + h) + q;
    assert (p + l + ";") + h == p + (l + ";" + h);
  }

  /** Two neighbouring rows whose touching fields read the same around the boundary can be exchanged. */
  lemma ReplaceBoundary(a: seq<string>, b: seq<string>, l: string, h: string)
    requires a != [] && b != [] && a[|a| - 1] + ";" + b[0] == l + ";" + h
    ensures Entry(a[|a| - 1 := l]) + Entry(b[0 := h]) == Entry(a) + Entry(b)
  {
    hide *;
    EntryLast(a);
    EntryWithLast(a, l);
    EntryHead(b);
    EntryHead(b[0 := h]);
    assert b[0 := h][1..] == b[1..];
    var p, q := Prefix(a), Rest(b[1..]);
    Embrace(p, a[|a| - 1], b[0], q);
    Embrace(p, l, h, q);
  }

  /** Another way to read the text around a boundary next to a ';'. */
  lemma BoundaryMoves(l: string, h: string) returns (m: string, g: string)
    requires ';' in l || ';' in h
    ensures m != l && l + ";" + h == m + ";" + g
  {
    if ';' in l {
      var x, y := SplitAt(l, ';');
      m, g := x, y + ";" + h;
    } else {
      var x, y := SplitAt(h, ';');
      m, g := l + ";" + x, y;
    }
    assert |m| != |l|;
  }

  lemma BoundaryTwin(rows: seq<seq<string>>, k: nat) returns (other: seq<seq<string>>)
    requires OfArity(rows, k) && k > 0 && BlurredBoundary(rows)
    ensures |other| == |rows| && Twins(rows, other, k)
  {
    hide Entry, Entries;
    var i, j :| 0 <= i < j < |rows| && j == i + 1 && Touching(rows[i], rows[j]);
    var a, b := rows[i], rows[j];
    var l, h := BoundaryMoves(a[k - 1], b[0]);
    ReplaceBoundary(a, b, l, h);
    var c, d := a[k - 1 := l], b[0 := h];
    other := rows[i := c][j := d];
    assert rows == rows[..i] + [a, b] + rows[j + 1..] && other == rows[..i] + [c, d] + rows[j + 1..];
    EntriesAround(rows[..i], [a, b], rows[j + 1..]);
    EntriesAround(rows[..i], [c, d], rows[j + 1..]);
    PairEntries(a, b);
    PairEntries(c, d);
    assert other[i][k - 1] == l;
  }

  lemma PairEntries(a: seq<string>, b: seq<string>)
    ensures Entries([a, b]) == Entry(a) + Entry(b)
  {
    assert [a, b] == [a] + [b];
    EntriesConcat([a], [b]);
    EntriesOne(a);
    EntriesOne(b);
  }

  /** Two rows read like one row whose last field swallows the second. */
  lemma MergedTwin(rows: seq<seq<string>>, k: nat) returns (other: seq<seq<string>>)
    requires OfArity(rows, k) && k > 0 && |rows| >= 2
    ensures |other| == |rows| - 1 && Twins(rows, other, k)
  {
    var a, b, post := rows[0], rows[1], rows[2..];
    EntryLast(a);
    EntryLast(b);
    var swallowed := a[k - 1] + ";" + (Prefix(b) + b[k - 1]);
    var merged := a[k - 1 := swallowed];
    EntryWithLast(a, swallowed);
    assert Entry(merged) == Entry(a) + Entry(b);
    other := [merged] + post;
    assert rows == [] + [a, b] + post && other == [] + [merged] + post;
    EntriesAround([], [a, b], post);
    EntriesAround([], [merged], post);
    PairEntries(a, b);
    EntriesOne(merged);
  }

  // ---------------------------------------------------------------- counting separators

  function FieldCount(r: seq<string>, c: char): nat {
    if r == [] then 0 else multiset(r[0])[c] + FieldCount(r[1..], c)
  }

  function TableCount(rows: seq<seq<string>>, c: char): nat {
    if rows == [] then 0 else FieldCount(rows[0], c) + TableCount(rows[1..], c)
  }

  lemma CountConcat(s: string, t: string, c: char)
    ensures multiset(s + t)[c] == multiset(s)[c] + multiset(t)[c]
  {
    assert multiset(s + t) == multiset(s) + multiset(t);
  }

  lemma {:induction false} FieldCountZero(r: seq<string>, c: char)
    ensures FieldCount(r, c) == 0 <==> !Holds(r, c)
  {
    if r != [] {
      FieldCountZero(r[1..], c);
      assert c in r[0] <==> multiset(r[0])[c] > 0;
      if Holds(r[1..], c) {
        var j :| 0 <= j < |r[1..]| && c in r[1..][j];
        assert c in r[j + 1];
      }
      if Holds(r, c) {
        var j :| 0 <= j < |r| && c in r[j];
        if j > 0 { assert r[1..][j - 1] == r[j]; }
      }
    }
  }

  predicate TableHolds(rows: seq<seq<string>>, c: char) { exists i :: 0 <= i < |rows| && Holds(rows[i], c) }

  lemma {:induction false} TableCountZero(rows: seq<seq<string>>, c: char)
    ensures TableCount(rows, c) == 0 <==> !TableHolds(rows, c)
  {
    hide Holds;
    if rows != [] {
      TableCountZero(rows[1..], c);
      FieldCountZero(rows[0], c);
      if TableHolds(rows[1..], c) {
        var i :| 0 <= i < |rows[1..]| && Holds(rows[1..][i], c);
        assert Holds(rows[i + 1], c);
      }
      if TableHolds(rows, c) {
        var i :| 0 <= i < |rows| && Holds(rows[i], c);
        if i > 0 { assert rows[1..][i - 1] == rows[i]; }
      }
    }
  }

  /** An entry holds one ';' and one bar fewer than fields, besides those in its fields. */
  lemma {:induction false} EntryCounts(r: seq<string>)
    requires r != []
    ensures multiset(Entry(r))['|'] == |r| - 1 + FieldCount(r, '|')
    ensures multiset(Entry(r))[';'] == 1 + FieldCount(r, ';')
  {
    if |r| == 1 {
      assert r[1..] == [];
      CountConcat(r[0], ";", '|');
      CountConcat(r[0], ";", ';');
    } else {
      EntryCounts(r[1..]);
      assert Entry(r) == r[0] + ("|" + Entry(r[1..]));
      CountConcat(r[0], "|" + Entry(r[1..]), '|');
      CountConcat("|", Entry(r[1..]), '|');
      CountConcat(r[0], "|" + Entry(r[1..]), ';');
      CountConcat("|", Entry(r[1..]), ';');
    }
  }

  lemma TableCountCons(r: seq<string>, rest: seq<seq<string>>, c: char)
    ensures TableCount([r] + rest, c) == FieldCount(r, c) + TableCount(rest, c)
    ensures TableCount([], c) == 0
  {
    hide FieldCount;
    assert ([r] + rest)[1..] == rest;
  }

  lemma OneMoreRow(n: nat, m: nat)
    ensures (n + 1) * m == n * m + m
  {
  }

  lemma NoRows(c: char)
    ensures multiset(Entries([]))[c] == 0 && TableCount([], c) == 0
  {
  }

  lemma ConsCounts(r: seq<string>, rest: seq<seq<string>>, c: char)
    ensures multiset(Entries([r] + rest))[c] == multiset(Entry(r))[c] + multiset(Entries(rest))[c]
    ensures TableCount([r] + rest, c) == FieldCount(r, c) + TableCount(rest, c)
  {
    hide *;
    EntriesCons(r, rest);
    CountConcat(Entry(r), Entries(rest), c);
    TableCountCons(r, rest, c);
  }

  lemma ArityTail(rows: seq<seq<string>>, k: nat)
    requires OfArity(rows, k) && rows != []
    ensures |rows[0]| == k && OfArity(rows[1..], k)
  {
    assert forall i :: 0 <= i < |rows[1..]| ==> rows[1..][i] == rows[i + 1];
  }

  lemma {:induction false} EntriesCounts(rows: seq<seq<string>>, k: nat)
    requires OfArity(rows, k) && k > 0
    ensures multiset(Entries(rows))['|'] == |rows| * (k - 1) + TableCount(rows, '|')
    ensures multiset(Entries(rows))[';'] == |rows| + TableCount(rows, ';')
    decreases |rows|
  {
    hide *;
    if rows == [] {
      NoRows('|');
      NoRows(';');
      OneMoreRow(0, 0);
    } else {
      var r, rest := rows[0], rows[1..];
      assert rows == [r] + rest;
      ArityTail(rows, k);
      EntriesCounts(rest, k);
      EntryCounts(r);
      ConsCounts(r, rest, '|');
      ConsCounts(r, rest, ';');
      OneMoreRow(|rest|, k - 1);
    }
  }

  lemma EntriesEmpty(rows: seq<seq<string>>, k: nat)
    requires OfArity(rows, k) && k > 0 && Entries(rows) == ""
    ensures rows == []
  {
    EntriesCounts(rows, k);
  }

  // -------------------------------------------------------------------- unique decoding

  /** Fields without bars are read off up to the last one. */
  lemma {:induction false} PeelFields(a: seq<string>, x: string, b: seq<string>, y: string)
    requires |a| == |b| > 0 && !Holds(a, '|') && !Holds(b, '|')
    requires Entry(a) + x == Entry(b) + y
    ensures a[..|a| - 1] == b[..|b| - 1]
    ensures a[|a| - 1] + ";" + x == b[|b| - 1] + ";" + y
  {
    if |a| == 1 {
      assert Entry(a) + x == a[0] + ";" + x && Entry(b) + y == b[0] + ";" + y;
    } else {
      assert Entry(a) + x == a[0] + ['|'] + (Entry(a[1..]) + x);
      assert Entry(b) + y == b[0] + ['|'] + (Entry(b[1..]) + y);
      assert '|' !in a[0] && '|' !in b[0];
      SplitFirst(a[0], Entry(a[1..]) + x, b[0], Entry(b[1..]) + y, '|');
      assert forall j :: 0 <= j < |a| - 1 ==> a[1..][j] == a[j + 1] && b[1..][j] == b[j + 1];
      PeelFields(a[1..], x, b[1..], y);
      assert a[..|a| - 1] == [a[0]] + a[1..][..|a| - 2] && b[..|b| - 1] == [b[0]] + b[1..][..|b| - 2];
    }
  }

  /** Around a boundary with no ';' in the first reading, the second reading is the same. */
  lemma BoundaryRead(l: string, h: string, x: string, m: string, g: string, y: string)
    requires ';' !in l && ';' !in h && '|' !in l && '|' !in h && '|' !in m && '|' !in g
    requires l + ";" + (h + "|" + x) == m + ";" + (g + "|" + y)
    ensures l == m
  {
    var (p, q) := (l + ";" + h, m + ";" + g);
    assert p + ['|'] + x == l + ";" + (h + "|" + x) && q + ['|'] + y == m + ";" + (g + "|" + y);
    SplitFirst(p, x, q, y, '|');
    CountConcat(l + ";", h, ';');
    CountConcat(l, ";", ';');
    CountConcat(m + ";", g, ';');
    CountConcat(m, ";", ';');
    assert ';' !in m;
    SplitFirst(l, h, m, g, ';');
  }

  lemma TailsKeep(rows: seq<seq<string>>)
    requires rows != [] && !BlurredBoundary(rows)
    ensures !BlurredBoundary(rows[1..])
    ensures |rows| > 1 ==> !Touching(rows[0], rows[1])
  {
    hide Touching;
    assert forall i :: 0 <= i < |rows[1..]| ==> rows[1..][i] == rows[i + 1];
  }

  lemma DropLastChar(s: string, t: string)
    requires s + ";" == t + ";"
    ensures s == t
  {
    assert s == (s + ";")[..|s + ";"| - 1] && t == (t + ";")[..|t + ";"| - 1];
  }

  /** A table with two columns or more starts with its first field and a bar. */
  lemma FirstFieldOf(rows: seq<seq<string>>)
    requires rows != [] && |rows[0]| >= 2
    ensures Entries(rows) == rows[0][0] + "|" + (Entry(rows[0][1..]) + Entries(rows[1..]))
  {
    hide *;
    EntryHead(rows[0]);
    RestIs(rows[0][1..]);
    assert rows == [rows[0]] + rows[1..];
    EntriesCons(rows[0], rows[1..]);
    var f, e, x := rows[0][0], Entry(rows[0][1..]), Entries(rows[1..]);
    assert (f + ("|" + e)) + x == f + "|" + (e + x);
  }

  /** The last field of the first row is read off where no ';' blurs the boundary behind it. */
  lemma LastFieldRead(a: seq<seq<string>>, b: seq<seq<string>>, k: nat)
    requires OfArity(a, k) && OfArity(b, k) && k >= 2 && |a| == |b| > 0
    requires !HoldsBar(a) && !HoldsBar(b) && !BlurredBoundary(a)
    requires a[0][k - 1] + ";" + Entries(a[1..]) == b[0][k - 1] + ";" + Entries(b[1..])
    ensures a[0][k - 1] == b[0][k - 1]
  {
    hide Prefix, BlurredBoundary;
    var (l, m) := (a[0][k - 1], b[0][k - 1]);
    if |a| == 1 {
      assert a[1..] == [] && b[1..] == [];
      assert l + ";" + "" == l + ";" && m + ";" + "" == m + ";";
      DropLastChar(l, m);
    } else {
      TailsKeep(a);
      assert !Holds(a[0], '|') && !Holds(b[0], '|') && !Holds(a[1], '|') && !Holds(b[1], '|');
      var (h, g) := (a[1][0], b[1][0]);
      assert a[1..][0] == a[1] && b[1..][0] == b[1];
      var x, y := Entry(a[1][1..]) + Entries(a[1..][1..]), Entry(b[1][1..]) + Entries(b[1..][1..]);
      FirstFieldOf(a[1..]);
      FirstFieldOf(b[1..]);
      BoundaryRead(l, h, x, m, g, y);
    }
  }

  /** Tables without bars and blurred boundaries are read off row by row. */
  lemma {:induction false} BarlessDecode(a: seq<seq<string>>, b: seq<seq<string>>, k: nat)
    requires OfArity(a, k) && OfArity(b, k) && k >= 2 && |a| == |b|
    requires !HoldsBar(a) && !HoldsBar(b) && !BlurredBoundary(a)
    requires Entries(a) == Entries(b)
    ensures a == b
    decreases |a|
  {
    hide Entry, BlurredBoundary, Holds;
    if a != [] {
      assert !Holds(a[0], '|') && !Holds(b[0], '|');
      PeelFields(a[0], Entries(a[1..]), b[0], Entries(b[1..]));
      LastFieldRead(a, b, k);
      assert a[0] == a[0][..k - 1] + [a[0][k - 1]] && b[0] == b[0][..k - 1] + [b[0][k - 1]];
      TailsKeep(a);
      BarlessTail(a);
      BarlessTail(b);
      CancelFront(Entry(a[0]), Entries(a[1..]), Entries(b[1..]));
      assert forall i :: 0 <= i < |b[1..]| ==> b[1..][i] == b[i + 1];
      BarlessDecode(a[1..], b[1..], k);
      assert a == [a[0]] + a[1..] && b == [b[0]] + b[1..];
    }
  }

  lemma BarlessTail(rows: seq<seq<string>>)
    requires rows != [] && !HoldsBar(rows)
    ensures !HoldsBar(rows[1..])
  {
    hide Holds;
    assert forall i :: 0 <= i < |rows[1..]| ==> rows[1..][i] == rows[i + 1];
  }

  lemma CancelFront(p: string, x: string, y: string)
    requires p + x == p + y
    ensures x == y
  {
    assert x == (p + x)[|p|..] && y == (p + y)[|p|..];
  }

  /** Single fields without ';' are read off one by one. */
  lemma {:induction false} SemilessDecode(a: seq<seq<string>>, b: seq<seq<string>>)
    requires OfArity(a, 1) && OfArity(b, 1) && |a| == |b| && Entries(a) == Entries(b)
    requires !TableHolds(a, ';') && !TableHolds(b, ';')
    ensures a == b
    decreases |a|
  {
    if a != [] {
      assert !Holds(a[0], ';') && !Holds(b[0], ';');
      assert ';' !in a[0][0] && ';' !in b[0][0];
      assert Entries(a) == a[0][0] + [';'] + Entries(a[1..]) && Entries(b) == b[0][0] + [';'] + Entries(b[1..]);
      SplitFirst(a[0][0], Entries(a[1..]), b[0][0], Entries(b[1..]), ';');
      assert forall i :: 0 <= i < |a| - 1 ==> a[1..][i] == a[i + 1] && b[1..][i] == b[i + 1];
      SemilessDecode(a[1..], b[1..]);
      assert a[0] == [a[0][0]] && b[0] == [b[0][0]];
      assert a == [a[0]] + a[1..] && b == [b[0]] + b[1..];
    }
  }

  // ------------------------------------------------------------------------ the theorems

  lemma ClearUnique(rows: seq<seq<string>>, other: seq<seq<string>>, k: nat)
    requires OfArity(rows, k) && k >= 2 && !Blurred(rows, k)
    requires OfArity(other, k) && |other| == |rows| && Entries(other) == Entries(rows)
    ensures other == rows
  {
    hide HoldsBar, BlurredBoundary, Holds;
    EntriesCounts(rows, k);
    EntriesCounts(other, k);
    TableCountZero(rows, '|');
    TableCountZero(other, '|');
    BarIsHeld(rows);
    BarIsHeld(other);
    BarlessDecode(rows, other, k);
  }

  lemma BarIsHeld(rows: seq<seq<string>>)
    ensures HoldsBar(rows) <==> TableHolds(rows, '|')
  {
    hide Holds;
  }

  lemma ClearColumn(rows: seq<seq<string>>)
    requires OfArity(rows, 1) && |rows| >= 2 && !BlurredBoundary(rows)
    ensures !TableHolds(rows, ';')
  {
    forall i | 0 <= i < |rows| ensures !Holds(rows[i], ';') {
      if i + 1 < |rows| {
        var j := i + 1;
        assert !Touching(rows[i], rows[j]);
      } else {
        var h := i - 1;
        assert !Touching(rows[h], rows[i]);
      }
    }
  }

  lemma ColumnOfOne(rows: seq<seq<string>>)
    requires OfArity(rows, 1) && |rows| == 1
    ensures |rows[0]| == 1 && rows == [[rows[0][0]]] && Entries(rows) == rows[0][0] + ";"
  {
    assert rows[0] == [rows[0][0]] && rows[1..] == [];
  }

  lemma ClearColumnUnique(rows: seq<seq<string>>, other: seq<seq<string>>)
    requires OfArity(rows, 1) && !BlurredBoundary(rows)
    requires OfArity(other, 1) && |other| == |rows| && Entries(other) == Entries(rows)
    ensures other == rows
  {
    if |rows| >= 2 {
      hide BlurredBoundary, Holds, Entry;
      ClearColumn(rows);
      EntriesCounts(rows, 1);
      EntriesCounts(other, 1);
      TableCountZero(rows, ';');
      TableCountZero(other, ';');
      SemilessDecode(rows, other);
    } else if |rows| == 1 {
      ColumnOfOne(rows);
      ColumnOfOne(other);
      DropLastChar(rows[0][0], other[0][0]);
    }
  }

  /**
   * Among tables of the same arity and length, a table shares its preimage with another one if and
   * only if a field holds a bar, in tables of two columns or more, or a ';' stands in a last field
   * with a successor or in a first field with a predecessor.
   */
  lemma TwinOfSameSizeExactly(rows: seq<seq<string>>, k: nat)
    requires OfArity(rows, k) && k > 0
    ensures (exists other :: |other| == |rows| && Twins(rows, other, k)) <==> Blurred(rows, k)
  {
    if Blurred(rows, k) {
      if k >= 2 && HoldsBar(rows) { var other := BarTwin(rows, k); } else { var other := BoundaryTwin(rows, k); }
    } else {
      forall other | |other| == |rows| && OfArity(other, k) && Entries(other) == Entries(rows) ensures other == rows {
        if k >= 2 { ClearUnique(rows, other, k); } else { ClearColumnUnique(rows, other); }
      }
    }
  }

  /** Tables alone with their preimage: the empty one, and a single row without its own separator. */
  predicate Alone(rows: seq<seq<string>>, k: nat) {
    rows == [] || (|rows| == 1 && !Holds(rows[0], if k == 1 then ';' else '|'))
  }

  lemma SingleRowUnique(rows: seq<seq<string>>, other: seq<seq<string>>, k: nat)
    requires OfArity(rows, k) && k > 0 && |rows| == 1 && Alone(rows, k)
    requires OfArity(other, k) && Entries(other) == Entries(rows)
    ensures other == rows
  {
    hide Holds, Entry, BlurredBoundary;
    EntriesCounts(rows, k);
    EntriesCounts(other, k);
    SingleCounts(rows, k);
    if k == 1 {
      NoBoundary(rows);
      ClearColumnUnique(rows, other);
    } else {
      AtMostOne(|other|, k - 1, TableCount(other, '|'));
      NoBoundary(rows);
      NoBarSingle(rows);
      ClearUnique(rows, other, k);
    }
  }

  lemma SingleCounts(rows: seq<seq<string>>, k: nat)
    requires |rows| == 1 && Alone(rows, k)
    ensures TableCount(rows, if k == 1 then ';' else '|') == 0
  {
    hide Holds;
    var c := if k == 1 then ';' else '|';
    TableCountZero(rows, c);
  }

  lemma AtMostOne(n: nat, m: nat, extra: nat)
    requires m > 0 && n * m + extra == m && (n == 0 ==> extra == 0)
    ensures n == 1
  {
    assert n >= 2 ==> n * m == 2 * m + (n - 2) * m;
  }

  lemma NoBoundary(rows: seq<seq<string>>)
    requires |rows| <= 1
    ensures !BlurredBoundary(rows)
  {
  }

  lemma NoBarSingle(rows: seq<seq<string>>)
    requires |rows| == 1 && !Holds(rows[0], '|')
    ensures !HoldsBar(rows)
  {
  }

  lemma ColumnTwin(rows: seq<seq<string>>) returns (other: seq<seq<string>>)
    requires OfArity(rows, 1) && |rows| == 1 && Holds(rows[0], ';')
    ensures Twins(rows, other, 1)
  {
    ColumnOfOne(rows);
    var x, y := SplitAt(rows[0][0], ';');
    other := [[x], [y]];
    PairEntries([x], [y]);
    assert Entry([x]) + Entry([y]) == x + ";" + (y + ";") == rows[0][0] + ";";
  }

  /**
   * Among all tables of its arity, a table is the only one with its preimage if and only if it is
   * empty, or one row that does not hold the separator that could split it.
   */
  lemma TwinExactly(rows: seq<seq<string>>, k: nat)
    requires OfArity(rows, k) && k > 0
    ensures (exists other :: Twins(rows, other, k)) <==> !Alone(rows, k)
  {
    hide Twins, Entries;
    if !Alone(rows, k) {
      if |rows| >= 2 {
        var other := MergedTwin(rows, k);
      } else if k == 1 {
        var other := ColumnTwin(rows);
      } else {
        var other := BarTwin(rows, k);
      }
    } else {
      forall other | Twins(rows, other, k) ensures false { AloneHasNoTwin(rows, other, k); }
    }
  }

  lemma AloneHasNoTwin(rows: seq<seq<string>>, other: seq<seq<string>>, k: nat)
    requires OfArity(rows, k) && k > 0 && Alone(rows, k)
    ensures !Twins(rows, other, k)
  {
    if Twins(rows, other, k) {
      if rows == [] { EntriesEmpty(other, k); } else { SingleRowUnique(rows, other, k); }
      assert false;
    }
  }

  // ------------------------------------------------------------- deposits and withdrawals

  function DepositOf(r: seq<string>): SettlementDeposit
    requires |r| == 4
  {
    SettlementDeposit(r[0], r[1], r[2], r[3])
  }

  function WithdrawalOf(r: seq<string>): SettlementWithdrawal
    requires |r| == 7
  {
    SettlementWithdrawal(r[0], r[1], r[2], r[3], r[4], r[5], r[6])
  }

  lemma DepositTable(other: seq<seq<string>>) returns (items: seq<SettlementDeposit>)
    requires OfArity(other, 4)
    ensures |items| == |other| && Table(items, DepositFields) == other
  {
    items := seq(|other|, i requires 0 <= i < |other| => DepositOf(other[i]));
    forall i | 0 <= i < |other| ensures DepositFields(items[i]) == other[i] {}
  }

  lemma WithdrawalTable(other: seq<seq<string>>) returns (items: seq<SettlementWithdrawal>)
    requires OfArity(other, 7)
    ensures |items| == |other| && Table(items, WithdrawalFields) == other
  {
    items := seq(|other|, i requires 0 <= i < |other| => WithdrawalOf(other[i]));
    forall i | 0 <= i < |other| ensures WithdrawalFields(items[i]) == other[i] {}
  }

  /** The deposits root binds a list of deposits, among those of its length, exactly when its table is not blurred. */
  lemma DepositsSharedExactly(ds: seq<SettlementDeposit>)
    ensures OfArity(Table(ds, DepositFields), 4)
    ensures (exists es: seq<SettlementDeposit> :: |es| == |ds| && es != ds &&
               Preimage(DEPOSITS_TAG, Table(es, DepositFields)) == Preimage(DEPOSITS_TAG, Table(ds, DepositFields)))
            <==> Blurred(Table(ds, DepositFields), 4)
  {
    hide Blurred, Entries;
    var rows := Table(ds, DepositFields);
    TableArities(ds, []);
    TwinOfSameSizeExactly(rows, 4);
    if Blurred(rows, 4) {
      var other :| |other| == |rows| && Twins(rows, other, 4);
      var es := DepositTable(other);
      assert es != ds;
    }
    forall es: seq<SettlementDeposit> | |es| == |ds| && es != ds &&
        Preimage(DEPOSITS_TAG, Table(es, DepositFields)) == Preimage(DEPOSITS_TAG, rows)
      ensures Blurred(rows, 4)
    {
      SamePreimage(DEPOSITS_TAG, Table(es, DepositFields), rows);
      if Table(es, DepositFields) == rows { DepositTablesEqual(es, ds); }
      TableArities(es, []);
      assert Twins(rows, Table(es, DepositFields), 4);
    }
  }

  lemma TableArities(ds: seq<SettlementDeposit>, ws: seq<SettlementWithdrawal>)
    ensures OfArity(Table(ds, DepositFields), 4) && OfArity(Table(ws, WithdrawalFields), 7)
  {
    forall i | 0 <= i < |ds| ensures |Table(ds, DepositFields)[i]| == 4 { assert |DepositFields(ds[i])| == 4; }
    forall i | 0 <= i < |ws| ensures |Table(ws, WithdrawalFields)[i]| == 7 { assert |WithdrawalFields(ws[i])| == 7; }
  }

  lemma SamePreimage(tag: string, a: seq<seq<string>>, b: seq<seq<string>>)
    requires Preimage(tag, a) == Preimage(tag, b)
    ensures Entries(a) == Entries(b)
  {
    hide Entries;
    CancelFront(tag + "|", Entries(a), Entries(b));
  }

  lemma DepositTablesEqual(a: seq<SettlementDeposit>, b: seq<SettlementDeposit>)
    requires Table(a, DepositFields) == Table(b, DepositFields)
    ensures a == b
  {
    forall x, y | DepositFields(x) == DepositFields(y) ensures x == y { DepositFieldsInjective(x, y); }
    TablesEqual(a, b, DepositFields);
  }

  lemma WithdrawalTablesEqual(a: seq<SettlementWithdrawal>, b: seq<SettlementWithdrawal>)
    requires Table(a, WithdrawalFields) == Table(b, WithdrawalFields)
    ensures a == b
  {
    forall x, y | WithdrawalFields(x) == WithdrawalFields(y) ensures x == y { WithdrawalFieldsInjective(x, y); }
    TablesEqual(a, b, WithdrawalFields);
  }

  /** The same for the withdrawals root. */
  lemma WithdrawalsSharedExactly(ws: seq<SettlementWithdrawal>)
    ensures OfArity(Table(ws, WithdrawalFields), 7)
    ensures (exists vs: seq<SettlementWithdrawal> :: |vs| == |ws| && vs != ws &&
               Preimage(WITHDRAWALS_TAG, Table(vs, WithdrawalFields)) ==
                 Preimage(WITHDRAWALS_TAG, Table(ws, WithdrawalFields)))
            <==> Blurred(Table(ws, WithdrawalFields), 7)
  {
    hide Blurred, Entries;
    var rows := Table(ws, WithdrawalFields);
    TableArities([], ws);
    TwinOfSameSizeExactly(rows, 7);
    if Blurred(rows, 7) {
      var other :| |other| == |rows| && Twins(rows, other, 7);
      var vs := WithdrawalTable(other);
      assert vs != ws;
    }
    forall vs: seq<SettlementWithdrawal> | |vs| == |ws| && vs != ws &&
        Preimage(WITHDRAWALS_TAG, Table(vs, WithdrawalFields)) == Preimage(WITHDRAWALS_TAG, rows)
      ensures Blurred(rows, 7)
    {
      SamePreimage(WITHDRAWALS_TAG, Table(vs, WithdrawalFields), rows);
      if Table(vs, WithdrawalFields) == rows { WithdrawalTablesEqual(vs, ws); }
      TableArities([], vs);
      assert Twins(rows, Table(vs, WithdrawalFields), 7);
    }
  }
}
