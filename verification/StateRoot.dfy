/** The sorted account list and the state root computed from it. */
module StateRoot {
  import opened Text
  import opened Types
  import opened CanonicalJson
  import opened Hashing

  /** The account table: every entry is stored under its own trimmed (owner, denom). */
  type Accounts = m: map<Key, Account> | Keyed(m)

  ghost predicate Keyed(m: map<Key, Account>) {
    forall k <- m :: k.Valid() && KeyOf(m[k]) == k
  }

  ghost predicate Sorted(s: seq<Account>) {
    forall i, j :: 0 <= i < j < |s| ==> KeyLess(KeyOf(s[i]), KeyOf(s[j]))
  }

  /** `s` is the account table `m` written in key order. */
  ghost predicate Lists(s: seq<Account>, m: Accounts) {
    && Sorted(s)
    && (forall a <- s :: KeyOf(a) in m && m[KeyOf(a)] == a)
    && (forall k <- m :: m[k] in s)
  }

  function Inserted(s: seq<Account>, a: Account): (t: seq<Account>)
    ensures forall b :: b in t <==> b in s || b == a
  {
    if s == [] || KeyLess(KeyOf(a), KeyOf(s[0])) then [a] + s
    else
      assert s == [s[0]] + s[1..];
      [s[0]] + Inserted(s[1..], a)
  }

  lemma {:induction false} InsertedSorted(s: seq<Account>, a: Account)
    requires Sorted(s) && forall b <- s :: KeyOf(b) != KeyOf(a)
    ensures Sorted(Inserted(s, a))
  {
    if s != [] {
      if KeyLess(KeyOf(a), KeyOf(s[0])) {
        forall j | 0 <= j < |s| ensures KeyLess(KeyOf(a), KeyOf(s[j])) {
          if j > 0 { KeyLessTransitive(KeyOf(a), KeyOf(s[0]), KeyOf(s[j])); }
        }
      } else {
        KeyLessTotal(KeyOf(a), KeyOf(s[0]));
        InsertedSorted(s[1..], a);
        var t := Inserted(s[1..], a);
        forall j | 0 <= j < |t| ensures KeyLess(KeyOf(s[0]), KeyOf(t[j])) {
          assert t[j] in t;
          assert t[j] == a || t[j] in s[1..];
        }
      }
    }
  }

  lemma InsertedLists(s: seq<Account>, m: Accounts, k: Key)
    requires k in m && Lists(s, m - {k})
    ensures Lists(Inserted(s, m[k]), m)
  {
    InsertedSorted(s, m[k]);
    forall l | l in m ensures m[l] in Inserted(s, m[k]) {
      assert l == k || (m - {k})[l] in s;
    }
  }

  lemma {:induction false} ListingExists(m: Accounts)
    ensures exists s :: Lists(s, m)
    decreases |m|
  {
    if m == map[] {
      assert Lists([], m);
    } else {
      var k :| k in m;
      ListingExists(m - {k});
      var s :| Lists(s, m - {k});
      InsertedLists(s, m, k);
    }
  }

  lemma Listed(s: seq<Account>, m: Accounts, a: Account)
    requires Lists(s, m)
    ensures a in s <==> KeyOf(a) in m && m[KeyOf(a)] == a
  {
  }

  lemma HeadLeast(s: seq<Account>, a: Account)
    requires Sorted(s) && a in s
    ensures a == s[0] || KeyLess(KeyOf(s[0]), KeyOf(a))
  {
  }

  lemma TailLists(s: seq<Account>, m: Accounts)
    requires s != [] && Lists(s, m)
    ensures Lists(s[1..], m - {KeyOf(s[0])})
  {
    forall a | a in s[1..] ensures KeyOf(a) != KeyOf(s[0]) {
      KeyLessIrreflexive(KeyOf(s[0]));
    }
    forall k | k in m && k != KeyOf(s[0]) ensures m[k] in s[1..] {
      assert m[k] in s && KeyOf(m[k]) == k;
    }
  }

  lemma HeadsEqual(s: seq<Account>, t: seq<Account>, m: Accounts)
    requires Lists(s, m) && Lists(t, m) && s != []
    ensures t != [] && s[0] == t[0]
  {
    Listed(s, m, s[0]);
    Listed(t, m, s[0]);
    Listed(t, m, t[0]);
    Listed(s, m, t[0]);
    HeadLeast(s, t[0]);
    HeadLeast(t, s[0]);
    if s[0] != t[0] {
      KeyLessTransitive(KeyOf(s[0]), KeyOf(t[0]), KeyOf(s[0]));
      KeyLessIrreflexive(KeyOf(s[0]));
    }
  }

  /** Two sorted lists of the same table are the same list. */
  lemma {:induction false} ListingUnique(s: seq<Account>, t: seq<Account>, m: Accounts)
    requires Lists(s, m) && Lists(t, m)
    ensures s == t
    decreases |s|
  {
    hide Lists, Sorted, KeyOf;
    if s != [] {
      HeadsEqual(s, t, m);
      TailLists(s, m);
      TailLists(t, m);
      ListingUnique(s[1..], t[1..], m - {KeyOf(s[0])});
      assert s == [s[0]] + s[1..] && t == [t[0]] + t[1..];
    } else if t != [] {
      HeadsEqual(t, s, m);
      assert false;
    }
  }

  ghost function Listing(m: Accounts): (s: seq<Account>)
    ensures Lists(s, m)
  {
    ListingExists(m);
    var s :| Lists(s, m);
    s
  }

  function ComputeRoot(accounts: seq<Account>): string {
    Sha256Hex(STATE_TAG + "|" + AccountListJson(accounts))
  }

  /** The root is a function of the account table alone. */
  ghost function RootOf(m: Accounts): string
  {
    ComputeRoot(Listing(m))
  }

  lemma ComputeRootInjective(s: seq<Account>, t: seq<Account>)
    requires ComputeRoot(s) == ComputeRoot(t)
    ensures s == t
  {
    hide AccountListJson;
    CancelPrefix(STATE_TAG + "|", AccountListJson(s), AccountListJson(t));
    AccountListJsonInjective(s, t);
  }

  /** Distinct account tables have distinct roots. */
  lemma RootInjective(m: Accounts, n: Accounts)
    requires RootOf(m) == RootOf(n)
    ensures m == n
  {
    hide ComputeRoot;
    var s, t := Listing(m), Listing(n);
    ComputeRootInjective(s, t);
    forall k | k in m ensures k in n && m[k] == n[k] { assert m[k] in s; }
    forall k | k in n ensures k in m { assert n[k] in t; }
  }

  /** The preimage for no account. */
  lemma EmptyRootText()
    ensures RootOf(map[]) == Sha256Hex("zkdex/state/v1|" + "[]")
  {
    NothingListed();
    ListsListing(map[]);
    hide Lists, AccountListJson, Listing;
    ListingUnique(Listing(map[]), [], map[]);
    NoAccountText();
    assert STATE_TAG + "|" == "zkdex/state/v1|";
  }

  /** The preimage for one account with plain text. */
  lemma RootText(a: Account)
    requires Plain(a.owner) && Plain(a.denom) && KeyOf(a).Valid()
    ensures RootOf(map[KeyOf(a) := a]) == Sha256Hex("zkdex/state/v1|" + ("[" + PlainText(a, "]")))
  {
    hide Lists, AccountListJson, AccountJson, PlainText, Plain, Listing;
    var m: Accounts := map[KeyOf(a) := a];
    OneListed(a);
    ListsListing(m);
    ListingUnique(Listing(m), [a], m);
    ListText(a, a);
    PlainAccount(a, "]");
    assert STATE_TAG + "|" == "zkdex/state/v1|";
  }

  lemma NothingListed()
    ensures Lists([], map[])
  {
  }

  lemma OneListed(a: Account)
    requires KeyOf(a).Valid()
    ensures Lists([a], map[KeyOf(a) := a])
  {
  }

  lemma ListsListing(m: Accounts)
    ensures Lists(Listing(m), m)
  {
  }

  /** In a sorted list owners never go back, and each owner's denoms go up. */
  lemma SortedByOwner(s: seq<Account>, i: nat, j: nat)
    requires Sorted(s) && i < j < |s|
    ensures !Less(s[j].owner, s[i].owner)
    ensures s[i].owner == s[j].owner ==> Less(s[i].denom, s[j].denom)
  {
    OwnersFirst(KeyOf(s[i]), KeyOf(s[j]));
    hide KeyLess;
  }
}
