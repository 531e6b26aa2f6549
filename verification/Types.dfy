/** The records the ledger exchanges with its callers. */
module Types {
  import opened Text

  /**
   * Balance and nonce are strings in the source, always the printed form of a natural number
   * (see Decimals.Decimal for the round trip); here they are that number.
   */
  datatype Account = Account(owner: string, denom: string, balance: nat, nonce: nat)

  datatype DepositRecord = DepositRecord(depositId: string, owner: string, denom: string, amount: string)

  datatype WithdrawRequest = WithdrawRequest(
    withdrawId: string, owner: string, denom: string, amount: string,
    destination: string, nonce: string, signature: string)

  /** accountKey: an owner and a denom, both trimmed and non-empty. */
  datatype Key = Key(owner: string, denom: string) {
    predicate Valid() {
      owner != "" && denom != "" && Trimmed(owner) && Trimmed(denom)
    }
  }

  function KeyOf(a: Account): Key { Key(a.owner, a.denom) }

  /** The order of sort.Slice in Snapshot: by owner, then by denom. */
  predicate KeyLess(k: Key, l: Key) {
    if k.owner == l.owner then Less(k.denom, l.denom) else Less(k.owner, l.owner)
  }

  /** Owners first: keys of one owner stay together, ordered by denom among themselves. */
  lemma OwnersFirst(k: Key, l: Key)
    ensures KeyLess(k, l) ==> !Less(l.owner, k.owner)
    ensures k.owner == l.owner ==> (KeyLess(k, l) <==> Less(k.denom, l.denom))
    ensures Less(k.owner, l.owner) ==> KeyLess(k, l)
  {
    LessIrreflexive(k.owner);
    LessTotal(k.owner, l.owner);
    if Less(k.owner, l.owner) && Less(l.owner, k.owner) {
      LessTransitive(k.owner, l.owner, k.owner);
    }
  }

  lemma KeyLessIrreflexive(k: Key)
    ensures !KeyLess(k, k)
  {
    LessIrreflexive(k.denom);
  }

  lemma KeyLessTransitive(k: Key, l: Key, m: Key)
    requires KeyLess(k, l) && KeyLess(l, m)
    ensures KeyLess(k, m)
  {
    if k.owner == l.owner == m.owner {
      LessTransitive(k.denom, l.denom, m.denom);
    } else if k.owner != l.owner && l.owner != m.owner {
      LessTransitive(k.owner, l.owner, m.owner);
      if k.owner == m.owner { LessIrreflexive(k.owner); }
    }
  }

  lemma KeyLessTotal(k: Key, l: Key)
    ensures k == l || KeyLess(k, l) || KeyLess(l, k)
  {
    LessTotal(k.owner, l.owner);
    LessTotal(k.denom, l.denom);
  }
}
