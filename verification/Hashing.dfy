/** The hash, the nullifier and the destination hash, over explicit preimages. */
module Hashing {
  import opened Wrappers
  import opened Text
  import opened Decimals

  const HEX_PREFIX := "0x"

  /**
   * What the model uses of SHA-256: digests are collision-free, "0x"-prefixed, non-empty
   * behind the prefix, and carry no outer white space.
   */
  ghost predicate IdealDigest(h: string -> string) {
    && (forall a, b :: h(a) == h(b) ==> a == b)
    && (forall a :: HEX_PREFIX <= h(a) && |h(a)| > |HEX_PREFIX| && Trimmed(h(a)))
  }

  type Digest = h: string -> string | IdealDigest(h) witness (TaggingIsIdeal(); Tagging)

  function Tagging(s: string): string { HEX_PREFIX + s + "0" }

  lemma TaggingIsIdeal()
    ensures IdealDigest(Tagging)
  {
    forall a, b | Tagging(a) == Tagging(b) ensures a == b {
      assert a == Tagging(a)[2..|a| + 2] && b == Tagging(b)[2..|b| + 2];
    }
  }

  /** hash.SHA256Hex: any one ideal digest function. */
  const Sha256Hex: Digest

  predicate HexPrefixed(s: string) { HEX_PREFIX <= s }

  const NULLIFIER_TAG := "zkdex/nullifier/v0"
  const WITHDRAW_ADDRESS_TAG := "zkdex/withdrawAddr/v0"
  const STATE_TAG := "zkdex/state/v1"

  function NullifierPreimage(secret: string, nonce: nat): string {
    NULLIFIER_TAG + "|" + secret + "|" + Decimal(nonce)
  }

  function NullifierFor(userSecret: string, nonce: string): Result<string> {
    if Blank(userSecret) then Failure(InvalidNullifierInput) else
      match ParseNonNegative(nonce)
      case Failure(_) => Failure(InvalidNullifierInput)
      case Success(n) => Success(Sha256Hex(NullifierPreimage(Trim(userSecret), n)))
  }

  function WithdrawAddressHash(destination: string): Result<string> {
    if Blank(destination) then Failure(InvalidWithdrawAddress)
    else Success(Sha256Hex(WITHDRAW_ADDRESS_TAG + "|" + Trim(destination)))
  }

  lemma DigitsHoldNoBar(n: nat)
    ensures '|' !in Decimal(n)
  {
    assert forall i :: 0 <= i < |Decimal(n)| ==> IsDigit(Decimal(n)[i]);
  }

  lemma NullifierPreimageInjective(s: string, m: nat, t: string, n: nat)
    requires NullifierPreimage(s, m) == NullifierPreimage(t, n)
    ensures s == t && m == n
  {
    DigitsHoldNoBar(m);
    DigitsHoldNoBar(n);
    var (a, b) := (NULLIFIER_TAG + "|" + s, NULLIFIER_TAG + "|" + t);
    assert NullifierPreimage(s, m) == a + ['|'] + Decimal(m) && NullifierPreimage(t, n) == b + ['|'] + Decimal(n);
    SplitLast(a, Decimal(m), b, Decimal(n), '|');
    assert s == a[|NULLIFIER_TAG| + 1..] && t == b[|NULLIFIER_TAG| + 1..];
    assert Value(Decimal(m)) == m && Value(Decimal(n)) == n;
  }

  /**
   * Two nullifiers are equal exactly when the trimmed secrets and the numeric nonces are, even if
   * the secrets hold the separator: "01" and "1" agree, ("a|1", 1) and ("a", 1) do not.
   */
  lemma NullifiersEqualExactly(s: string, m: string, t: string, n: string)
    requires NullifierFor(s, m).Success? && NullifierFor(t, n).Success?
    ensures NullifierFor(s, m) == NullifierFor(t, n) <==> Trim(s) == Trim(t) && Value(m) == Value(n)
  {
    hide Trim, ParseNonNegative, NullifierPreimage;
    if NullifierFor(s, m) == NullifierFor(t, n) {
      NullifierPreimageInjective(Trim(s), Value(m), Trim(t), Value(n));
    }
  }

  /** The two preimages, written out. */
  lemma PreimageText(secret: string, n: nat, destination: string)
    ensures !Blank(secret) ==>
              NullifierFor(secret, Decimal(n)) ==
              Success(Sha256Hex("zkdex/nullifier/v0|" + Trim(secret) + "|" + Decimal(n)))
    ensures !Blank(destination) ==>
              WithdrawAddressHash(destination) == Success(Sha256Hex("zkdex/withdrawAddr/v0|" + Trim(destination)))
  {
    assert ParseNonNegative(Decimal(n)) == Success(n);
    hide Trim, ParseNonNegative, Decimal;
    assert NULLIFIER_TAG + "|" + Trim(secret) + "|" + Decimal(n) ==
           "zkdex/nullifier/v0|" + Trim(secret) + "|" + Decimal(n);
    assert WITHDRAW_ADDRESS_TAG + "|" == "zkdex/withdrawAddr/v0|";
  }

  /** When there is a nullifier, and when there is a destination hash. */
  lemma DerivedExactly(secret: string, nonce: string, destination: string)
    ensures NullifierFor(secret, nonce).Success? <==> !Blank(secret) && ParseNonNegative(nonce).Success?
    ensures NullifierFor(secret, nonce).Failure? ==> NullifierFor(secret, nonce) == Failure(InvalidNullifierInput)
    ensures WithdrawAddressHash(destination).Success? <==> !Blank(destination)
    ensures WithdrawAddressHash(destination).Failure? ==>
              WithdrawAddressHash(destination) == Failure(InvalidWithdrawAddress)
  {
    hide Trim, ParseNonNegative;
  }
}
