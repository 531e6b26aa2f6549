/** Base-10 amounts and nonces: big.Int.SetString and big.Int.String behind the two parsers. */
module Decimals {
  import opened Wrappers
  import opened Text

  predicate IsDigit(c: char) { '0' <= c <= '9' }

  predicate AllDigits(s: string) { forall i :: 0 <= i < |s| ==> IsDigit(s[i]) }

  function DigitsValue(s: string): nat
    requires AllDigits(s)
  {
    if s == "" then 0 else 10 * DigitsValue(s[..|s| - 1]) + (s[|s| - 1] as int - '0' as int)
  }

  /** parseNonNegativeAmount: surrounding space and one sign are allowed, "-0" included. */
  function ParseNonNegative(s: string): Result<nat> {
    var t := Trim(s);
    var signed := t != "" && (t[0] == '-' || t[0] == '+');
    var digits := if signed then t[1..] else t;
    if digits == "" || !AllDigits(digits) then
      Failure(InvalidAmount)
    else if signed && t[0] == '-' && DigitsValue(digits) > 0 then
      Failure(InvalidAmount)
    else
      Success(DigitsValue(digits))
  }

  /** parsePositiveAmount. */
  function ParsePositive(s: string): Result<nat> {
    var v :- ParseNonNegative(s);
    if v == 0 then Failure(AmountNotPositive) else Success(v)
  }

  /** big.Int.String for a non-negative value. Printing then parsing is the identity. */
  function Decimal(n: nat): (s: string)
    ensures s != "" && AllDigits(s) && DigitsValue(s) == n
    ensures Trimmed(s)
    ensures ParseNonNegative(s) == Success(n)
    ensures Value(s) == n
  {
    var d := [('0' as int + n % 10) as char];
    if n < 10 then d else
      var front := Decimal(n / 10);
      assert (front + d)[..|front + d| - 1] == front;
      front + d
  }

  /** The number a stored amount denotes; 0 for text that is not an amount. */
  function Value(s: string): (n: nat) {
    match ParseNonNegative(s)
    case Success(v) => v
    case Failure(_) => 0
  }

  /**
   * What parses, exactly: one optional sign before digits, outer white space aside; a minus only
   * before zero. The value is that of the digits.
   */
  lemma ParsesExactly(s: string, n: nat)
    ensures ParseNonNegative(s) == Success(n) <==> exists sign, digits :: Reads(Trim(s), sign, digits, n)
  {
    hide Reads, ParseNonNegative;
    if ParseNonNegative(s) == Success(n) { ParsedReads(s, n); }
    if sign, digits :| Reads(Trim(s), sign, digits, n) { ReadsParsed(s, sign, digits, n); }
  }

  lemma ParsedReads(s: string, n: nat)
    requires ParseNonNegative(s) == Success(n)
    ensures exists sign, digits :: Reads(Trim(s), sign, digits, n)
  {
    hide Trim, DigitsValue, AllDigits;
    var t := Trim(s);
    if t[0] == '-' || t[0] == '+' {
      assert t == [t[0]] + t[1..];
      assert Reads(t, [t[0]], t[1..], n);
    } else {
      assert t == "" + t;
      assert Reads(t, "", t, n);
    }
  }

  lemma ReadsParsed(s: string, sign: string, digits: string, n: nat)
    requires Reads(Trim(s), sign, digits, n)
    ensures ParseNonNegative(s) == Success(n)
  {
    hide Trim, DigitsValue;
    assert sign != "" ==> Trim(s)[1..] == digits;
    assert sign == "" ==> Trim(s) == digits && IsDigit(Trim(s)[0]);
  }

  predicate Reads(t: string, sign: string, digits: string, n: nat) {
    && sign in {"", "+", "-"} && digits != "" && AllDigits(digits) && DigitsValue(digits) == n
    && t == sign + digits && (sign == "-" ==> n == 0)
  }

  /** A number below zero never parses. */
  lemma NegativeNeverParses(digits: string)
    requires digits != "" && AllDigits(digits) && DigitsValue(digits) > 0
    ensures Trim("-" + digits) == "-" + digits && ParseNonNegative("-" + digits) == Failure(InvalidAmount)
  {
    var s := "-" + digits;
    assert s[1..] == digits && IsDigit(s[|s| - 1]) && Trimmed(s);
  }

  /** The usual notation: digits from the most significant one down, without leading zeros. */
  lemma DecimalNotation()
    ensures Decimal(0) == "0" && Decimal(7) == "7" && Decimal(105) == "105"
  {
    assert Decimal(10) == Decimal(1) + "0" && Decimal(105) == Decimal(10) + "5";
  }
}
