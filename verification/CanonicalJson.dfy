/**
 * encoding/json on a list of accounts, and its unique decodability.
 *
 * Every encoder takes the text that follows it, so that "no encoding is a prefix of another"
 * reads as injectivity in both arguments.
 */
module CanonicalJson {
  import opened Decimals
  import opened Types

  function HexDigit(d: nat): (c: char)
    requires d < 16
    ensures HexValue(c) == d
  {
    if d < 10 then ('0' as int + d) as char else ('a' as int + d - 10) as char
  }

  function HexValue(c: char): nat {
    if 'a' <= c <= 'f' then c as int - 'a' as int + 10
    else if '0' <= c <= '9' then c as int - '0' as int
    else 0
  }

  function Hex4(n: nat): string
    requires n < 0x10000
  {
    [HexDigit(n / 16 / 16 / 16), HexDigit(n / 16 / 16 % 16), HexDigit(n / 16 % 16), HexDigit(n % 16)]
  }

  /** The control characters, the HTML-sensitive characters and the two line separators. */
  predicate NeedsUnicodeEscape(c: char) {
    c as int < 0x20 || c in "<>&" || c as int == 0x2028 || c as int == 0x2029
  }

  function Escape(c: char): string {
    if c == '"' then "\\\""
    else if c == '\\' then "\\\\"
    else if c as int == 8 then "\\b"
    else if c as int == 12 then "\\f"
    else if c == '\n' then "\\n"
    else if c == '\r' then "\\r"
    else if c == '\t' then "\\t"
    else if NeedsUnicodeEscape(c) then "\\u" + Hex4(c as int)
    else [c]
  }

  /** Reads back the first escaped character: the character and the width of its escape. */
  function Unescape(s: string): (char, nat) {
    if |s| < 2 || s[0] != '\\' then (if s == "" then ' ' else s[0], 1)
    else if s[1] == 'b' then (8 as char, 2)
    else if s[1] == 'f' then (12 as char, 2)
    else if s[1] == 'n' then ('\n', 2)
    else if s[1] == 'r' then ('\r', 2)
    else if s[1] == 't' then ('\t', 2)
    else if s[1] != 'u' || |s| < 6 then (s[1], 2)
    else
      var n := ((HexValue(s[2]) * 16 + HexValue(s[3])) * 16 + HexValue(s[4])) * 16 + HexValue(s[5]);
      (if n < 0xD800 then n as char else ' ', 6)
  }

  lemma HexReadBack(n: nat, s: string)
    requires n < 0xD800 && |s| >= 6 && s[0] == '\\' && s[1] == 'u' && s[2..6] == Hex4(n)
    ensures Unescape(s) == (n as char, 6)
  {
    var a := n / 16;
    var b := a / 16;
    assert s[2] == Hex4(n)[0] && s[3] == Hex4(n)[1] && s[4] == Hex4(n)[2] && s[5] == Hex4(n)[3];
    hide HexDigit, HexValue;
    assert HexValue(s[2]) == b / 16 && HexValue(s[3]) == b % 16 && HexValue(s[4]) == a % 16 && HexValue(s[5]) == n % 16;
  }

  lemma UnescapeEscape(c: char, tail: string)
    ensures Unescape(Escape(c) + tail) == (c, |Escape(c)|)
  {
    var s := Escape(c) + tail;
    if |Escape(c)| == 6 {
      assert s[2..6] == Escape(c)[2..6] == Hex4(c as int);
      HexReadBack(c as int, s);
    } else {
      hide *;
      assert s[0] == Escape(c)[0];
    }
  }

  /** The characters of a string, its closing quote, and what follows. */
  function Chars(s: string, tail: string): (r: string)
    ensures r != ""
    ensures r[0] == '"' <==> s == ""
  {
    if s == "" then "\"" + tail else Escape(s[0]) + Chars(s[1..], tail)
  }

  lemma {:induction false} CharsInjective(a: string, x: string, b: string, y: string)
    requires Chars(a, x) == Chars(b, y)
    ensures a == b && x == y
  {
    if a == "" && b == "" {
      assert x == Chars(a, x)[1..] && y == Chars(b, y)[1..];
    } else {
      var u, v := Chars(a[1..], x), Chars(b[1..], y);
      UnescapeEscape(a[0], u);
      UnescapeEscape(b[0], v);
      assert u == Chars(a, x)[|Escape(a[0])|..] && v == Chars(b, y)[|Escape(b[0])|..];
      CharsInjective(a[1..], x, b[1..], y);
      assert a == [a[0]] + a[1..] && b == [b[0]] + b[1..];
    }
  }

  function AccountJson(a: Account, tail: string): (r: string)
    ensures r != "" && r[0] == '{'
  {
    "{\"owner\":\"" + Chars(a.owner,
    ",\"denom\":\"" + Chars(a.denom,
    ",\"balance\":\"" + Chars(Decimal(a.balance),
    ",\"nonce\":\"" + Chars(Decimal(a.nonce), "}" + tail))))
  }

  lemma CancelPrefix(p: string, x: string, y: string)
    requires p + x == p + y
    ensures x == y
  {
    assert x == (p + x)[|p|..] && y == (p + y)[|p|..];
  }

  lemma AccountJsonInjective(a: Account, x: string, b: Account, y: string)
    requires AccountJson(a, x) == AccountJson(b, y)
    ensures a == b && x == y
  {
    var (a3, b3) := (Chars(Decimal(a.nonce), "}" + x), Chars(Decimal(b.nonce), "}" + y));
    var (a2, b2) := (Chars(Decimal(a.balance), ",\"nonce\":\"" + a3), Chars(Decimal(b.balance), ",\"nonce\":\"" + b3));
    var (a1, b1) := (Chars(a.denom, ",\"balance\":\"" + a2), Chars(b.denom, ",\"balance\":\"" + b2));
    var (a0, b0) := (Chars(a.owner, ",\"denom\":\"" + a1), Chars(b.owner, ",\"denom\":\"" + b1));
    CancelPrefix("{\"owner\":\"", a0, b0);
    CharsInjective(a.owner, ",\"denom\":\"" + a1, b.owner, ",\"denom\":\"" + b1);
    CancelPrefix(",\"denom\":\"", a1, b1);
    CharsInjective(a.denom, ",\"balance\":\"" + a2, b.denom, ",\"balance\":\"" + b2);
    CancelPrefix(",\"balance\":\"", a2, b2);
    CharsInjective(Decimal(a.balance), ",\"nonce\":\"" + a3, Decimal(b.balance), ",\"nonce\":\"" + b3);
    CancelPrefix(",\"nonce\":\"", a3, b3);
    CharsInjective(Decimal(a.nonce), "}" + x, Decimal(b.nonce), "}" + y);
    CancelPrefix("}", x, y);
  }

  function Items(accounts: seq<Account>): (r: string)
    ensures r != ""
    ensures r[0] == ']' <==> accounts == []
  {
    if accounts == [] then "]"
    else AccountJson(accounts[0], if |accounts| == 1 then "]" else "," + Items(accounts[1..]))
  }

  /** json.Marshal of a non-nil account slice. */
  function AccountListJson(accounts: seq<Account>): string { "[" + Items(accounts) }

  lemma {:induction false} ItemsInjective(a: seq<Account>, b: seq<Account>)
    requires Items(a) == Items(b)
    ensures a == b
  {
    hide AccountJson, Chars, Escape;
    if a != [] {
      var x := if |a| == 1 then "]" else "," + Items(a[1..]);
      var y := if |b| == 1 then "]" else "," + Items(b[1..]);
      AccountJsonInjective(a[0], x, b[0], y);
      assert x[0] == y[0];
      if |a| > 1 {
        CancelPrefix(",", Items(a[1..]), Items(b[1..]));
        ItemsInjective(a[1..], b[1..]);
      }
      assert a == [a[0]] + a[1..] && b == [b[0]] + b[1..];
    }
  }

  lemma AccountListJsonInjective(a: seq<Account>, b: seq<Account>)
    requires AccountListJson(a) == AccountListJson(b)
    ensures a == b
  {
    CancelPrefix("[", Items(a), Items(b));
    ItemsInjective(a, b);
  }

  // ---------------------------------------------------------------- the text itself

  /** Characters that JSON writes as they are. */
  predicate Plain(s: string) { forall i :: 0 <= i < |s| ==> Escape(s[i]) == [s[i]] }

  lemma {:induction false} PlainChars(s: string, tail: string)
    requires Plain(s)
    ensures Chars(s, tail) == s + ("\"" + tail)
  {
    hide Escape;
    if s != "" {
      PlainChars(s[1..], tail);
      var end := "\"" + tail;
      assert [s[0]] + (s[1..] + end) == ([s[0]] + s[1..]) + end && [s[0]] + s[1..] == s;
    }
  }

  lemma DigitsArePlain(s: string)
    requires AllDigits(s)
    ensures Plain(s)
  {
  }

  /** An account with plain owner and denom, as it is written. */
  function PlainText(a: Account, tail: string): string {
    "{\"owner\":\"" + (a.owner + ("\"" +
    (",\"denom\":\"" + (a.denom + ("\"" +
    (",\"balance\":\"" + (Decimal(a.balance) + ("\"" +
    (",\"nonce\":\"" + (Decimal(a.nonce) + ("\"" + ("}" + tail))))))))))))
  }

  lemma PlainAccount(a: Account, tail: string)
    requires Plain(a.owner) && Plain(a.denom)
    ensures AccountJson(a, tail) == PlainText(a, tail)
  {
    hide Plain, Chars, Decimal;
    DigitsArePlain(Decimal(a.balance));
    DigitsArePlain(Decimal(a.nonce));
    var n := ",\"nonce\":\"" + Chars(Decimal(a.nonce), "}" + tail);
    PlainChars(Decimal(a.nonce), "}" + tail);
    var b := ",\"balance\":\"" + Chars(Decimal(a.balance), n);
    PlainChars(Decimal(a.balance), n);
    var d := ",\"denom\":\"" + Chars(a.denom, b);
    PlainChars(a.denom, b);
    PlainChars(a.owner, d);
  }

  /** The characters JSON does not write as they are. */
  lemma EscapedCharacters()
    ensures Escape('"') == "\\\"" && Escape('\\') == "\\\\"
    ensures Escape('\n') == "\\n" && Escape('\r') == "\\r" && Escape('\t') == "\\t"
    ensures Escape('<') == "\\u003c" && Escape('>') == "\\u003e" && Escape('&') == "\\u0026"
    ensures Escape(1 as char) == "\\u0001" && Escape(0x2028 as char) == "\\u2028" && Escape(0x2029 as char) == "\\u2029"
  {
  }

  lemma NoAccountText()
    ensures AccountListJson([]) == "[]"
  {
  }

  /** Accounts one after another between commas. */
  lemma ListText(a: Account, b: Account)
    ensures AccountListJson([a]) == "[" + AccountJson(a, "]")
    ensures AccountListJson([a, b]) == "[" + AccountJson(a, "," + AccountJson(b, "]"))
  {
    hide AccountJson;
    assert [a, b][1..] == [b];
    assert Items([b]) == AccountJson(b, "]");
    assert Items([a, b]) == AccountJson(a, "," + Items([b]));
  }
}
