/** What the other modules share: options, and the character classes of the ASCII formats. */
module Common {
  datatype Option<+T> = None | Some(value: T)

  function Max(a: nat, b: nat): nat {
    if a < b then b else a
  }

  predicate IsDigit(c: char) { '0' <= c <= '9' }

  predicate IsHex(c: char) { IsDigit(c) || 'a' <= c <= 'f' || 'A' <= c <= 'F' }

  function HexValue(c: char): (n: nat)
    requires IsHex(c)
    ensures n < 16
  {
    if IsDigit(c) then c as nat - '0' as nat
    else if 'a' <= c then c as nat - 'a' as nat + 10
    else c as nat - 'A' as nat + 10
  }

  function HexDigit(n: nat, upper: bool): char
    requires n < 16
  {
    if n < 10 then '0' + n as char else if upper then 'A' + (n - 10) as char else 'a' + (n - 10) as char
  }

  lemma HexDigitRead(n: nat, upper: bool)
    requires n < 16
    ensures IsHex(HexDigit(n, upper)) && HexValue(HexDigit(n, upper)) == n
  {
  }

  lemma HexDigitLiteral(n: nat)
    requires n < 16
    ensures HexDigit(n, false) == "0123456789abcdef"[n] && HexDigit(n, true) == "0123456789ABCDEF"[n]
  {
  }

  lemma HexValueRead(c: char)
    requires IsHex(c)
    ensures c == HexDigit(HexValue(c), false) || c == HexDigit(HexValue(c), true)
  {
  }

  lemma HexClassLiteral(c: char)
    ensures IsDigit(c) <==> c in "0123456789"
    ensures IsHex(c) <==> c in "0123456789abcdefABCDEF"
  {
    if 'a' <= c <= 'f' { assert c == "0123456789abcdefABCDEF"[c as int - 87]; }
    if 'A' <= c <= 'F' { assert c == "0123456789abcdefABCDEF"[c as int - 49]; }
  }

  /** The hex digits and their values, read off. */
  lemma HexExactly(c: char)
    ensures IsDigit(c) <==> c in "0123456789"
    ensures IsHex(c) <==> c in "0123456789abcdefABCDEF"
    ensures IsHex(c) ==> c == "0123456789abcdef"[HexValue(c)] || c == "0123456789ABCDEF"[HexValue(c)]
  {
    HexClassLiteral(c);
    if IsHex(c) {
      HexValueRead(c);
      HexDigitLiteral(HexValue(c));
    }
  }

  /** The length of the longest run of digits that starts `s`. */
  function DigitRun(s: string): (n: nat)
    ensures n <= |s| && (forall i | 0 <= i < n :: IsDigit(s[i])) && (n < |s| ==> !IsDigit(s[n]))
  {
    if s != "" && IsDigit(s[0]) then 1 + DigitRun(s[1..]) else 0
  }
}
