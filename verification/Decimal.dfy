/** Decimal text of integers, and hexadecimal digits. */
module Decimal {
  import opened Order

  function DigitChar(d: nat): char
    requires d < 10
  {
    '0' + d as char
  }

  predicate IsDigit(c: char) {
    '0' <= c <= '9'
  }

  function DigitValue(c: char): nat
    requires IsDigit(c)
  {
    c as nat - '0' as nat
  }

  function NatText(n: nat): (r: string)
    ensures r != [] && forall i :: 0 <= i < |r| ==> IsDigit(r[i])
  {
    if n < 10 then [DigitChar(n)] else NatText(n / 10) + [DigitChar(n % 10)]
  }

  function NatValue(s: string): nat
    requires forall i :: 0 <= i < |s| ==> IsDigit(s[i])
  {
    if s == [] then 0 else NatValue(s[..|s| - 1]) * 10 + DigitValue(s[|s| - 1])
  }

  lemma {:induction false} NatRoundTrip(n: nat)
    ensures NatValue(NatText(n)) == n
  {
    if n >= 10 {
      var r := NatText(n);
      assert r[..|r| - 1] == NatText(n / 10);
      NatRoundTrip(n / 10);
    } else {
      assert [DigitChar(n)][..0] == [];
    }
  }

  function IntText(n: int): string {
    if n < 0 then "-" + NatText(-n) else NatText(n)
  }

  lemma IntTextInjective(m: int, n: int)
    requires IntText(m) == IntText(n)
    ensures m == n
  {
    NatRoundTrip(if m < 0 then -m else m);
    NatRoundTrip(if n < 0 then -n else n);
    if m < 0 && n < 0 {
      assert IntText(m)[1..] == NatText(-m) && IntText(n)[1..] == NatText(-n);
    } else {
      assert IntText(m)[0] == IntText(n)[0];
    }
  }

  predicate AllDigits(s: string) {
    forall i :: 0 <= i < |s| ==> IsDigit(s[i])
  }

  const U64_END: nat := 0x1_0000_0000_0000_0000

  /** `u64::from_str`: an optional plus sign and at least one digit, in range. */
  function ParseU64(s: string): Option<nat> {
    var t := if s != [] && s[0] == '+' then s[1..] else s;
    if t == [] || !AllDigits(t) || NatValue(t) >= U64_END then None else Some(NatValue(t))
  }

  lemma {:induction false} U64Reads(n: nat)
    requires n < U64_END
    ensures ParseU64(NatText(n)) == Some(n)
  {
    NatRoundTrip(n);
    assert IsDigit(NatText(n)[0]);
  }

  /** A plus sign changes nothing; two are refused. */
  lemma U64Signed(s: string)
    ensures ParseU64("+" + s) == if s != [] && s[0] == '+' then None else ParseU64(s)
  {
    assert ("+" + s)[1..] == s;
  }

  function HexDigit(d: nat): char
    requires d < 16
  {
    if d < 10 then '0' + d as char else 'a' + (d - 10) as char
  }

  predicate IsLowerHex(c: char) { 'a' <= c <= 'f' }
  predicate IsUpperHex(c: char) { 'A' <= c <= 'F' }
  predicate IsHex(c: char) { IsDigit(c) || IsLowerHex(c) || IsUpperHex(c) }

  function HexValue(c: char): (d: nat)
    requires IsHex(c)
    ensures d < 16
  {
    if IsDigit(c) then c as nat - '0' as nat
    else if IsLowerHex(c) then c as nat - 'a' as nat + 10
    else c as nat - 'A' as nat + 10
  }
}
