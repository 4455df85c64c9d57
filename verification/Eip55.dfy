/** Addresses with the checksum of EIP-55, for any hash (dependencies/siwe/src/lib.rs). */
module Eip55 {
  import opened Order
  import opened Decimal

  type Bytes = s: seq<nat> | forall i :: 0 <= i < |s| ==> s[i] < 256 witness []

  /** Keccak-256 in the original: any function to 32 bytes will do. */
  type Hasher = f: string -> Bytes | forall s :: |f(s)| == 32 witness (s => seq(32, i => 0))

  function Lower(c: char): char {
    if 'A' <= c <= 'Z' then ('a' as int + (c as int - 'A' as int)) as char else c
  }

  function Upper(c: char): char {
    if 'a' <= c <= 'z' then ('A' as int + (c as int - 'a' as int)) as char else c
  }

  function LowerAll(s: string): (r: string)
    ensures |r| == |s| && forall i :: 0 <= i < |s| ==> r[i] == Lower(s[i])
  {
    seq(|s|, i requires 0 <= i < |s| => Lower(s[i]))
  }

  /** `hex::encode`. */
  function HexText(a: Bytes): (r: string)
    ensures |r| == 2 * |a|
    ensures forall i :: 0 <= i < |r| ==> r[i] == HexDigit(if i % 2 == 0 then a[i / 2] / 16 else a[i / 2] % 16)
  {
    seq(2 * |a|, i requires 0 <= i < 2 * |a| => HexDigit(if i % 2 == 0 then a[i / 2] / 16 else a[i / 2] % 16))
  }

  /** `from_hex` into a fixed number of bytes; either letter case will do. */
  function HexBytes(s: string, n: nat): (r: Option<Bytes>)
    ensures r.Some? <==> |s| == 2 * n && forall i :: 0 <= i < |s| ==> IsHex(s[i])
    ensures r.Some? ==> |r.value| == n && forall i :: 0 <= i < n ==>
            r.value[i] == 16 * HexValue(s[2 * i]) + HexValue(s[2 * i + 1])
  {
    if |s| == 2 * n && forall i :: 0 <= i < |s| ==> IsHex(s[i]) then
      Some(seq(n, i requires 0 <= i < n => 16 * HexValue(s[2 * i]) + HexValue(s[2 * i + 1])))
    else None
  }

  predicate CheckByte(hash: Bytes, i: nat)
    requires |hash| == 32 && i < 64
  {
    (if i % 2 == 0 then hash[i / 2] / 128 % 2 else hash[i / 2] / 8 % 2) == 1
  }

  function Encode(h: Hasher, a: Bytes): (r: string)
    requires |a| == 20
    ensures |r| == 40
  {
    var text := HexText(a);
    var hash := h(LowerAll(text));
    seq(40, i requires 0 <= i < 40 => if IsLowerHex(text[i]) && CheckByte(hash, i) then Upper(text[i]) else text[i])
  }

  /** Every letter has the case the hash asks for. */
  predicate Checksummed(h: Hasher, s: string)
    requires |s| == 40
  {
    var hash := h(LowerAll(s));
    forall i :: 0 <= i < 40 ==>
      || IsDigit(s[i])
      || (IsLowerHex(s[i]) && !CheckByte(hash, i))
      || (IsUpperHex(s[i]) && CheckByte(hash, i))
  }

  function Decode(h: Hasher, s: string): (r: Option<Bytes>)
    ensures r.Some? ==> |r.value| == 20
  {
    if |s| != 40 || !Checksummed(h, s) then None else HexBytes(s, 20)
  }

  lemma HexDigits(d: nat)
    requires d < 16
    ensures IsHex(HexDigit(d)) && HexValue(HexDigit(d)) == d && Lower(HexDigit(d)) == HexDigit(d)
    ensures !IsUpperHex(HexDigit(d))
    ensures IsLowerHex(HexDigit(d)) ==>
            var c := Upper(HexDigit(d)); IsUpperHex(c) && Lower(c) == HexDigit(d) && HexValue(c) == d
  {
  }

  lemma EncodedAt(h: Hasher, a: Bytes, i: nat)
    requires |a| == 20 && i < 40
    ensures var d := if i % 2 == 0 then a[i / 2] / 16 else a[i / 2] % 16;
            IsHex(Encode(h, a)[i]) && HexValue(Encode(h, a)[i]) == d && Lower(Encode(h, a)[i]) == HexDigit(d)
  {
    HexDigits(if i % 2 == 0 then a[i / 2] / 16 else a[i / 2] % 16);
  }

  lemma EncodedLower(h: Hasher, a: Bytes)
    requires |a| == 20
    ensures LowerAll(Encode(h, a)) == HexText(a) == LowerAll(HexText(a))
  {
    forall i | 0 <= i < 40 ensures Lower(Encode(h, a)[i]) == HexText(a)[i] == Lower(HexText(a)[i]) {
      EncodedAt(h, a, i);
      HexDigits(if i % 2 == 0 then a[i / 2] / 16 else a[i / 2] % 16);
    }
  }

  lemma EncodedChecks(h: Hasher, a: Bytes)
    requires |a| == 20
    ensures Checksummed(h, Encode(h, a))
  {
    EncodedLower(h, a);
    forall i | 0 <= i < 40
      ensures var c, b := Encode(h, a)[i], CheckByte(h(HexText(a)), i);
              IsDigit(c) || (IsLowerHex(c) && !b) || (IsUpperHex(c) && b)
    {
      HexDigits(if i % 2 == 0 then a[i / 2] / 16 else a[i / 2] % 16);
    }
  }

  lemma EncodedPair(h: Hasher, a: Bytes, i: nat)
    requires |a| == 20 && i < 20
    ensures var s := Encode(h, a);
            IsHex(s[2 * i]) && IsHex(s[2 * i + 1]) && 16 * HexValue(s[2 * i]) + HexValue(s[2 * i + 1]) == a[i]
  {
    hide Encode, HexValue, HexDigit, IsHex;
    EncodedAt(h, a, 2 * i);
    EncodedAt(h, a, 2 * i + 1);
  }

  lemma HexBytesAre(s: string, a: Bytes)
    requires |a| == 20 && |s| == 40 && forall i :: 0 <= i < 40 ==> IsHex(s[i])
    requires forall i :: 0 <= i < 20 ==> 16 * HexValue(s[2 * i]) + HexValue(s[2 * i + 1]) == a[i]
    ensures HexBytes(s, 20) == Some(a)
  {
    hide IsHex, HexValue;
    assert HexBytes(s, 20).value == a;
  }

  /** Decoding undoes encoding. */
  lemma DecodeEncode(h: Hasher, a: Bytes)
    requires |a| == 20
    ensures Decode(h, Encode(h, a)) == Some(a)
  {
    EncodedChecks(h, a);
    hide Encode, HexValue, IsHex, Checksummed, HexBytes;
    var s := Encode(h, a);
    forall i | 0 <= i < 40 ensures IsHex(s[i]) {
      EncodedAt(h, a, i);
    }
    forall i | 0 <= i < 20 ensures 16 * HexValue(s[2 * i]) + HexValue(s[2 * i + 1]) == a[i] {
      EncodedPair(h, a, i);
    }
    HexBytesAre(s, a);
  }

  lemma HexBack(c: char)
    requires IsHex(c)
    ensures HexDigit(HexValue(c)) == Lower(c) && (IsUpperHex(c) ==> Upper(Lower(c)) == c && IsLowerHex(Lower(c)))
    ensures !IsUpperHex(c) ==> Lower(c) == c
  {
  }

  lemma DecodedAt(s: string, a: Bytes, i: nat)
    requires HexBytes(s, 20) == Some(a) && i < 40
    ensures HexText(a)[i] == Lower(s[i]) == Lower(Lower(s[i]))
  {
    HexBack(s[i]);
    hide HexValue, HexDigit, Lower, IsHex;
    var k := i / 2;
    Nibbles(HexValue(s[2 * k]), HexValue(s[2 * k + 1]));
  }

  lemma Nibbles(x: nat, y: nat)
    requires x < 16 && y < 16
    ensures (16 * x + y) / 16 == x && (16 * x + y) % 16 == y
  {
  }

  lemma DecodedLower(h: Hasher, s: string)
    requires Decode(h, s).Some?
    ensures HexText(Decode(h, s).value) == LowerAll(s) == LowerAll(LowerAll(s))
  {
    hide Checksummed;
    var a := Decode(h, s).value;
    forall i | 0 <= i < 40 ensures HexText(a)[i] == Lower(s[i]) == Lower(Lower(s[i])) {
      DecodedAt(s, a, i);
    }
    assert HexText(a) == LowerAll(s);
  }

  /** Encoding undoes decoding, so an address has exactly one accepted text. */
  lemma EncodeDecode(h: Hasher, s: string)
    requires Decode(h, s).Some?
    ensures Encode(h, Decode(h, s).value) == s
  {
    var a := Decode(h, s).value;
    DecodedLower(h, s);
    var r := Encode(h, a);
    forall i | 0 <= i < 40 ensures r[i] == s[i] {
      HexBack(s[i]);
    }
    assert r == s;
  }

  /**
   EIP-55 in its own words: a character is upper case exactly when it is a letter and the hexadecimal
   digit of the hash at its place, of the hash of the lower-case text, is at least 8.
   */
  lemma ChecksumCase(h: Hasher, a: Bytes, i: nat)
    requires |a| == 20 && i < 40
    ensures var digit := if i % 2 == 0 then a[i / 2] / 16 else a[i / 2] % 16;
            var byte := h(HexText(a))[i / 2];
            var nibble := if i % 2 == 0 then byte / 16 else byte % 16;
            'A' <= Encode(h, a)[i] <= 'F' <==> digit >= 10 && nibble >= 8
  {
    EncodedLower(h, a);
    CheckByteIs(h(HexText(a)), i);
    HexDigits(if i % 2 == 0 then a[i / 2] / 16 else a[i / 2] % 16);
    hide CheckByte;
  }

  lemma CheckByteIs(hash: Bytes, i: nat)
    requires |hash| == 32 && i < 64
    ensures CheckByte(hash, i) <==> (if i % 2 == 0 then hash[i / 2] / 16 else hash[i / 2] % 16) >= 8
  {
    var x := hash[i / 2];
    assert x < 256;
  }
}
