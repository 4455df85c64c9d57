/** DIDs and the principals they name (tinycloud-auth/src/identity.rs). */
module Identity {
  import opened Order
  import opened Decimal
  import opened Splitting
  import Eip55

  function CanonicalAddress(h: Eip55.Hasher, address: string): Option<string> {
    if !HasPrefix(address, "0x") then None
    else match Eip55.HexBytes(address[2..], 20)
      case None => None
      case Some(bytes) => Some("0x" + Eip55.Encode(h, bytes))
  }

  /** The loop that reads two digits a byte; stops at the first character that is no digit. */
  method CanonicalizeAddress(h: Eip55.Hasher, address: string) returns (r: Option<string>)
    ensures r == CanonicalAddress(h, address)
  {
    if !HasPrefix(address, "0x") || |address| != 42 {
      return None;
    }
    var raw := address[2..];
    var bytes := new nat[20](_ => 0);
    for k := 0 to 20
      invariant forall i :: 0 <= i < 2 * k ==> IsHex(raw[i])
      invariant forall i :: 0 <= i < k ==> bytes[i] == 16 * HexValue(raw[2 * i]) + HexValue(raw[2 * i + 1])
    {
      if !IsHex(raw[2 * k]) || !IsHex(raw[2 * k + 1]) {
        return None;
      }
      bytes[k] := 16 * HexValue(raw[2 * k]) + HexValue(raw[2 * k + 1]);
    }
    Eip55.HexBytesAre(raw, bytes[..]);
    r := Some("0x" + Eip55.Encode(h, bytes[..]));
  }

  datatype Pkh = NotPkh | BadPkh | Pkh(chain: nat, address: string)

  const PKH := "did:pkh:eip155:"

  function ParsePkh(h: Eip55.Hasher, did: string): Pkh {
    if !HasPrefix(did, PKH) then NotPkh
    else match SplitOnce(did[|PKH|..], ':')
      case None => BadPkh
      case Some((chain, address)) =>
        if !Free(':', address) || ParseU64(chain).None? || ParseU64(chain).value == 0 then BadPkh
        else match CanonicalAddress(h, address)
          case None => BadPkh
          case Some(a) => Pkh(ParseU64(chain).value, a)
  }

  function PkhText(chain: nat, address: string): string {
    PKH + (NatText(chain) + ":" + address)
  }

  function Canonicalize(h: Eip55.Hasher, did: string): Option<string> {
    match ParsePkh(h, did)
    case Pkh(chain, address) => Some(PkhText(chain, address))
    case BadPkh => None
    case NotPkh => if HasPrefix(did, "did:") && !Free(':', did[4..]) then Some(did) else None
  }

  function BeforeFragment(url: string): string {
    match SplitOnce(url, '#') case None => url case Some((did, _)) => did
  }

  function PrincipalDid(h: Eip55.Hasher, url: string): Option<string> {
    Canonicalize(h, BeforeFragment(url))
  }

  predicate PrincipalMatches(h: Eip55.Hasher, actual: string, expected: string) {
    match (PrincipalDid(h, actual), PrincipalDid(h, expected))
    case (Some(a), Some(b)) => a == b
    case _ => actual == expected
  }

  lemma CanonicalAddressAgain(h: Eip55.Hasher, address: string)
    requires CanonicalAddress(h, address).Some?
    ensures CanonicalAddress(h, CanonicalAddress(h, address).value) == CanonicalAddress(h, address)
    ensures forall c :: c in CanonicalAddress(h, address).value ==> c == 'x' || IsHex(c)
  {
    var bytes := Eip55.HexBytes(address[2..], 20).value;
    var text := Eip55.Encode(h, bytes);
    Eip55.DecodeEncode(h, bytes);
    forall i | 0 <= i < 40 ensures IsHex(text[i]) {
      Eip55.EncodedAt(h, bytes, i);
    }
    hide Eip55.Encode;
    hide Eip55.HexBytes;
    hide IsHex;
    PrefixedText(text);
  }

  lemma PrefixedText(text: string)
    requires forall i :: 0 <= i < |text| ==> IsHex(text[i])
    ensures HasPrefix("0x" + text, "0x") && ("0x" + text)[2..] == text
    ensures forall c :: c in "0x" + text ==> c == 'x' || IsHex(c)
  {
    assert ("0x" + text)[..2] == "0x";
  }

  lemma PkhAgain(h: Eip55.Hasher, chain: nat, address: string)
    requires 0 < chain < U64_END && CanonicalAddress(h, address) == Some(address) && Free(':', address)
    ensures ParsePkh(h, PkhText(chain, address)) == Pkh(chain, address)
  {
    hide CanonicalAddress;
    var rest := NatText(chain) + ":" + address;
    assert PkhText(chain, address)[..|PKH|] == PKH && PkhText(chain, address)[|PKH|..] == rest;
    assert Free(':', NatText(chain));
    SplitOnceIs(NatText(chain), address, ':');
    U64Reads(chain);
  }

  lemma PkhParts(h: Eip55.Hasher, did: string)
    requires ParsePkh(h, did).Pkh?
    ensures var Pkh(chain, address) := ParsePkh(h, did);
            && 0 < chain < U64_END && CanonicalAddress(h, address) == Some(address)
            && forall c :: c in address ==> c == 'x' || IsHex(c)
  {
    var (_, given) := SplitOnce(did[|PKH|..], ':').value;
    CanonicalAddressAgain(h, given);
    hide CanonicalAddress;
  }

  /** Canonical DIDs are left as they are. */
  lemma CanonicalizeIdempotent(h: Eip55.Hasher, did: string)
    requires Canonicalize(h, did).Some?
    ensures Canonicalize(h, Canonicalize(h, did).value) == Canonicalize(h, did)
    ensures HasPrefix(Canonicalize(h, did).value, "did:")
  {
    hide ParsePkh, CanonicalAddress, PkhText;
    if ParsePkh(h, did).Pkh? {
      var Pkh(chain, address) := ParsePkh(h, did);
      PkhParts(h, did);
      PkhAgain(h, chain, address);
      PkhStart(chain, address);
    }
  }

  lemma PkhStart(chain: nat, address: string)
    ensures HasPrefix(PkhText(chain, address), "did:")
  {
    assert PkhText(chain, address)[..4] == PKH[..4] == "did:";
  }

  /** Canonicalising brings in no separator of a URI. */
  lemma CanonicalFree(h: Eip55.Hasher, did: string, sep: char)
    requires Canonicalize(h, did).Some? && Free(sep, did) && (sep == '/' || sep == '?' || sep == '#')
    ensures Free(sep, Canonicalize(h, did).value)
  {
    hide ParsePkh, CanonicalAddress;
    if ParsePkh(h, did).Pkh? {
      var Pkh(chain, address) := ParsePkh(h, did);
      PkhParts(h, did);
      assert Free(sep, PKH) && Free(sep, NatText(chain)) && Free(sep, ":") && Free(sep, address);
    }
  }

  /** Matching principals is an equivalence. */
  lemma PrincipalMatchesEquivalence(h: Eip55.Hasher, a: string, b: string, c: string)
    ensures PrincipalMatches(h, a, a)
    ensures PrincipalMatches(h, a, b) ==> PrincipalMatches(h, b, a)
    ensures PrincipalMatches(h, a, b) && PrincipalMatches(h, b, c) ==> PrincipalMatches(h, a, c)
  {
  }

  /** A DID, its canonical form and that form with any fragment name one principal. */
  lemma SamePrincipal(h: Eip55.Hasher, did: string, fragment: string)
    requires Canonicalize(h, did).Some? && Free('#', did)
    ensures PrincipalMatches(h, did, Canonicalize(h, did).value)
    ensures PrincipalMatches(h, did, Canonicalize(h, did).value + "#" + fragment)
  {
    CanonicalizeIdempotent(h, did);
    CanonicalFree(h, did, '#');
    hide Canonicalize;
    var c := Canonicalize(h, did).value;
    SplitOnceIs(c, fragment, '#');
  }
}
