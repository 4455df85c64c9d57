/** The CACAO payload of a sign-in message (dependencies/cacao/src/siwe_cacao.rs). */
module Cacao {
  import opened Order
  import opened Decimal
  import opened Splitting
  import opened Siwe
  import Eip55

  datatype Payload = Payload(
    scheme: Option<string>,
    domain: string,
    iss: string,
    statement: Option<string>,
    aud: string,
    nonce: string,
    iat: string,
    exp: Option<string>,
    nbf: Option<string>,
    requestId: Option<string>,
    resources: Option<seq<string>>)

  function IssParts(chain: string, address: string): seq<string> {
    ["did", "pkh", "eip155", chain, "0x" + address]
  }

  function FromMessage(h: Eip55.Hasher, m: Message): Payload
    requires |m.address| == 20
  {
    Payload(m.scheme, m.domain, Join(IssParts(NatText(m.chainId), Eip55.Encode(h, m.address)), ':'), m.statement, m.uri,
            m.nonce, m.issuedAt, m.expirationTime, m.notBefore, m.requestId, if m.resources == [] then None
              else Some(m.resources))
  }

  /** The chain and address named by `did:pkh:eip155:<chain>:0x<hex>`. */
  function ParseIss(iss: string): Option<(nat, Eip55.Bytes)> {
    var parts := Split(iss, ':');
    if |parts| == 5 && parts[..3] == ["did", "pkh", "eip155"] && HasPrefix(parts[4], "0x")
       && ParseU64(parts[3]).Some? && Eip55.HexBytes(parts[4][2..], 20).Some?
    then Some((ParseU64(parts[3]).value, Eip55.HexBytes(parts[4][2..], 20).value))
    else None
  }

  function ToMessage(p: Payload): Option<Message> {
    match ParseIss(p.iss)
    case None => None
    case Some((chain, address)) =>
      Some(Message(p.scheme, p.domain, address, p.statement, p.aud, chain, p.nonce, p.iat, p.exp, p.nbf, p.requestId,
                   match p.resources case None => [] case Some(rs) => rs))
  }

  lemma {:induction false} PartsFree(h: Eip55.Hasher, n: nat, a: Eip55.Bytes)
    requires |a| == 20
    ensures forall i :: 0 <= i < 5 ==> Free(':', IssParts(NatText(n), Eip55.Encode(h, a))[i])
  {
    var s := Eip55.Encode(h, a);
    forall i | 0 <= i < 40 ensures s[i] != ':' {
      Eip55.EncodedAt(h, a, i);
    }
    hide Eip55.Encode;
    hide NatText;
    assert Free(':', "0x" + s) && Free(':', "did") && Free(':', "pkh") && Free(':', "eip155") && Free(':', NatText(n));
  }

  lemma {:induction false} IssReads(h: Eip55.Hasher, n: nat, a: Eip55.Bytes)
    requires |a| == 20 && n < U64_END
    ensures ParseIss(Join(IssParts(NatText(n), Eip55.Encode(h, a)), ':')) == Some((n, a))
  {
    var s := Eip55.Encode(h, a);
    var parts := IssParts(NatText(n), s);
    PartsFree(h, n, a);
    SplitJoin(parts, ':');
    U64Reads(n);
    assert parts[4][..2] == "0x" && parts[4][2..] == s;
    assert parts[..3] == ["did", "pkh", "eip155"];
    Eip55.DecodeEncode(h, a);
  }

  /** A message survives the payload. */
  lemma MessageRoundTrip(h: Eip55.Hasher, m: Message)
    requires |m.address| == 20 && m.chainId < U64_END
    ensures ToMessage(FromMessage(h, m)) == Some(m)
  {
    IssReads(h, m.chainId, m.address);
  }

  /** Decimal digits without a sign or needless zeros. */
  predicate PlainNumber(s: string) {
    s != [] && AllDigits(s) && (|s| == 1 || s[0] != '0')
  }

  lemma {:induction false} PlainText(s: string)
    requires PlainNumber(s)
    ensures NatText(NatValue(s)) == s && (NatValue(s) == 0 ==> s == "0")
  {
    var last := |s| - 1;
    if last == 0 {
      assert s[..0] == [] && s == [s[0]];
    } else {
      PlainText(s[..last]);
      assert s == s[..last] + [s[last]];
    }
  }

  lemma {:induction false} TextPlain(n: nat)
    ensures PlainNumber(NatText(n)) && (n > 0 ==> NatText(n)[0] != '0')
  {
    if n >= 10 {
      TextPlain(n / 10);
    }
  }

  /** The issuer spells its chain and address the one way the conversion prints them. */
  predicate CanonicalIss(h: Eip55.Hasher, iss: string)
    requires ParseIss(iss).Some?
  {
    var parts := Split(iss, ':');
    PlainNumber(parts[3]) && Eip55.Decode(h, parts[4][2..]).Some?
  }

  lemma CanonicalPrints(h: Eip55.Hasher, iss: string)
    requires ParseIss(iss).Some? && CanonicalIss(h, iss)
    ensures var (n, a) := ParseIss(iss).value; Join(IssParts(NatText(n), Eip55.Encode(h, a)), ':') == iss
  {
    hide Join, Split, NatText;
    hide Eip55.Encode;
    hide Eip55.Checksummed;
    var (n, a) := ParseIss(iss).value;
    var parts := Split(iss, ':');
    JoinSplit(iss, ':');
    PlainText(parts[3]);
    assert n == NatValue(parts[3]) && NatText(n) == parts[3];
    Eip55.EncodeDecode(h, parts[4][2..]);
    assert parts[0] == parts[..3][0] && parts[1] == parts[..3][1] && parts[2] == parts[..3][2];
    assert parts[4] == "0x" + parts[4][2..];
    assert parts == IssParts(NatText(n), Eip55.Encode(h, a));
  }

  lemma {:induction false} PrintedIsCanonical(h: Eip55.Hasher, iss: string, n: nat, a: Eip55.Bytes)
    requires |a| == 20 && ParseIss(iss).Some? && Join(IssParts(NatText(n), Eip55.Encode(h, a)), ':') == iss
    ensures CanonicalIss(h, iss)
  {
    PartsFree(h, n, a);
    TextPlain(n);
    Eip55.DecodeEncode(h, a);
    hide Join, Split, NatText, PlainNumber;
    hide Eip55.Encode;
    hide Eip55.Decode;
    var printed := IssParts(NatText(n), Eip55.Encode(h, a));
    SplitJoin(printed, ':');
    assert printed[4][2..] == Eip55.Encode(h, a);
  }

  lemma IssRoundTrip(h: Eip55.Hasher, iss: string)
    requires ParseIss(iss).Some?
    ensures var (n, a) := ParseIss(iss).value;
            Join(IssParts(NatText(n), Eip55.Encode(h, a)), ':') == iss <==> CanonicalIss(h, iss)
  {
    hide Join, Split, CanonicalIss;
    hide Eip55.Encode;
    var (n, a) := ParseIss(iss).value;
    if CanonicalIss(h, iss) {
      CanonicalPrints(h, iss);
    }
    if Join(IssParts(NatText(n), Eip55.Encode(h, a)), ':') == iss {
      PrintedIsCanonical(h, iss, n, a);
    }
  }

  /** A payload survives the message exactly when its issuer is canonical and its resources are not an empty list. */
  lemma PayloadRoundTrip(h: Eip55.Hasher, p: Payload)
    requires ToMessage(p).Some?
    ensures FromMessage(h, ToMessage(p).value) == p <==> CanonicalIss(h, p.iss) && p.resources != Some([])
  {
    IssRoundTrip(h, p.iss);
  }
}
