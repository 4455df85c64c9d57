/** Sign-in messages of EIP-4361: printing and parsing (dependencies/siwe/src/lib.rs). */
module Siwe {
  import opened Order
  import opened Unicode
  import opened Decimal
  import opened Splitting
  import Eip55

  const PREAMBLE := " wants you to sign" + " in with your" + " Ethereum account:"
  const ADDR_TAG := "0x"
  const URI_TAG := "URI: "
  const VERSION_TAG := "Version: "
  const CHAIN_TAG := "Chain ID: "
  const NONCE_TAG := "Nonce: "
  const IAT_TAG := "Issued At: "
  const EXP_TAG := "Expiration Time: "
  const NBF_TAG := "Not Before: "
  const RID_TAG := "Request ID: "
  const RES_TAG := "Resources:"

  /** Which texts the libraries for schemes, authorities, URIs and timestamps accept. */
  datatype Grammar = Grammar(scheme: string -> bool, authority: string -> bool, uri: string -> bool,
      time: string -> bool)

  /** What the accepted texts have in common with RFC 3986 and RFC 3339. */
  ghost predicate Lawful(g: Grammar) {
    && (forall s :: g.scheme(s) ==> Free(':', s) && Free('\n', s))
    && (forall s :: g.authority(s) ==> Free('/', s) && Free('\n', s))
    && (forall s :: g.uri(s) ==> Free('\n', s))
    && (forall s :: g.time(s) ==> Free('\n', s))
  }

  datatype Message = Message(
    scheme: Option<string>,
    domain: string,
    address: Eip55.Bytes,
    statement: Option<string>,
    uri: string,
    chainId: nat,
    nonce: string,
    issuedAt: string,
    expirationTime: Option<string>,
    notBefore: Option<string>,
    requestId: Option<string>,
    resources: seq<string>)

  predicate TimeOk(g: Grammar, t: Option<string>) {
    t.Some? ==> g.time(t.value)
  }

  /** What the field types guarantee. */
  predicate Typed(g: Grammar, m: Message) {
    && (m.scheme.Some? ==> g.scheme(m.scheme.value)) && g.authority(m.domain) && |m.address| == 20
    && g.uri(m.uri) && m.chainId < U64_END && g.time(m.issuedAt) && TimeOk(g, m.expirationTime) &&
      TimeOk(g, m.notBefore)
    && forall i :: 0 <= i < |m.resources| ==> g.uri(m.resources[i])
  }

  predicate LineOk(t: Option<string>) {
    t.Some? ==> Free('\n', t.value)
  }

  /** What EIP-4361 asks of the free-text fields. */
  predicate WellFormed(m: Message) {
    && m.statement != Some("") && LineOk(m.statement) && LineOk(m.requestId)
    && Free('\n', m.nonce) && |Utf8(m.nonce)| >= 8
  }

  // ---- Printing ----

  function PreambleLine(m: Message): string {
    (if m.scheme.Some? then m.scheme.value + "://" + m.domain else m.domain) + PREAMBLE
  }

  function Optional(tag: string, t: Option<string>): seq<string> {
    if t.Some? then [tag + t.value] else []
  }

  function ResourceLines(rs: seq<string>): (r: seq<string>)
    ensures |r| == |rs| && forall i :: 0 <= i < |rs| ==> r[i] == "- " + rs[i]
  {
    seq(|rs|, i requires 0 <= i < |rs| => "- " + rs[i])
  }

  function ResourceSection(rs: seq<string>): seq<string> {
    if rs == [] then [] else [RES_TAG] + ResourceLines(rs)
  }

  function TailLines(m: Message): seq<string> {
    Optional(EXP_TAG, m.expirationTime) + (Optional(NBF_TAG, m.notBefore) +
      (Optional(RID_TAG, m.requestId) + ResourceSection(m.resources)))
  }

  function BodyLines(m: Message): seq<string> {
    [URI_TAG + m.uri, VERSION_TAG + "1", CHAIN_TAG + NatText(m.chainId), NONCE_TAG + m.nonce, IAT_TAG + m.issuedAt] +
      TailLines(m)
  }

  function LinesOf(h: Eip55.Hasher, m: Message): seq<string>
    requires |m.address| == 20
  {
    [PreambleLine(m), ADDR_TAG + Eip55.Encode(h, m.address), ""]
    + (if m.statement.Some? then [m.statement.value, ""] else [""]) + BodyLines(m)
  }

  function Print(h: Eip55.Hasher, m: Message): string
    requires |m.address| == 20
  {
    Join(LinesOf(h, m), '\n')
  }

  function Bulleted(rs: seq<string>): seq<string> {
    seq(|rs|, i requires 0 <= i < |rs| => "- " + rs[i])
  }

  /** The optional lines at the end, as the ABNF of EIP-4361 has them. */
  function AbnfTail(m: Message): seq<string> {
    (if m.expirationTime.Some? then ["Expiration Time: " + m.expirationTime.value] else [])
    + ((if m.notBefore.Some? then ["Not Before: " + m.notBefore.value] else [])
       + ((if m.requestId.Some? then ["Request ID: " + m.requestId.value] else [])
          + (if m.resources == [] then [] else ["Resources:"] + Bulleted(m.resources))))
  }

  /** The lines of a whole message. */
  function AbnfLines(h: Eip55.Hasher, m: Message): seq<string>
    requires |m.address| == 20
  {
    [(if m.scheme.Some? then m.scheme.value + "://" + m.domain else m.domain) +
     (" wants you to sign" + " in with your" + " Ethereum account:"), "0x" + Eip55.Encode(h, m.address), ""]
    + (if m.statement.Some? then [m.statement.value, ""] else [""])
    + (["URI: " + m.uri, "Version: " + "1", "Chain ID: " + NatText(m.chainId), "Nonce: " + m.nonce,
        "Issued At: " + m.issuedAt] + AbnfTail(m))
  }

  lemma TailIsAbnf(m: Message)
    ensures TailLines(m) == AbnfTail(m)
  {
    assert ResourceLines(m.resources) == Bulleted(m.resources);
  }

  /** What is printed is those lines. */
  lemma PrintsAbnf(h: Eip55.Hasher, m: Message)
    requires |m.address| == 20
    ensures Print(h, m) == Join(AbnfLines(h, m), '\n')
  {
    hide NatText, Join, TailLines, AbnfTail;
    hide Eip55.Encode;
    TailIsAbnf(m);
  }

  // ---- Parsing ----

  /** The next line, if it starts with the tag, without it. */
  function Tagged(tag: string, ls: seq<string>): Option<string> {
    if ls != [] && HasPrefix(ls[0], tag) then Some(ls[0][|tag|..]) else None
  }

  function Rest(ls: seq<string>): seq<string> {
    if ls == [] then [] else ls[1..]
  }

  /** The first place of "://", if any. */
  function FindScheme(s: string): (r: Option<nat>)
    ensures r.Some? ==> r.value + 3 <= |s| && s[r.value..r.value + 3] == "://"
    decreases |s|
  {
    if |s| < 3 then None
    else if HasPrefix(s, "://") then Some(0)
    else match FindScheme(s[1..]) case None => None case Some(i) => Some(i + 1)
  }

  datatype Origin = Origin(scheme: Option<string>, domain: string)

  function ParseOrigin(g: Grammar, s: string): Option<Origin> {
    match FindScheme(s)
    case Some(i) =>
      if g.scheme(s[..i]) && g.authority(s[i + 3..]) then Some(Origin(Some(s[..i]), s[i + 3..])) else None
    case None => if g.authority(s) then Some(Origin(None, s)) else None
  }

  datatype Tail = Tail(exp: Option<string>, nbf: Option<string>, rid: Option<string>, resources: seq<string>)

  function ParseResources(g: Grammar, ls: seq<string>): Option<seq<string>> {
    if ls == [] then Some([])
    else if ls[0] != RES_TAG then None
    else if forall i :: 1 <= i < |ls| ==> HasPrefix(ls[i], "- ") && g.uri(ls[i][2..]) then
      Some(seq(|ls| - 1, i requires 0 <= i < |ls| - 1 => ls[i + 1][2..]))
    else None
  }

  /** An absent tag leaves the line for the next field. */
  function AfterOptional(tag: string, ls: seq<string>): seq<string> {
    if Tagged(tag, ls).Some? then ls[1..] else ls
  }

  function ParseTail(g: Grammar, ls: seq<string>): Option<Tail> {
    var exp := Tagged(EXP_TAG, ls);
    var ls1 := AfterOptional(EXP_TAG, ls);
    var nbf := Tagged(NBF_TAG, ls1);
    var ls2 := AfterOptional(NBF_TAG, ls1);
    var rid := Tagged(RID_TAG, ls2);
    var ls3 := AfterOptional(RID_TAG, ls2);
    if !TimeOk(g, exp) || !TimeOk(g, nbf) then None
    else match ParseResources(g, ls3)
      case None => None
      case Some(rs) => Some(Tail(exp, nbf, rid, rs))
  }

  datatype Body = Body(uri: string, chainId: nat, nonce: string, issuedAt: string, tail: Tail)

  function ParseBody(g: Grammar, ls: seq<string>): Option<Body> {
    var uri := Tagged(URI_TAG, ls);
    var ls1 := Rest(ls);
    var version := Tagged(VERSION_TAG, ls1);
    var ls2 := Rest(ls1);
    var chain := Tagged(CHAIN_TAG, ls2);
    var ls3 := Rest(ls2);
    var nonce := Tagged(NONCE_TAG, ls3);
    var ls4 := Rest(ls3);
    var iat := Tagged(IAT_TAG, ls4);
    if uri.None? || !g.uri(uri.value) || version != Some("1") || chain.None? || ParseU64(chain.value).None? then None
    else if nonce.None? || |Utf8(nonce.value)| < 8 || iat.None? || !g.time(iat.value) then None
    else match ParseTail(g, Rest(ls4))
      case None => None
      case Some(tail) => Some(Body(uri.value, ParseU64(chain.value).value, nonce.value, iat.value, tail))
  }

  function ParseLines(g: Grammar, h: Eip55.Hasher, ls: seq<string>): Option<Message>
    requires ls != []
  {
    if !HasSuffix(ls[0], PREAMBLE) then None
    else
      var origin := ParseOrigin(g, StripSuffix(ls[0], PREAMBLE));
      var addr := Tagged(ADDR_TAG, ls[1..]);
      if origin.None? || addr.None? || Eip55.Decode(h, addr.value).None? || |ls| < 4 then None
      else
        // the third line is skipped, and so is the line after a statement
        var statement := if ls[3] == "" then None else Some(ls[3]);
        var body := ParseBody(g, if statement.None? then ls[4..] else Rest(ls[4..]));
        if body.None? then None
        else
          var Body(uri, chainId, nonce, iat, tail) := body.value;
          Some(Message(origin.value.scheme, origin.value.domain, Eip55.Decode(h, addr.value).value, statement,
                       uri, chainId,
                       nonce, iat, tail.exp, tail.nbf, tail.rid, tail.resources))
  }

  function Parse(g: Grammar, h: Eip55.Hasher, s: string): Option<Message> {
    ParseLines(g, h, Split(s, '\n'))
  }

  // ---- The round trip ----

  lemma ConcatFree(sep: char, a: string, b: string)
    requires Free(sep, a) && Free(sep, b)
    ensures Free(sep, a + b)
  {
  }

  lemma TagsFree()
    ensures Free('\n', ADDR_TAG) && Free('\n', URI_TAG) && Free('\n', VERSION_TAG + "1") && Free('\n', CHAIN_TAG)
    ensures Free('\n', NONCE_TAG) && Free('\n', IAT_TAG) && Free('\n', EXP_TAG) && Free('\n', NBF_TAG)
    ensures Free('\n', RID_TAG)
    ensures Free('\n', RES_TAG) && Free('\n', "- ") && Free('\n', "://") && Free('\n', "")
  {
  }

  lemma PreambleFree()
    ensures Free('\n', PREAMBLE)
  {
    assert Free('\n', " wants you to sign") && Free('\n', " in with your") && Free('\n', " Ethereum account:");
    ConcatFree('\n', " wants you to sign", " in with your");
    ConcatFree('\n', " wants you to sign" + " in with your", " Ethereum account:");
  }

  lemma {:induction false} FindsScheme(a: string, b: string)
    requires Free(':', a)
    ensures FindScheme(a + "://" + b) == Some(|a|)
  {
    var s := a + "://" + b;
    if a == [] {
      assert s[..3] == "://";
    } else {
      assert s[0] == a[0] && s[..3][0] == a[0];
      assert s[1..] == a[1..] + "://" + b;
      FindsScheme(a[1..], b);
    }
  }

  lemma {:induction false} FindsNoScheme(s: string)
    requires Free('/', s)
    ensures FindScheme(s) == None
  {
    if |s| >= 3 {
      assert s[..3][1] == s[1] != '/';
      FindsNoScheme(s[1..]);
    }
  }

  lemma OriginReads(g: Grammar, m: Message)
    requires Lawful(g) && Typed(g, m)
    ensures HasSuffix(PreambleLine(m), PREAMBLE)
    ensures ParseOrigin(g, StripSuffix(PreambleLine(m), PREAMBLE)) == Some(Origin(m.scheme, m.domain))
    ensures Free('\n', PreambleLine(m))
  {
    TagsFree();
    PreambleFree();
    var text := if m.scheme.Some? then m.scheme.value + "://" + m.domain else m.domain;
    var line := PreambleLine(m);
    assert line[|line| - |PREAMBLE|..] == PREAMBLE && line[..|line| - |PREAMBLE|] == text;
    if m.scheme.Some? {
      FindsScheme(m.scheme.value, m.domain);
      assert text[..|m.scheme.value|] == m.scheme.value && text[|m.scheme.value| + 3..] == m.domain;
    } else {
      FindsNoScheme(m.domain);
    }
  }

  lemma TaggedReads(tag: string, t: string, ls: seq<string>)
    ensures Tagged(tag, [tag + t] + ls) == Some(t) && Rest([tag + t] + ls) == ls
    ensures AfterOptional(tag, [tag + t] + ls) == ls
  {
    assert (tag + t)[..|tag|] == tag && (tag + t)[|tag|..] == t;
  }

  lemma OptionalReads(tag: string, t: Option<string>, ls: seq<string>)
    requires Tagged(tag, ls) == None
    ensures Tagged(tag, Optional(tag, t) + ls) == t && AfterOptional(tag, Optional(tag, t) + ls) == ls
  {
    if t.Some? {
      TaggedReads(tag, t.value, ls);
    } else {
      assert Optional(tag, t) + ls == ls;
    }
  }

  /** A line that starts with one tag does not start with another that differs at some place. */
  lemma OtherTag(tag: string, other: string, i: nat, t: string, ls: seq<string>)
    requires i < |tag| && i < |other| && tag[i] != other[i]
    ensures Tagged(other, [tag + t] + ls) == None
  {
    var line := tag + t;
    assert line[i] == tag[i];
    if |other| <= |line| {
      assert line[..|other|][i] == line[i];
    }
  }

  lemma ResourcesRead(g: Grammar, rs: seq<string>)
    requires forall i :: 0 <= i < |rs| ==> g.uri(rs[i])
    ensures ParseResources(g, ResourceSection(rs)) == Some(rs)
  {
    if rs != [] {
      var ls := ResourceSection(rs);
      forall i | 1 <= i < |ls| ensures ls[i] == "- " + rs[i - 1] && ls[i][..2] == "- " && ls[i][2..] == rs[i - 1] {
      }
      assert ParseResources(g, ls).value == rs;
    }
  }

  /** What follows the request id starts with none of the earlier tags, and so on. */
  lemma SectionTags(rs: seq<string>)
    ensures Tagged(RID_TAG, ResourceSection(rs)) == None && Tagged(NBF_TAG, ResourceSection(rs)) == None
    ensures Tagged(EXP_TAG, ResourceSection(rs)) == None
  {
    if rs != [] {
      assert RES_TAG + "" == RES_TAG;
      OtherTag(RES_TAG, RID_TAG, 2, "", ResourceLines(rs));
      OtherTag(RES_TAG, NBF_TAG, 0, "", ResourceLines(rs));
      OtherTag(RES_TAG, EXP_TAG, 0, "", ResourceLines(rs));
    }
  }

  lemma RequestTags(m: Message)
    ensures var ls := Optional(RID_TAG, m.requestId) + ResourceSection(m.resources);
            Tagged(NBF_TAG, ls) == None && Tagged(EXP_TAG, ls) == None
  {
    SectionTags(m.resources);
    if m.requestId.Some? {
      OtherTag(RID_TAG, NBF_TAG, 0, m.requestId.value, ResourceSection(m.resources));
      OtherTag(RID_TAG, EXP_TAG, 0, m.requestId.value, ResourceSection(m.resources));
    } else {
      assert Optional(RID_TAG, m.requestId) + ResourceSection(m.resources) == ResourceSection(m.resources);
    }
  }

  lemma NotBeforeTags(m: Message)
    ensures Tagged(EXP_TAG, Optional(NBF_TAG, m.notBefore) +
            (Optional(RID_TAG, m.requestId) + ResourceSection(m.resources))) == None
  {
    RequestTags(m);
    var ls := Optional(RID_TAG, m.requestId) + ResourceSection(m.resources);
    if m.notBefore.Some? {
      OtherTag(NBF_TAG, EXP_TAG, 0, m.notBefore.value, ls);
    } else {
      assert Optional(NBF_TAG, m.notBefore) + ls == ls;
    }
  }

  lemma TailReads(g: Grammar, m: Message)
    requires Typed(g, m)
    ensures ParseTail(g, TailLines(m)) == Some(Tail(m.expirationTime, m.notBefore, m.requestId, m.resources))
  {
    SectionTags(m.resources);
    RequestTags(m);
    NotBeforeTags(m);
    hide Tagged, AfterOptional, Optional;
    var ls3 := ResourceSection(m.resources);
    var ls2 := Optional(RID_TAG, m.requestId) + ls3;
    var ls1 := Optional(NBF_TAG, m.notBefore) + ls2;
    OptionalReads(EXP_TAG, m.expirationTime, ls1);
    OptionalReads(NBF_TAG, m.notBefore, ls2);
    OptionalReads(RID_TAG, m.requestId, ls3);
    ResourcesRead(g, m.resources);
  }

  lemma BodyReads(g: Grammar, m: Message)
    requires Typed(g, m) && WellFormed(m)
    ensures ParseBody(g, BodyLines(m)) ==
            Some(Body(m.uri, m.chainId, m.nonce, m.issuedAt,
              Tail(m.expirationTime, m.notBefore, m.requestId, m.resources)))
  {
    TailReads(g, m);
    U64Reads(m.chainId);
    TypedParts(g, m);
    HeadReads(m);
    hide Tagged, Rest, ParseTail, TailLines, BodyLines, ParseU64, Utf8, Typed;
  }

  /** The five fixed lines, one by one. */
  lemma HeadReads(m: Message)
    ensures var ls := BodyLines(m);
            && Tagged(URI_TAG, ls) == Some(m.uri) && Tagged(VERSION_TAG, Rest(ls)) == Some("1")
            && Tagged(CHAIN_TAG, Rest(Rest(ls))) == Some(NatText(m.chainId)) &&
              Tagged(NONCE_TAG, Rest(Rest(Rest(ls)))) == Some(m.nonce)
            && Tagged(IAT_TAG, Rest(Rest(Rest(Rest(ls))))) == Some(m.issuedAt) &&
              Rest(Rest(Rest(Rest(Rest(ls))))) == TailLines(m)
  {
    var ls5 := TailLines(m);
    hide TailLines, NatText;
    var ls4 := [IAT_TAG + m.issuedAt] + ls5;
    var ls3 := [NONCE_TAG + m.nonce] + ls4;
    var ls2 := [CHAIN_TAG + NatText(m.chainId)] + ls3;
    var ls1 := [VERSION_TAG + "1"] + ls2;
    assert BodyLines(m) == [URI_TAG + m.uri] + ls1;
    hide BodyLines, Tagged, Rest;
    TaggedReads(URI_TAG, m.uri, ls1);
    TaggedReads(VERSION_TAG, "1", ls2);
    TaggedReads(CHAIN_TAG, NatText(m.chainId), ls3);
    TaggedReads(NONCE_TAG, m.nonce, ls4);
    TaggedReads(IAT_TAG, m.issuedAt, ls5);
  }

  lemma TypedParts(g: Grammar, m: Message)
    requires Typed(g, m)
    ensures g.uri(m.uri) && g.time(m.issuedAt)
  {
  }

  lemma LinesRead(g: Grammar, h: Eip55.Hasher, m: Message)
    requires Lawful(g) && Typed(g, m) && WellFormed(m)
    ensures ParseLines(g, h, LinesOf(h, m)) == Some(m)
  {
    OriginReads(g, m);
    BodyReads(g, m);
    Eip55.DecodeEncode(h, m.address);
    LinesAre(h, m);
    hide ParseBody, ParseOrigin, PreambleLine, BodyLines, LinesOf, Tagged, HasSuffix, StripSuffix, Rest, Typed, Lawful;
    hide Eip55.Decode;
    hide Eip55.Encode;
  }

  lemma LinesAre(h: Eip55.Hasher, m: Message)
    requires |m.address| == 20 && WellFormed(m)
    ensures var ls := LinesOf(h, m);
            && |ls| >= 4 && ls[0] == PreambleLine(m) && Tagged(ADDR_TAG, ls[1..]) == Some(Eip55.Encode(h, m.address))
            && (if m.statement.Some? then ls[3] == m.statement.value != "" && Rest(ls[4..]) == BodyLines(m)
              else ls[3] == "" && ls[4..] == BodyLines(m))
  {
    hide BodyLines, PreambleLine;
    hide Eip55.Encode;
    var ls := LinesOf(h, m);
    var addr := Eip55.Encode(h, m.address);
    TaggedReads(ADDR_TAG, addr, ls[2..]);
    assert ls[1..] == [ADDR_TAG + addr] + ls[2..];
  }

  predicate AllFree(ls: seq<string>) {
    forall i :: 0 <= i < |ls| ==> Free('\n', ls[i])
  }

  lemma DigitsFree(g: Grammar, h: Eip55.Hasher, m: Message)
    requires |m.address| == 20
    ensures Free('\n', NatText(m.chainId)) && Free('\n', Eip55.Encode(h, m.address))
  {
    forall i | 0 <= i < 40 ensures Eip55.Encode(h, m.address)[i] != '\n' {
      Eip55.EncodedAt(h, m.address, i);
    }
  }

  lemma TailFree(g: Grammar, m: Message)
    requires Lawful(g) && Typed(g, m) && WellFormed(m)
    ensures AllFree(TailLines(m))
  {
    TagsFree();
    hide Free;
    assert AllFree(Optional(EXP_TAG, m.expirationTime)) by { OptionalFree(EXP_TAG, m.expirationTime); }
    assert AllFree(Optional(NBF_TAG, m.notBefore)) by { OptionalFree(NBF_TAG, m.notBefore); }
    assert AllFree(Optional(RID_TAG, m.requestId)) by { OptionalFree(RID_TAG, m.requestId); }
    forall i | 0 <= i < |m.resources| ensures Free('\n', "- " + m.resources[i]) {
      ConcatFree('\n', "- ", m.resources[i]);
    }
  }

  lemma OptionalFree(tag: string, t: Option<string>)
    requires Free('\n', tag) && (t.Some? ==> Free('\n', t.value))
    ensures AllFree(Optional(tag, t))
  {
  }

  lemma LinesFree(g: Grammar, h: Eip55.Hasher, m: Message)
    requires Lawful(g) && Typed(g, m) && WellFormed(m)
    ensures AllFree(LinesOf(h, m))
  {
    TagsFree();
    OriginReads(g, m);
    DigitsFree(g, h, m);
    TailFree(g, m);
    hide TailLines, PreambleLine, Free, StripSuffix, ParseOrigin;
    hide Eip55.Encode;
    ConcatFree('\n', ADDR_TAG, Eip55.Encode(h, m.address));
    ConcatFree('\n', URI_TAG, m.uri);
    ConcatFree('\n', CHAIN_TAG, NatText(m.chainId));
    ConcatFree('\n', NONCE_TAG, m.nonce);
    ConcatFree('\n', IAT_TAG, m.issuedAt);
  }

  /** Parsing the printed form of a well-formed message gives the message back. */
  lemma ParsePrint(g: Grammar, h: Eip55.Hasher, m: Message)
    requires Lawful(g) && Typed(g, m) && WellFormed(m)
    ensures Parse(g, h, Print(h, m)) == Some(m)
  {
    LinesFree(g, h, m);
    LinesRead(g, h, m);
    hide Lawful, Typed, WellFormed, LinesOf, ParseLines;
    SplitJoin(LinesOf(h, m), '\n');
  }

  lemma TailWellFormed(g: Grammar, ls: seq<string>)
    requires AllFree(ls) && ParseTail(g, ls).Some?
    ensures var t := ParseTail(g, ls).value;
            && LineOk(t.rid) && TimeOk(g, t.exp) && TimeOk(g, t.nbf) && forall i :: 0 <= i < |t.resources| ==>
              g.uri(t.resources[i])
  {
  }

  /** Whatever is parsed has the types' properties and is well-formed. */
  lemma ParsedIsWellFormed(g: Grammar, h: Eip55.Hasher, s: string)
    requires Parse(g, h, s).Some?
    ensures WellFormed(Parse(g, h, s).value) && Typed(g, Parse(g, h, s).value)
  {
    hide ParseLines, Split, WellFormed, Typed;
    LinesWellFormed(g, h, Split(s, '\n'));
  }

  lemma OriginTyped(g: Grammar, s: string)
    requires ParseOrigin(g, s).Some?
    ensures var o := ParseOrigin(g, s).value; (o.scheme.Some? ==> g.scheme(o.scheme.value)) && g.authority(o.domain)
  {
  }

  lemma LinesWellFormed(g: Grammar, h: Eip55.Hasher, ls: seq<string>)
    requires ls != [] && AllFree(ls) && ParseLines(g, h, ls).Some?
    ensures WellFormed(ParseLines(g, h, ls).value) && Typed(g, ParseLines(g, h, ls).value)
  {
    hide Utf8, ParseBody, ParseOrigin, PREAMBLE, Tagged, HasSuffix, StripSuffix, Free;
    hide Eip55.Decode;
    OriginTyped(g, StripSuffix(ls[0], PREAMBLE));
    var body := if ls[3] == "" then ls[4..] else Rest(ls[4..]);
    assert AllFree(body);
    BodyWellFormed(g, body);
  }

  lemma BodyWellFormed(g: Grammar, ls: seq<string>)
    requires AllFree(ls) && ParseBody(g, ls).Some?
    ensures var b := ParseBody(g, ls).value;
            && g.uri(b.uri) && b.chainId < U64_END && Free('\n', b.nonce) && |Utf8(b.nonce)| >= 8 && g.time(b.issuedAt)
            && LineOk(b.tail.rid) && TimeOk(g, b.tail.exp) && TimeOk(g, b.tail.nbf)
            && forall i :: 0 <= i < |b.tail.resources| ==> g.uri(b.tail.resources[i])
  {
    hide ParseTail, Utf8;
    TailWellFormed(g, Rest(Rest(Rest(Rest(Rest(ls))))));
  }

  /** So the round trip holds exactly for the well-formed messages. */
  lemma RoundTripIffWellFormed(g: Grammar, h: Eip55.Hasher, m: Message)
    requires Lawful(g) && Typed(g, m)
    ensures Parse(g, h, Print(h, m)) == Some(m) <==> WellFormed(m)
  {
    hide Print, Parse, WellFormed;
    if WellFormed(m) {
      ParsePrint(g, h, m);
    }
    if Parse(g, h, Print(h, m)) == Some(m) {
      ParsedIsWellFormed(g, h, Print(h, m));
    }
  }

  /** Printing is injective on well-formed messages. */
  lemma PrintInjective(g: Grammar, h: Eip55.Hasher, m: Message, n: Message)
    requires Lawful(g) && Typed(g, m) && Typed(g, n) && WellFormed(m) && WellFormed(n) && Print(h, m) == Print(h, n)
    ensures m == n
  {
    hide Print, Parse, WellFormed, Typed;
    ParsePrint(g, h, m);
    ParsePrint(g, h, n);
  }

  lemma {:induction false} JoinAppend(ls: seq<string>, x: string)
    requires ls != []
    ensures Join(ls + [x], '\n') == Join(ls, '\n') + "\n" + x
  {
    if |ls| == 1 {
      assert (ls + [x])[1..] == [x];
    } else {
      assert (ls + [x])[1..] == ls[1..] + [x];
      JoinAppend(ls[1..], x);
    }
  }

  /** Writes further lines after what is there. */
  method WriteLines(f: string, ghost before: seq<string>, more: seq<string>) returns (r: string)
    requires before != [] && f == Join(before, '\n')
    ensures r == Join(before + more, '\n')
  {
    r := f;
    assert before + more[..0] == before;
    for i := 0 to |more|
      invariant r == Join(before + more[..i], '\n')
    {
      JoinAppend(before + more[..i], more[i]);
      assert before + more[..i + 1] == before + more[..i] + [more[i]];
      r := r + "\n" + more[i];
    }
    assert more[..|more|] == more;
  }

  /** The formatter: the fixed lines, then each optional field that is there, then the resources one by one. */
  method Display(h: Eip55.Hasher, m: Message) returns (f: string)
    requires |m.address| == 20
    ensures f == Print(h, m)
  {
    hide Join, PreambleLine, TailLines;
    hide Eip55.Encode;
    var first, second := PreambleLine(m), ADDR_TAG + Eip55.Encode(h, m.address);
    f := first;
    SingleLine(f);
    f := WriteLines(f, [first], [second, ""]);
    ghost var ls := [first, second, ""];
    assert [first] + [second, ""] == ls;
    var statement := if m.statement.Some? then [m.statement.value, ""] else [""];
    f := WriteLines(f, ls, statement);
    ls := ls + statement;
    var body := [URI_TAG + m.uri, VERSION_TAG + "1", CHAIN_TAG + NatText(m.chainId), NONCE_TAG + m.nonce,
      IAT_TAG + m.issuedAt];
    f := WriteLines(f, ls, body);
    f := WriteLines(f, ls + body, TailLines(m));
    ConcatAssociates(ls, body, TailLines(m));
  }

  lemma SingleLine(f: string)
    ensures f == Join([f], '\n')
  {
  }
}
