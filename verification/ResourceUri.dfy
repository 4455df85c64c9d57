/** The text of space and resource ids (tinycloud-auth/src/resource.rs). */
module ResourceUri {
  import opened Order
  import opened Decimal
  import opened Splitting
  import opened Identity
  import Eip55

  datatype SpaceId = SpaceId(did: string, name: string)

  datatype ResourceId = ResourceId(
    space: SpaceId,
    service: string,
    path: Option<string>,
    query: Option<string>,
    fragment: Option<string>)

  /** Which texts are normalized URIs, and which are DIDs. */
  datatype Rules = Rules(uri: string -> bool, did: string -> bool)

  /** Not empty, and of letters, digits, ':' and '+' only. */
  predicate Plain(s: string) {
    s != "" && forall c :: c in s ==> 'a' <= c <= 'z' || 'A' <= c <= 'Z' || IsDigit(c) || c == ':' || c == '+'
  }

  predicate PathAccepted(rules: Rules, start: string, rest: string) {
    rules.uri("tinycloud:" + (start + rest))
  }

  /**
   What is used of RFC 3986: none of these characters is altered by normalization or ends a path, so
   one such run at the start of the path may stand for another.
   */
  ghost predicate Lawful(rules: Rules) {
    forall a, b, rest :: Plain(a) && Plain(b) && PathAccepted(rules, a, rest) ==> PathAccepted(rules, b, rest)
  }

  function Suffix(sp: SpaceId): string {
    if |sp.did| < 4 then "" else sp.did[4..]
  }

  function SpacePath(sp: SpaceId): string {
    Suffix(sp) + ":" + sp.name
  }

  function PrintSpace(sp: SpaceId): string {
    "tinycloud:" + SpacePath(sp)
  }

  function Appended(sep: char, t: Option<string>): string {
    if t.Some? then [sep] + t.value else ""
  }

  function ResourcePath(r: ResourceId): string {
    SpacePath(r.space) + "/" + (r.service + Appended('/', r.path))
  }

  function PrintResource(r: ResourceId): string {
    "tinycloud:" + ResourcePath(r) + Appended('?', r.query) + Appended('#', r.fragment)
  }

  /** The component split of section 3 of RFC 3986. */
  datatype Parts = Parts(scheme: string, rest: string, query: Option<string>, fragment: Option<string>)

  function Cut(s: string, sep: char): (r: (string, Option<string>))
    ensures s == r.0 + Appended(sep, r.1) && Free(sep, r.0)
  {
    match SplitOnce(s, sep)
    case None => (s, None)
    case Some((a, b)) => (a, Some(b))
  }

  function Components(s: string): Option<Parts> {
    var (front, fragment) := Cut(s, '#');
    var (hier, query) := Cut(front, '?');
    match SplitOnce(hier, ':')
    case None => None
    case Some((scheme, rest)) => Some(Parts(scheme, rest, query, fragment))
  }

  function SpaceFromPath(h: Eip55.Hasher, rules: Rules, path: string): Option<SpaceId> {
    match RSplitOnce(path, ':')
    case None => None
    case Some((suffix, name)) =>
      match Canonicalize(h, "did:" + suffix)
      case None => None
      case Some(did) => if name == "" || !rules.did(did) then None else Some(SpaceId(did, name))
  }

  function ParseSpace(h: Eip55.Hasher, rules: Rules, s: string): Option<SpaceId> {
    match Components(s)
    case None => None
    case Some(p) =>
      if !rules.uri(s) || p.scheme != "tinycloud" || p.query.Some? || p.fragment.Some? || HasPrefix(p.rest, "//")
         || HasSuffix(p.rest, ":") || !Free('/', p.rest)
      then None
      else SpaceFromPath(h, rules, p.rest)
  }

  function ParseResource(h: Eip55.Hasher, rules: Rules, s: string): Option<ResourceId> {
    match Components(s)
    case None => None
    case Some(p) =>
      if !rules.uri(s) || p.scheme != "tinycloud" || HasPrefix(p.rest, "//") then None
      else
        match SplitOnce(p.rest, '/')
        case None => None
        case Some((space, rest)) =>
          var (service, path) := Cut(rest, '/');
          match SpaceFromPath(h, rules, space)
          case None => None
          case Some(sp) => Some(ResourceId(sp, service, path, p.query, p.fragment))
  }

  lemma CutIs(a: string, t: Option<string>, sep: char)
    requires Free(sep, a)
    ensures Cut(a + Appended(sep, t), sep) == (a, t)
  {
    if t.Some? {
      SplitOnceIs(a, t.value, sep);
      assert a + Appended(sep, t) == a + [sep] + t.value;
    } else {
      assert a + "" == a;
    }
  }

  lemma ComponentsAre(rest: string, query: Option<string>, fragment: Option<string>)
    requires Free('?', rest) && Free('#', rest) && (query.Some? ==> Free('#', query.value))
    ensures Components("tinycloud:" + rest + Appended('?', query) + Appended('#', fragment)) ==
            Some(Parts("tinycloud", rest, query, fragment))
  {
    var hier := "tinycloud:" + rest;
    assert Free('#', "tinycloud:") && Free('?', "tinycloud:") && Free(':', "tinycloud");
    assert Free('?', hier) && Free('#', hier + Appended('?', query));
    hide Cut;
    CutIs(hier + Appended('?', query), fragment, '#');
    CutIs(hier, query, '?');
    SplitOnceIs("tinycloud", rest, ':');
    assert hier == "tinycloud" + [':'] + rest;
  }

  /** Reading the path of a parsed space gives the space again. */
  lemma SpacePathReads(h: Eip55.Hasher, rules: Rules, path: string)
    requires SpaceFromPath(h, rules, path).Some?
    ensures SpaceFromPath(h, rules, SpacePath(SpaceFromPath(h, rules, path).value)) == SpaceFromPath(h, rules, path)
  {
    hide Canonicalize;
    var (suffix, name) := RSplitOnce(path, ':').value;
    var sp := SpaceFromPath(h, rules, path).value;
    CanonicalizeIdempotent(h, "did:" + suffix);
    assert sp.did[..4] == "did:" && "did:" + Suffix(sp) == sp.did;
    RSplitOnceIs(Suffix(sp), name, ':');
  }

  lemma SpacePathFree(h: Eip55.Hasher, rules: Rules, path: string, sep: char)
    requires SpaceFromPath(h, rules, path).Some? && Free(sep, path) && (sep == '/' || sep == '?' || sep == '#')
    ensures Free(sep, SpacePath(SpaceFromPath(h, rules, path).value))
  {
    hide Canonicalize;
    var (suffix, name) := RSplitOnce(path, ':').value;
    assert Free(sep, "did:" + suffix);
    CanonicalFree(h, "did:" + suffix, sep);
  }

  lemma SpacePathEnds(h: Eip55.Hasher, rules: Rules, path: string)
    requires SpaceFromPath(h, rules, path).Some? && Free('/', path)
    ensures var p := SpacePath(SpaceFromPath(h, rules, path).value); p != "" && p[0] != '/' && !HasSuffix(p, ":")
  {
    SpacePathFree(h, rules, path, '/');
    hide Canonicalize;
    var sp := SpaceFromPath(h, rules, path).value;
    var p := SpacePath(sp);
    assert p[0] in p && p[|p| - 1] == sp.name[|sp.name| - 1];
    assert Free(':', sp.name);
    assert p[|p| - 1..] == [p[|p| - 1]];
  }

  lemma ComponentsJoin(s: string)
    requires Components(s).Some? && Components(s).value.scheme == "tinycloud"
    ensures var p := Components(s).value;
            s == "tinycloud:" + (p.rest + (Appended('?', p.query) + Appended('#', p.fragment)))
  {
    var (front, fragment) := Cut(s, '#');
    var (hier, query) := Cut(front, '?');
    var rest := Components(s).value.rest;
    assert hier == "tinycloud:" + rest;
    ConcatAssociates(hier, Appended('?', query), Appended('#', fragment));
    ConcatAssociates("tinycloud:", rest, Appended('?', query) + Appended('#', fragment));
  }

  lemma PlainPkh(chain: string, address: string)
    requires Plain(chain) && Plain(address)
    ensures Plain((PKH + (chain + ":" + address))[4..])
  {
    var rest := chain + ":" + address;
    assert PKH[4..] == "pkh:eip155:" && (PKH + rest)[4..] == PKH[4..] + rest;
    assert Plain(rest) && Plain("pkh:eip155:");
  }

  /** A DID that canonicalization respells is plain before and after. */
  lemma RespelledPlain(h: Eip55.Hasher, suffix: string)
    requires ParsePkh(h, "did:" + suffix).Pkh?
    ensures Plain(suffix) && Plain(Canonicalize(h, "did:" + suffix).value[4..])
  {
    hide Plain, CanonicalAddress, ParseU64, NatText, PkhText;
    var did := "did:" + suffix;
    assert did[4..] == suffix;
    PkhParts(h, did);
    CanonicalPlain(h, did);
    GivenPkhPlain(h, did);
  }

  lemma CanonicalPlain(h: Eip55.Hasher, did: string)
    requires ParsePkh(h, did).Pkh?
    ensures Plain(Canonicalize(h, did).value[4..])
  {
    hide ParsePkh, CanonicalAddress, Plain, NatText;
    var Pkh(chain, address) := ParsePkh(h, did);
    PkhParts(h, did);
    U64Reads(chain);
    GivenPlain(h, NatText(chain), address);
    PlainPkh(NatText(chain), address);
  }

  lemma GivenPkhPlain(h: Eip55.Hasher, did: string)
    requires ParsePkh(h, did).Pkh?
    ensures Plain(did[4..])
  {
    hide Plain, CanonicalAddress, ParseU64;
    var (n, given) := SplitOnce(did[|PKH|..], ':').value;
    GivenPlain(h, n, given);
    PlainPkh(n, given);
    assert did == PKH + did[|PKH|..];
  }

  lemma GivenPlain(h: Eip55.Hasher, chain: string, address: string)
    requires ParseU64(chain).Some? && CanonicalAddress(h, address).Some?
    ensures Plain(chain) && Plain(address)
  {
    forall c | c in chain ensures c == '+' || IsDigit(c) {
      if c != chain[0] || IsDigit(c) {
        assert c in (if chain[0] == '+' then chain[1..] else chain);
      }
    }
    forall c | c in address ensures c == 'x' || IsHex(c) {
      if c !in address[2..] {
        assert c in address[..2];
      }
    }
  }

  /** The text of a parsed space differs from what was read at most in a plain start. */
  lemma SpaceRespelled(h: Eip55.Hasher, rules: Rules, path: string) returns (a: string, b: string, rest: string)
    requires SpaceFromPath(h, rules, path).Some?
    ensures path == a + rest && SpacePath(SpaceFromPath(h, rules, path).value) == b + rest
    ensures a == b || (Plain(a) && Plain(b))
  {
    var (suffix, name) := RSplitOnce(path, ':').value;
    var sp := SpaceFromPath(h, rules, path).value;
    CanonicalizeIdempotent(h, "did:" + suffix);
    a, b, rest := suffix, Suffix(sp), ":" + name;
    if ParsePkh(h, "did:" + suffix).Pkh? {
      RespelledPlain(h, suffix);
    } else {
      assert sp.did == "did:" + suffix && sp.did[4..] == suffix;
    }
    hide Canonicalize, ParsePkh;
    ConcatAssociates(a, ":", name);
    ConcatAssociates(b, ":", name);
  }

  /** Printing what was read at the start of a path keeps the URI accepted. */
  lemma PrintedAccepted(h: Eip55.Hasher, rules: Rules, path: string, more: string)
    requires Lawful(rules) && SpaceFromPath(h, rules, path).Some? && rules.uri("tinycloud:" + (path + more))
    ensures rules.uri("tinycloud:" + (SpacePath(SpaceFromPath(h, rules, path).value) + more))
  {
    hide SpaceFromPath, SpacePath;
    var a, b, rest := SpaceRespelled(h, rules, path);
    ConcatAssociates(a, rest, more);
    ConcatAssociates(b, rest, more);
    assert PathAccepted(rules, a, rest + more);
    assert PathAccepted(rules, b, rest + more);
  }

  /** Parsing the printed form of a parsed space id gives that id. */
  lemma SpaceRoundTrip(h: Eip55.Hasher, rules: Rules, s: string)
    requires Lawful(rules) && ParseSpace(h, rules, s).Some?
    ensures ParseSpace(h, rules, PrintSpace(ParseSpace(h, rules, s).value)) == ParseSpace(h, rules, s)
  {
    var sp := ParseSpace(h, rules, s).value;
    var rest := Components(s).value.rest;
    ComponentsJoin(s);
    SpaceShape(h, rules, s);
    SpacePathReads(h, rules, rest);
    hide SpaceFromPath, SpacePath, Components, HasSuffix, Free;
    ConcatEmpty(rest);
    ConcatEmpty(SpacePath(sp));
    PrintedAccepted(h, rules, rest, "");
    ParsesAsSpace(h, rules, PrintSpace(sp), SpacePath(sp));
  }

  lemma ConcatEmpty(s: string)
    ensures s + (Appended('?', None) + Appended('#', None)) == s && s + "" == s
  {
  }

  /** The printed form of a parsed space has the shape the parser asks for. */
  lemma SpaceShape(h: Eip55.Hasher, rules: Rules, s: string)
    requires ParseSpace(h, rules, s).Some?
    ensures var sp := ParseSpace(h, rules, s).value; var path := SpacePath(sp);
            && Components(PrintSpace(sp)) == Some(Parts("tinycloud", path, None, None))
            && Free('/', path) && path != "" && path[0] != '/' && !HasSuffix(path, ":")
  {
    var sp := ParseSpace(h, rules, s).value;
    var rest := Components(s).value.rest;
    RestFree(s);
    SpacePathFree(h, rules, rest, '/');
    SpacePathFree(h, rules, rest, '?');
    SpacePathFree(h, rules, rest, '#');
    SpacePathEnds(h, rules, rest);
    hide SpaceFromPath, SpacePath, Components, HasSuffix, Free;
    ComponentsAre(SpacePath(sp), None, None);
    PlainPrint(sp);
  }

  lemma PlainPrint(sp: SpaceId)
    ensures PrintSpace(sp) == "tinycloud:" + SpacePath(sp) + Appended('?', None) + Appended('#', None)
  {
  }

  lemma ParsesAsSpace(h: Eip55.Hasher, rules: Rules, s: string, path: string)
    requires rules.uri(s) && Components(s) == Some(Parts("tinycloud", path, None, None))
    requires Free('/', path) && path != "" && path[0] != '/' && !HasSuffix(path, ":")
    ensures ParseSpace(h, rules, s) == SpaceFromPath(h, rules, path)
  {
    hide SpaceFromPath, Components;
    if |path| >= 2 {
      assert path[..2][0] == path[0];
    }
  }

  /** Printing is injective on parsed space ids. */
  lemma PrintSpaceInjective(h: Eip55.Hasher, rules: Rules, s: string, t: string)
    requires ParseSpace(h, rules, s).Some? && ParseSpace(h, rules, t).Some?
    requires PrintSpace(ParseSpace(h, rules, s).value) == PrintSpace(ParseSpace(h, rules, t).value)
    ensures ParseSpace(h, rules, s) == ParseSpace(h, rules, t)
  {
    SpaceShape(h, rules, s);
    SpaceShape(h, rules, t);
    SpacePathReads(h, rules, Components(s).value.rest);
    SpacePathReads(h, rules, Components(t).value.rest);
    hide SpaceFromPath, SpacePath, Components, PrintSpace;
  }

  lemma RestFree(s: string)
    requires Components(s).Some?
    ensures Free('?', Components(s).value.rest) && Free('#', Components(s).value.rest)
    ensures Components(s).value.query.Some? ==> Free('#', Components(s).value.query.value)
  {
    var (front, _) := Cut(s, '#');
    var (hier, query) := Cut(front, '?');
    var (scheme, rest) := SplitOnce(hier, ':').value;
    assert Free('#', hier) && Free('?', hier);
  }

  /** The printed path splits into the space, the service and the path it was made of. */
  lemma PathReads(r: ResourceId, rest: string)
    requires Free('/', SpacePath(r.space)) && SpacePath(r.space) != "" && Cut(rest, '/') == (r.service, r.path)
    ensures SplitOnce(ResourcePath(r), '/') == Some((SpacePath(r.space), rest))
    ensures ResourcePath(r) == SpacePath(r.space) + ("/" + rest) && !HasPrefix(ResourcePath(r), "//")
  {
    hide SpacePath;
    SplitOnceIs(SpacePath(r.space), rest, '/');
    assert ResourcePath(r)[0] == SpacePath(r.space)[0] && SpacePath(r.space)[0] in SpacePath(r.space);
  }

  /** The printed form of a parsed resource id splits into the parts that were read. */
  lemma ResourceShape(h: Eip55.Hasher, rules: Rules, s: string)
    requires ParseResource(h, rules, s).Some?
    ensures var r := ParseResource(h, rules, s).value;
            var p, rest := Components(s).value, SplitOnce(Components(s).value.rest, '/').value.1;
            && Components(PrintResource(r)) == Some(Parts("tinycloud", ResourcePath(r), p.query, p.fragment))
            && SplitOnce(ResourcePath(r), '/') == Some((SpacePath(r.space), rest))
            && ResourcePath(r) == SpacePath(r.space) + ("/" + rest) && !HasPrefix(ResourcePath(r), "//")
            && Cut(rest, '/') == (r.service, r.path)
            && SpaceFromPath(h, rules, SpacePath(r.space)) == Some(r.space)
  {
    var r := ParseResource(h, rules, s).value;
    var p := Components(s).value;
    var (space, rest) := SplitOnce(p.rest, '/').value;
    RestFree(s);
    SpacePathReads(h, rules, space);
    SpacePathFree(h, rules, space, '/');
    SpacePathFree(h, rules, space, '?');
    SpacePathFree(h, rules, space, '#');
    SpacePathEnds(h, rules, space);
    hide SpaceFromPath, SpacePath, Components, Canonicalize;
    PathReads(r, rest);
    ComponentsAre(ResourcePath(r), p.query, p.fragment);
  }

  lemma ResourceAccepted(h: Eip55.Hasher, rules: Rules, s: string)
    requires Lawful(rules) && ParseResource(h, rules, s).Some?
    ensures rules.uri(PrintResource(ParseResource(h, rules, s).value))
  {
    var r := ParseResource(h, rules, s).value;
    var p := Components(s).value;
    var (space, rest) := SplitOnce(p.rest, '/').value;
    ComponentsJoin(s);
    ResourceShape(h, rules, s);
    hide SpaceFromPath, SpacePath, Components, ResourcePath;
    var tail := Appended('?', p.query) + Appended('#', p.fragment);
    Joined(space, rest, tail);
    Joined(SpacePath(r.space), rest, tail);
    PrintedAccepted(h, rules, space, ("/" + rest) + tail);
    ConcatAssociates("tinycloud:", ResourcePath(r), Appended('?', p.query));
    ConcatAssociates("tinycloud:" + ResourcePath(r), Appended('?', p.query), Appended('#', p.fragment));
    ConcatAssociates("tinycloud:", ResourcePath(r), tail);
  }

  lemma Joined(space: string, rest: string, tail: string)
    ensures space + ['/'] + rest + tail == space + (("/" + rest) + tail) == space + ("/" + rest) + tail
  {
  }

  /** Parsing the printed form of a parsed resource id gives that id. */
  lemma ResourceRoundTrip(h: Eip55.Hasher, rules: Rules, s: string)
    requires Lawful(rules) && ParseResource(h, rules, s).Some?
    ensures ParseResource(h, rules, PrintResource(ParseResource(h, rules, s).value)) == ParseResource(h, rules, s)
  {
    ResourceAccepted(h, rules, s);
    ResourceShape(h, rules, s);
    hide SpaceFromPath, SpacePath, Components, ResourcePath, PrintResource, Lawful, Cut;
  }

  /** Printing is injective on parsed resource ids. */
  lemma PrintResourceInjective(h: Eip55.Hasher, rules: Rules, s: string, t: string)
    requires ParseResource(h, rules, s).Some? && ParseResource(h, rules, t).Some?
    requires PrintResource(ParseResource(h, rules, s).value) == PrintResource(ParseResource(h, rules, t).value)
    ensures ParseResource(h, rules, s) == ParseResource(h, rules, t)
  {
    ResourceShape(h, rules, s);
    ResourceShape(h, rules, t);
    hide SpaceFromPath, SpacePath, Components, ResourcePath, PrintResource, Cut;
  }
}
