/** What a grant covers, in the node and in the browser verifier (tinycloud-core/src/types/resource.rs). */
module Authority {
  import opened Order
  import opened Splitting
  import opened Registry
  import opened ResourceUri

  predicate EndsWithSlash(s: string) {
    s != "" && s[|s| - 1] == '/'
  }

  /** The path check of `ResourceId::extends`. */
  predicate PathExtends(path: string, base: string) {
    HasPrefix(path, base) && (EndsWithSlash(base) || |path| == |base| || path[|base|] == '/')
  }

  predicate OptionalPathExtends(path: Option<string>, base: Option<string>) {
    match (path, base)
    case (Some(s), Some(b)) => PathExtends(s, b)
    case (None, Some(_)) => false
    case _ => true
  }

  predicate IdExtends(r: ResourceId, base: ResourceId) {
    base.space == r.space && base.service == r.service && base.fragment == r.fragment &&
      OptionalPathExtends(r.path, base.path)
  }

  lemma PathExtendsPreorder(a: string, b: string, c: string)
    ensures PathExtends(a, a)
    ensures PathExtends(a, b) && PathExtends(b, c) ==> PathExtends(a, c)
  {
    assert a[..|a|] == a;
    if PathExtends(a, b) && PathExtends(b, c) {
      assert a[..|c|] == b[..|c|];
      if |c| < |b| {
        assert a[|c|] == a[..|b|][|c|] == b[|c|];
      }
    }
  }

  lemma IdExtendsPreorder(a: ResourceId, b: ResourceId, c: ResourceId)
    ensures IdExtends(a, a)
    ensures IdExtends(a, b) && IdExtends(b, c) ==> IdExtends(a, c)
  {
    hide PathExtends;
    if a.path.Some? {
      var middle, last := if b.path.Some? then b.path.value else "", if c.path.Some? then c.path.value else "";
      PathExtendsPreorder(a.path.value, middle, last);
    }
  }

  // ---- Paths by segments ----

  /** The segments of a base path; a final slash ends the last segment. */
  function BaseSegments(base: string): seq<string> {
    var parts := Split(base, '/');
    if EndsWithSlash(base) then parts[..|parts| - 1] else parts
  }

  /** Splitting at a slash splits the segments. */
  lemma {:induction false} SplitConcat(a: string, b: string)
    ensures Split(a + ['/'] + b, '/') == Split(a, '/') + Split(b, '/')
  {
    var s := a + ['/'] + b;
    if a == [] {
      assert s[1..] == b;
    } else {
      SplitConcat(a[1..], b);
      assert s[0] == a[0] && s[1..] == a[1..] + ['/'] + b;
      var ra, rb := Split(a[1..], '/'), Split(b, '/');
      SplitStep(s, a, ra, rb);
    }
  }

  lemma {:induction false} SplitStep(s: string, a: string, ra: seq<string>, rb: seq<string>)
    requires s != [] && a != [] && s[0] == a[0] && ra != [] && ra == Split(a[1..], '/') && Split(s[1..], '/') == ra + rb
    ensures Split(s, '/') == Split(a, '/') + rb
  {
    var both := ra + rb;
    assert both[0] == ra[0] && both[1..] == ra[1..] + rb;
    UnfoldSplit(s, both);
    UnfoldSplit(a, ra);
    hide Split;
    if a[0] == '/' {
      ConcatAssociates([[]], ra, rb);
    } else {
      ConcatAssociates([[a[0]] + ra[0]], ra[1..], rb);
    }
  }

  lemma {:induction false} UnfoldSplit(s: string, rest: seq<string>)
    requires s != [] && rest == Split(s[1..], '/')
    ensures Split(s, '/') == if s[0] == '/' then [[]] + rest else [[s[0]] + rest[0]] + rest[1..]
  {
  }

  /** Text whose first segments are those of the base either ends there or goes on with a slash. */
  lemma {:induction false} PrefixSegments(base: string, path: string)
    requires Split(base, '/') <= Split(path, '/')
    ensures HasPrefix(path, base) && (|path| == |base| || path[|base|] == '/')
  {
    var bs, ps := Split(base, '/'), Split(path, '/');
    JoinSplit(base, '/');
    JoinSplit(path, '/');
    JoinPrefix(bs, ps);
  }

  lemma {:induction false} JoinPrefix(bs: seq<string>, ps: seq<string>)
    requires bs != [] && bs <= ps
    ensures HasPrefix(Join(ps, '/'), Join(bs, '/'))
    ensures (|Join(ps, '/')| == |Join(bs, '/')| || Join(ps, '/')[|Join(bs, '/')|] == '/')
  {
    var b, p := Join(bs, '/'), Join(ps, '/');
    assert ps[0] == bs[0];
    if |bs| == 1 {
      if |ps| > 1 {
        assert p == bs[0] + ['/'] + Join(ps[1..], '/');
      }
      assert p[..|b|] == b;
    } else {
      assert bs[1..] <= ps[1..];
      JoinPrefix(bs[1..], ps[1..]);
      var b', p' := Join(bs[1..], '/'), Join(ps[1..], '/');
      assert b == bs[0] + ['/'] + b' && p == bs[0] + ['/'] + p';
      assert p[..|b|] == bs[0] + ['/'] + p'[..|b'|];
    }
  }

  /** Extending a path is having its segments as a prefix; below a final slash there must be one more. */
  lemma {:induction false} ExtendsIffSegments(path: string, base: string)
    ensures PathExtends(path, base) <==>
            if EndsWithSlash(base) then BaseSegments(base) < Split(path, '/')
              else BaseSegments(base) <= Split(path, '/')
  {
    hide Split, Join;
    if EndsWithSlash(base) {
      SlashedBase(path, base);
    } else {
      PlainBase(path, base);
    }
  }

  lemma {:induction false} PlainBase(path: string, base: string)
    requires !EndsWithSlash(base)
    ensures PathExtends(path, base) <==> Split(base, '/') <= Split(path, '/')
  {
    hide Split;
    if PathExtends(path, base) {
      if |path| == |base| {
        assert path == path[..|base|] == base;
      } else {
        var rest := path[|base| + 1..];
        assert path == base + ['/'] + rest;
        SplitConcat(base, rest);
      }
    }
    if Split(base, '/') <= Split(path, '/') {
      PrefixSegments(base, path);
    }
  }

  lemma {:induction false} SlashedSegments(b: string)
    ensures BaseSegments(b + ['/']) == Split(b, '/')
  {
    SplitConcat(b, "");
    assert b + ['/'] + "" == b + ['/'] && Split("", '/') == [""];
    hide Split;
    assert (Split(b, '/') + [""])[..|Split(b, '/')|] == Split(b, '/');
  }

  lemma {:induction false} SlashedBase(path: string, base: string)
    requires EndsWithSlash(base)
    ensures PathExtends(path, base) <==> BaseSegments(base) < Split(path, '/')
  {
    var b := base[..|base| - 1];
    assert base == b + ['/'];
    SlashedSegments(b);
    hide Split, BaseSegments;
    if PathExtends(path, base) {
      BelowSlash(path, b);
    }
    if Split(b, '/') < Split(path, '/') {
      PrefixSegments(b, path);
      assert |path| == |b| ==> path == b;
      assert path[..|base|] == b + ['/'];
    }
  }

  lemma {:induction false} BelowSlash(path: string, b: string)
    requires HasPrefix(path, b + ['/'])
    ensures Split(b, '/') < Split(path, '/')
  {
    hide Split;
    var rest := path[|b| + 1..];
    assert path == b + ['/'] + rest;
    SplitConcat(b, rest);
    assert |Split(rest, '/')| > 0;
  }

  /** `path_contains`: equality for SQL; elsewhere also anything below a base with a final slash. */
  predicate PathContains(service: string, auth: string, req: string) {
    if service == "tinycloud.sql" then auth == req
    else auth == req || (EndsWithSlash(auth) && HasPrefix(req, auth) && |req| > |auth|)
  }

  lemma PathContainsExtends(service: string, auth: string, req: string)
    requires PathContains(service, auth, req)
    ensures PathExtends(req, auth)
  {
    assert req[..|req|] == req;
  }

  /** It is extension of the path, restricted to equal paths or, off SQL, to a base with a final slash. */
  lemma PathContainsIff(service: string, auth: string, req: string)
    ensures PathContains(service, auth, req) <==>
            PathExtends(req, auth) && (req == auth || (service != "tinycloud.sql" && EndsWithSlash(auth)))
  {
    PathExtendsPreorder(auth, auth, auth);
    if HasPrefix(req, auth) && |req| == |auth| {
      assert req == req[..|auth|] == auth;
    }
  }

  // ---- All resources ----

  const NETWORK_PREFIX := "urn:tinycloud:encryption:"

  datatype Resource = TinyCloud(id: ResourceId) | Other(uri: string)

  /** How encryption network ids read: a canonical text, or nothing. */
  type NetworkParser = string -> Option<string>

  predicate Extends(net: NetworkParser, r: Resource, base: Resource) {
    match (r, base)
    case (TinyCloud(a), TinyCloud(b)) => IdExtends(a, b)
    case (Other(a), Other(b)) =>
      (match (net(a), net(b))
       case (Some(x), Some(y)) => x == y
       case (None, None) => !HasPrefix(a, NETWORK_PREFIX) && !HasPrefix(b, NETWORK_PREFIX) && HasPrefix(a, b)
       case _ => false)
    case _ => false
  }

  lemma ExtendsTransitive(net: NetworkParser, a: Resource, b: Resource, c: Resource)
    requires Extends(net, a, b) && Extends(net, b, c)
    ensures Extends(net, a, c)
  {
    if a.TinyCloud? {
      IdExtendsPreorder(a.id, b.id, c.id);
    } else if net(a.uri).None? {
      assert a.uri[..|c.uri|] == a.uri[..|b.uri|][..|c.uri|];
    }
  }

  /** A resource extends itself, except for a malformed encryption network id. */
  lemma ExtendsReflexiveIff(net: NetworkParser, r: Resource)
    ensures Extends(net, r, r) <==> !(r.Other? && net(r.uri).None? && HasPrefix(r.uri, "urn:tinycloud:encryption:"))
  {
    if r.TinyCloud? {
      IdExtendsPreorder(r.id, r.id, r.id);
    } else {
      assert r.uri[..|r.uri|] == r.uri;
    }
  }

  /** The path lies at or below the base, segment by segment; without a base path, anything does. */
  predicate PathBelow(path: Option<string>, base: Option<string>) {
    base.Some? ==>
      && path.Some?
      && (if EndsWithSlash(base.value) then BaseSegments(base.value) < Split(path.value, '/')
          else BaseSegments(base.value) <= Split(path.value, '/'))
  }

  /**
   What one resource keeps of the one it extends: the space, service and fragment, with a path at or
   below; or the encryption network; or, for other URIs, the text as a prefix.
   */
  predicate Within(net: NetworkParser, r: Resource, base: Resource) {
    match (r, base)
    case (TinyCloud(a), TinyCloud(b)) =>
      a.space == b.space && a.service == b.service && a.fragment == b.fragment && PathBelow(a.path, b.path)
    case (Other(a), Other(b)) =>
      || (net(a).Some? && net(a) == net(b))
      || (net(a) == None == net(b) && HasPrefix(a, b) && !HasPrefix(a, "urn:tinycloud:encryption:"))
    case _ => false
  }

  lemma ExtendsIffWithin(net: NetworkParser, r: Resource, base: Resource)
    ensures Extends(net, r, base) <==> Within(net, r, base)
  {
    hide PathExtends, BaseSegments, Split;
    if r.TinyCloud? && base.TinyCloud? && r.id.path.Some? && base.id.path.Some? {
      ExtendsIffSegments(r.id.path.value, base.id.path.value);
    }
  }

  // ---- Grants ----

  datatype Cap = Cap(resource: Resource, ability: string, caveats: string)

  /** The parent's grant covers the child's resource and ability. */
  ghost predicate Covers(net: NetworkParser, reg: Registry, parent: Cap, child: Cap) {
    Extends(net, child.resource, parent.resource) && Matches(reg, parent.ability, child.ability)
  }

  /** A grant covers what lies within its resource and whose ability it implies. */
  lemma CoversIff(net: NetworkParser, reg: Registry, parent: Cap, child: Cap)
    ensures Covers(net, reg, parent, child) <==>
            Within(net, child.resource, parent.resource) && Matches(reg, parent.ability, child.ability)
  {
    hide Extends, Within, Matches;
    ExtendsIffWithin(net, child.resource, parent.resource);
  }

  lemma CoversTransitive(net: NetworkParser, reg: Registry, a: Cap, b: Cap, c: Cap)
    requires Covers(net, reg, a, b) && Covers(net, reg, b, c)
    ensures Covers(net, reg, a, c)
  {
    ExtendsTransitive(net, c.resource, b.resource, a.resource);
    MatchesPreorder(reg, a.ability, b.ability, c.ability);
  }

  /** Every grant in the chain covers the next. */
  ghost predicate IsChain(net: NetworkParser, reg: Registry, chain: seq<Cap>) {
    chain != [] && forall i :: 0 <= i < |chain| - 1 ==> Covers(net, reg, chain[i], chain[i + 1])
  }

  /** Authority never widens along a chain of any length: what the last grant covers, the first covers. */
  lemma {:induction false} ChainNeverWidens(net: NetworkParser, reg: Registry, chain: seq<Cap>, used: Cap)
    requires IsChain(net, reg, chain) && Covers(net, reg, chain[|chain| - 1], used)
    ensures Covers(net, reg, chain[0], used)
  {
    hide Covers;
    if |chain| > 1 {
      var last := |chain| - 1;
      assert Covers(net, reg, chain[last - 1], chain[last - 1 + 1]);
      CoversTransitive(net, reg, chain[last - 1], chain[last], used);
      ChainNeverWidens(net, reg, chain[..last], used);
    }
  }

  /** The verifier reads both resources as resource ids and refuses anything else. */
  ghost predicate VerifierCovers(net: NetworkParser, reg: Registry, grant: Cap, expected: Cap) {
    grant.resource.TinyCloud? && expected.resource.TinyCloud? && Covers(net, reg, grant, expected)
  }

  /** The search of the verifier: the first grant that covers the expected resource and action. */
  method FindGrant(net: NetworkParser, reg: Registry, grants: seq<Cap>, expected: Cap) returns (r: Option<Cap>)
    ensures r.Some? ==>
              && r.value in grants && VerifierCovers(net, reg, r.value, expected)
              && r.value.resource.TinyCloud? && expected.resource.TinyCloud?
              && Within(net, expected.resource, r.value.resource) && Matches(reg, r.value.ability, expected.ability)
    ensures r.None? ==> forall c :: c in grants ==> !VerifierCovers(net, reg, c, expected)
  {
    for i := 0 to |grants|
      invariant forall c :: c in grants[..i] ==> !VerifierCovers(net, reg, c, expected)
    {
      var ability := AbilityMatches(reg, grants[i].ability, expected.ability);
      if grants[i].resource.TinyCloud? && expected.resource.TinyCloud? &&
        IdExtends(expected.resource.id, grants[i].resource.id) && ability {
        CoversIff(net, reg, grants[i], expected);
        return Some(grants[i]);
      }
    }
    assert grants[..|grants|] == grants;
    r := None;
  }
}
