/** Capabilities carried by a sign-in message, after ERC-5573 (dependencies/siwe-recap/src/capability.rs). */
module Recap {
  import opened Order
  import opened Decimal
  import opened Splitting
  import opened Siwe
  import Eip55

  const RESOURCE_PREFIX := "urn:recap:"

  datatype Ability = Ability(ns: string, name: string)

  /** An ability with its note-benes as serialized. */
  datatype Grant = Grant(ability: Ability, caveats: string)

  datatype Target = Target(resource: string, grants: seq<Grant>)

  /** Targets and abilities in the order of their maps, and the proofs. */
  datatype Capability = Capability(targets: seq<Target>, proofs: seq<string>)

  // ---- Line groups ----

  datatype Group = Group(ns: string, names: seq<string>)

  datatype Line = Line(resource: string, ns: string, names: seq<string>)

  function AddName(groups: seq<Group>, ns: string, name: string): seq<Group> {
    if groups == [] || StringLess(ns, groups[0].ns) then [Group(ns, [name])] + groups
    else if groups[0].ns == ns then [Group(ns, groups[0].names + [name])] + groups[1..]
    else [groups[0]] + AddName(groups[1..], ns, name)
  }

  function GroupBy(grants: seq<Grant>): seq<Group> {
    if grants == [] then []
    else
      var last := grants[|grants| - 1].ability;
      AddName(GroupBy(grants[..|grants| - 1]), last.ns, last.name)
  }

  function LinesFor(resource: string, groups: seq<Group>): (ls: seq<Line>)
    ensures |ls| == |groups| && forall i :: 0 <= i < |ls| ==> ls[i] == Line(resource, groups[i].ns, groups[i].names)
  {
    seq(|groups|, i requires 0 <= i < |groups| => Line(resource, groups[i].ns, groups[i].names))
  }

  function LineGroups(targets: seq<Target>): seq<Line> {
    if targets == [] then [] else LinesFor(targets[0].resource, GroupBy(targets[0].grants)) + LineGroups(targets[1..])
  }

  predicate GroupsSorted(groups: seq<Group>) {
    forall i, j :: 0 <= i < j < |groups| ==> StringLess(groups[i].ns, groups[j].ns)
  }

  /** The names of one namespace, in the order of the abilities. */
  function NamesIn(grants: seq<Grant>, ns: string): seq<string> {
    if grants == [] then []
    else
      var before, last := NamesIn(grants[..|grants| - 1], ns), grants[|grants| - 1].ability;
      if last.ns == ns then before + [last.name] else before
  }

  function NamesAt(groups: seq<Group>, ns: string): seq<string> {
    if groups == [] then [] else if groups[0].ns == ns then groups[0].names else NamesAt(groups[1..], ns)
  }

  lemma {:induction false} AddNameSorted(groups: seq<Group>, ns: string, name: string)
    requires GroupsSorted(groups)
    ensures GroupsSorted(AddName(groups, ns, name))
    ensures forall i :: 0 <= i < |AddName(groups, ns, name)| ==>
              AddName(groups, ns, name)[i].ns == ns || exists j ::
                0 <= j < |groups| && groups[j].ns == AddName(groups, ns, name)[i].ns
  {
    hide StringLess;
    var r := AddName(groups, ns, name);
    if groups != [] {
      StringOrder(ns, groups[0].ns, ns);
      if StringLess(ns, groups[0].ns) {
        forall j | 1 <= j < |r| ensures StringLess(ns, r[j].ns) {
          assert r[j] == groups[j - 1];
          StringOrder(ns, groups[0].ns, groups[j - 1].ns);
        }
      } else if groups[0].ns != ns {
        AddNameSorted(groups[1..], ns, name);
        AddNameTail(groups, ns, name);
      }
    }
  }

  lemma {:induction false} AddNameTail(groups: seq<Group>, ns: string, name: string)
    requires groups != [] && GroupsSorted(groups) && StringLess(groups[0].ns, ns)
    requires var rest := AddName(groups[1..], ns, name);
             && GroupsSorted(rest)
             && forall i :: 0 <= i < |rest| ==> rest[i].ns == ns || exists j ::
               0 <= j < |groups[1..]| && groups[1..][j].ns == rest[i].ns
    ensures var r := [groups[0]] + AddName(groups[1..], ns, name);
            && GroupsSorted(r)
            && forall i :: 0 <= i < |r| ==> r[i].ns == ns || exists j :: 0 <= j < |groups| && groups[j].ns == r[i].ns
  {
    hide StringLess, AddName;
    var rest := AddName(groups[1..], ns, name);
    var r := [groups[0]] + rest;
    forall i | 0 <= i < |rest|
      ensures StringLess(groups[0].ns, rest[i].ns)
      ensures rest[i].ns == ns || exists j :: 0 <= j < |groups| && groups[j].ns == rest[i].ns
    {
      if rest[i].ns != ns {
        var j :| 0 <= j < |groups[1..]| && groups[1..][j].ns == rest[i].ns;
        assert groups[j + 1].ns == rest[i].ns;
      }
    }
    assert groups[0].ns == r[0].ns;
  }

  lemma {:induction false} AddNameAt(groups: seq<Group>, ns: string, name: string, other: string)
    requires GroupsSorted(groups)
    ensures NamesAt(AddName(groups, ns, name), other) == if other == ns then NamesAt(groups, ns) + [name]
            else NamesAt(groups, other)
  {
    hide StringLess;
    if groups != [] {
      StringOrder(ns, groups[0].ns, ns);
      if StringLess(ns, groups[0].ns) {
        NothingBelow(groups, ns);
      } else if groups[0].ns != ns {
        AddNameAt(groups[1..], ns, name, other);
      }
    }
  }

  lemma {:induction false} NothingBelow(groups: seq<Group>, ns: string)
    requires GroupsSorted(groups) && (groups != [] ==> StringLess(ns, groups[0].ns))
    ensures NamesAt(groups, ns) == []
  {
    hide StringLess;
    if groups != [] {
      StringOrder(ns, groups[0].ns, if |groups| > 1 then groups[1].ns else ns);
      NothingBelow(groups[1..], ns);
    }
  }

  /** Grouping keeps every name, under its own namespace and in order, with one group a namespace. */
  lemma {:induction false} GroupsPartition(grants: seq<Grant>, ns: string)
    ensures GroupsSorted(GroupBy(grants)) && NamesAt(GroupBy(grants), ns) == NamesIn(grants, ns)
  {
    if grants != [] {
      var before, last := grants[..|grants| - 1], grants[|grants| - 1].ability;
      GroupsPartition(before, ns);
      AddNameSorted(GroupBy(before), last.ns, last.name);
      AddNameAt(GroupBy(before), last.ns, last.name, ns);
    }
  }

  lemma {:induction false} NamesAtGroup(groups: seq<Group>, i: nat)
    requires GroupsSorted(groups) && i < |groups|
    ensures NamesAt(groups, groups[i].ns) == groups[i].names
  {
    hide StringLess;
    if i > 0 {
      StringOrder(groups[0].ns, groups[i].ns, groups[0].ns);
      assert groups[1..][i - 1] == groups[i];
      NamesAtGroup(groups[1..], i - 1);
    }
  }

  lemma {:induction false} NamesAtFound(groups: seq<Group>, ns: string) returns (i: nat)
    requires NamesAt(groups, ns) != []
    ensures i < |groups| && groups[i].ns == ns && groups[i].names == NamesAt(groups, ns)
  {
    if groups[0].ns == ns {
      i := 0;
    } else {
      var j := NamesAtFound(groups[1..], ns);
      i := j + 1;
    }
  }

  predicate DistinctTargets(targets: seq<Target>) {
    forall i, j :: 0 <= i < j < |targets| ==> targets[i].resource != targets[j].resource
  }

  lemma {:induction false} LinesFrom(targets: seq<Target>, line: Line)
    requires line in LineGroups(targets)
    ensures exists t :: t in targets && t.resource == line.resource && line in LinesFor(t.resource, GroupBy(t.grants))
  {
    hide GroupBy;
    var first := LinesFor(targets[0].resource, GroupBy(targets[0].grants));
    if line in first {
      assert targets[0] in targets;
    } else {
      assert line in LineGroups(targets[1..]);
      LinesFrom(targets[1..], line);
      var t :| t in targets[1..] && t.resource == line.resource && line in LinesFor(t.resource, GroupBy(t.grants));
      assert t in targets;
    }
  }

  lemma {:induction false} LinesInto(targets: seq<Target>, t: Target, line: Line)
    requires t in targets && line in LinesFor(t.resource, GroupBy(t.grants))
    ensures line in LineGroups(targets)
  {
    hide GroupBy;
    if t != targets[0] {
      assert t in targets[1..];
      LinesInto(targets[1..], t, line);
    }
  }

  /** A line holds exactly the names its resource grants in its namespace, in order. */
  lemma {:induction false} LineHolds(targets: seq<Target>, line: Line)
    requires line in LineGroups(targets)
    ensures exists t :: t in targets && t.resource == line.resource && line.names == NamesIn(t.grants, line.ns)
  {
    hide LineGroups;
    LinesFrom(targets, line);
    var t :| t in targets && t.resource == line.resource && line in LinesFor(t.resource, GroupBy(t.grants));
    var groups := GroupBy(t.grants);
    var i :| 0 <= i < |groups| && LinesFor(t.resource, groups)[i] == line;
    GroupsPartition(t.grants, line.ns);
    NamesAtGroup(groups, i);
  }

  /** Every granted ability is on a line of its resource and namespace. */
  lemma {:induction false} GrantOnLine(targets: seq<Target>, t: Target, grant: Grant)
    requires t in targets && grant in t.grants
    ensures exists line ::
              && line in LineGroups(targets) && line.resource == t.resource
              && line.ns == grant.ability.ns && grant.ability.name in line.names
  {
    hide LineGroups;
    var ns := grant.ability.ns;
    GroupsPartition(t.grants, ns);
    NamesInHas(t.grants, grant);
    var groups := GroupBy(t.grants);
    var i := NamesAtFound(groups, ns);
    var line := LinesFor(t.resource, groups)[i];
    LinesInto(targets, t, line);
  }

  lemma {:induction false} NamesInHas(grants: seq<Grant>, grant: Grant)
    requires grant in grants
    ensures grant.ability.name in NamesIn(grants, grant.ability.ns)
  {
    var last := |grants| - 1;
    if grants[last] != grant {
      assert grant in grants[..last];
      NamesInHas(grants[..last], grant);
    }
  }

  /** No two lines are for the same resource and namespace. */
  lemma {:induction false} LinesDistinct(targets: seq<Target>, i: nat, j: nat)
    requires DistinctTargets(targets) && i < j < |LineGroups(targets)|
    requires LineGroups(targets)[i].resource == LineGroups(targets)[j].resource
    ensures LineGroups(targets)[i].ns != LineGroups(targets)[j].ns
  {
    hide GroupBy;
    var groups := GroupBy(targets[0].grants);
    var first, rest := LinesFor(targets[0].resource, groups), LineGroups(targets[1..]);
    var all := LineGroups(targets);
    assert all == first + rest;
    if i >= |first| {
      assert all[i] == rest[i - |first|] && all[j] == rest[j - |first|];
      LinesDistinct(targets[1..], i - |first|, j - |first|);
    } else if j < |first| {
      GroupsPartition(targets[0].grants, groups[i].ns);
      StringOrder(groups[i].ns, groups[j].ns, groups[i].ns);
    } else {
      assert all[j] == rest[j - |first|] && rest[j - |first|] in rest;
      LinesFrom(targets[1..], all[j]);
    }
  }

  // ---- The statement ----

  function QuotedNames(names: seq<string>): string {
    if names == [] then "" else if |names| == 1 then "'" + names[0] + "'"
      else "'" + names[0] + "', " + QuotedNames(names[1..])
  }

  function LineText(l: Line): string {
    "'" + l.ns + "': " + QuotedNames(l.names) + " for '" + l.resource + "'."
  }

  /** The lines numbered from `n`. */
  function Numbered(ls: seq<Line>, n: nat): string
    decreases |ls|
  {
    if ls == [] then "" else " (" + NatText(n) + ") " + LineText(ls[0]) + Numbered(ls[1..], n + 1)
  }

  const STATEMENT := "I further authorize the stated URI" + " to perform the following" + " actions on my behalf:"

  function Statement(c: Capability): string {
    STATEMENT + Numbered(LineGroups(c.targets), 1)
  }

  // ---- Writing into a message and reading back ----

  /** The serialization of capabilities: canonical JSON in base64url in the original. */
  datatype Codec = Codec(encode: Capability -> Option<string>, decode: string -> Option<Capability>)

  ghost predicate Inverse(codec: Codec) {
    forall c :: codec.encode(c).Some? ==> codec.decode(codec.encode(c).value) == Some(c)
  }

  datatype Extracted = NoCapability | Found(cap: Capability) | DecodeError | WrongStatement

  function BuildMessage(g: Grammar, codec: Codec, c: Capability, m: Message): Option<Message> {
    if c.targets == [] then Some(m)
    else
      var encoded := codec.encode(c);
      if encoded.None? || !g.uri(RESOURCE_PREFIX + encoded.value) then None
      else
        var before := if m.statement.Some? then m.statement.value else "";
        Some(m.(resources := m.resources + [RESOURCE_PREFIX + encoded.value],
                statement := Some(if before == "" then Statement(c) else before + " " + Statement(c))))
  }

  function Extract(codec: Codec, m: Message): Extracted {
    if m.resources == [] || !HasPrefix(m.resources[|m.resources| - 1], RESOURCE_PREFIX) then NoCapability
    else
      match codec.decode(m.resources[|m.resources| - 1][|RESOURCE_PREFIX|..])
      case None => DecodeError
      case Some(c) => Found(c)
  }

  function ExtractAndVerify(codec: Codec, m: Message): Extracted {
    match Extract(codec, m)
    case Found(c) => if m.statement.Some? && HasSuffix(m.statement.value, Statement(c)) then Found(c)
      else WrongStatement
    case other => other
  }

  /** Texts without newlines, as URIs and abilities are. */
  predicate PlainCapability(c: Capability) {
    forall t :: t in c.targets ==> Free('\n', t.resource) && forall x :: x in t.grants ==>
      Free('\n', x.ability.ns) && Free('\n', x.ability.name)
  }

  lemma Suffixed(a: string, b: string)
    ensures HasSuffix(a + b, b)
  {
    assert (a + b)[|a|..] == b;
  }

  lemma LastResourceDecodes(codec: Codec, c: Capability, m: Message, text: string)
    requires m.resources != [] && m.resources[|m.resources| - 1] == RESOURCE_PREFIX + text
    requires codec.decode(text) == Some(c)
    ensures Extract(codec, m) == Found(c)
  {
    var uri := RESOURCE_PREFIX + text;
    assert uri[..|RESOURCE_PREFIX|] == RESOURCE_PREFIX && uri[|RESOURCE_PREFIX|..] == text;
  }

  lemma BuiltStatementEnds(before: string, statement: string)
    ensures HasSuffix(if before == "" then statement else before + " " + statement, statement)
  {
    Suffixed(before + " ", statement);
    Suffixed("", statement);
    assert "" + statement == statement;
  }

  /** Building leaves a message from which the capability can be extracted. */
  lemma BuildExtract(g: Grammar, codec: Codec, c: Capability, m: Message)
    requires Inverse(codec) && c.targets != [] && BuildMessage(g, codec, c, m).Some?
    ensures ExtractAndVerify(codec, BuildMessage(g, codec, c, m).value) == Found(c)
    ensures var built := BuildMessage(g, codec, c, m).value;
            && built == m.(resources := built.resources, statement := built.statement)
            && codec.encode(c).Some? && built.resources == m.resources + ["urn:recap:" + codec.encode(c).value]
  {
    hide Statement, Extract, HasSuffix;
    var built := BuildMessage(g, codec, c, m).value;
    LastResourceDecodes(codec, c, built, codec.encode(c).value);
    BuiltStatementEnds(if m.statement.Some? then m.statement.value else "", Statement(c));
  }

  predicate Granted(grants: seq<Grant>, ns: string, name: string) {
    exists x :: x in grants && x.ability == Ability(ns, name)
  }

  lemma {:induction false} NamesInFrom(grants: seq<Grant>, ns: string, name: string)
    requires name in NamesIn(grants, ns)
    ensures Granted(grants, ns, name)
  {
    var last := |grants| - 1;
    if grants[last].ability == Ability(ns, name) {
      assert grants[last] in grants;
    } else {
      assert name in NamesIn(grants[..last], ns);
      NamesInFrom(grants[..last], ns, name);
      var x :| x in grants[..last] && x.ability == Ability(ns, name);
      assert x in grants;
    }
  }

  lemma {:induction false} GroupsNamed(grants: seq<Grant>)
    ensures forall i :: 0 <= i < |GroupBy(grants)| ==> GroupBy(grants)[i].names != []
  {
    if grants != [] {
      GroupsNamed(grants[..|grants| - 1]);
      AddNameNamed(GroupBy(grants[..|grants| - 1]), grants[|grants| - 1].ability.ns, grants[|grants| - 1].ability.name);
    }
  }

  lemma {:induction false} AddNameNamed(groups: seq<Group>, ns: string, name: string)
    requires forall i :: 0 <= i < |groups| ==> groups[i].names != []
    ensures forall i :: 0 <= i < |AddName(groups, ns, name)| ==> AddName(groups, ns, name)[i].names != []
  {
    hide StringLess;
    if groups != [] {
      AddNameNamed(groups[1..], ns, name);
    }
  }

  /** A line names granted abilities only, and at least one. */
  lemma {:induction false} LineGranted(targets: seq<Target>, line: Line)
    requires line in LineGroups(targets)
    ensures line.names != [] && exists t :: t in targets && t.resource == line.resource && forall n ::
            n in line.names ==> Granted(t.grants, line.ns, n)
  {
    hide LineGroups, Granted;
    LinesFrom(targets, line);
    var t :| t in targets && t.resource == line.resource && line in LinesFor(t.resource, GroupBy(t.grants));
    var groups := GroupBy(t.grants);
    var i :| 0 <= i < |groups| && LinesFor(t.resource, groups)[i] == line;
    GroupsNamed(t.grants);
    GroupsPartition(t.grants, line.ns);
    NamesAtGroup(groups, i);
    forall n | n in line.names ensures Granted(t.grants, line.ns, n) {
      NamesInFrom(t.grants, line.ns, n);
    }
  }

  lemma {:induction false} NamesFree(names: seq<string>)
    requires forall n :: n in names ==> Free('\n', n)
    ensures Free('\n', QuotedNames(names))
  {
    if names != [] {
      assert names[0] in names;
      NamesFree(names[1..]);
    }
  }

  predicate PlainLine(l: Line) {
    Free('\n', l.resource) && Free('\n', l.ns) && forall n :: n in l.names ==> Free('\n', n)
  }

  lemma LinePlain(c: Capability, l: Line)
    requires PlainCapability(c) && l in LineGroups(c.targets)
    ensures PlainLine(l)
  {
    hide LineGroups, Free;
    LineGranted(c.targets, l);
    var t :| t in c.targets && t.resource == l.resource && forall n :: n in l.names ==> Granted(t.grants, l.ns, n);
    assert l.names[0] in l.names;
  }

  lemma LineTextFree(l: Line)
    requires PlainLine(l)
    ensures Free('\n', LineText(l))
  {
    NamesFree(l.names);
  }

  lemma {:induction false} NumberedFree(ls: seq<Line>, n: nat)
    requires forall l :: l in ls ==> PlainLine(l)
    ensures Free('\n', Numbered(ls, n))
    decreases |ls|
  {
    hide PlainLine, LineText;
    if ls != [] {
      assert ls[0] in ls;
      LineTextFree(ls[0]);
      NumberedFree(ls[1..], n + 1);
    }
  }

  lemma StatementFree(c: Capability)
    requires PlainCapability(c)
    ensures Free('\n', Statement(c)) && Statement(c) != ""
  {
    hide PlainCapability, PlainLine, LineGroups, Numbered;
    forall l | l in LineGroups(c.targets) ensures PlainLine(l) {
      LinePlain(c, l);
    }
    NumberedFree(LineGroups(c.targets), 1);
    HeadingFree();
    assert |Statement(c)| >= |STATEMENT| > 0;
  }

  lemma HeadingFree()
    ensures Free('\n', STATEMENT)
  {
    assert Free('\n', "I further authorize the stated URI") && Free('\n', " to perform the following") &&
      Free('\n', " actions on my behalf:");
  }

  /**
   A capability written into a sign-in message, printed, parsed back and extracted with the
   check of the statement is the original capability.
   */
  lemma CapabilityRoundTrip(g: Grammar, h: Eip55.Hasher, codec: Codec, c: Capability, m: Message)
    requires Lawful(g) && Inverse(codec) && PlainCapability(c) && c.targets != []
    requires Typed(g, m) && LineOk(m.statement) && WellFormed(m.(statement := None))
    requires BuildMessage(g, codec, c, m).Some?
    ensures var built := BuildMessage(g, codec, c, m).value;
            && |built.address| == 20 && Parse(g, h, Print(h, built)) == Some(built)
            && ExtractAndVerify(codec, Parse(g, h, Print(h, built)).value) == Found(c)
  {
    BuildExtract(g, codec, c, m);
    BuiltIsWellFormed(g, codec, c, m);
    hide BuildMessage, ExtractAndVerify, Print, Parse, WellFormed, Lawful;
    ParsePrint(g, h, BuildMessage(g, codec, c, m).value);
  }

  lemma BuiltIsWellFormed(g: Grammar, codec: Codec, c: Capability, m: Message)
    requires PlainCapability(c) && c.targets != []
    requires Typed(g, m) && LineOk(m.statement) && WellFormed(m.(statement := None))
    requires BuildMessage(g, codec, c, m).Some?
    ensures Typed(g, BuildMessage(g, codec, c, m).value) && WellFormed(BuildMessage(g, codec, c, m).value)
  {
    StatementFree(c);
    hide Statement, PlainCapability;
  }
}
