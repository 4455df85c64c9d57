/** Reading the statement of a capability: what a person is shown is exactly what is granted. */
module RecapStatement {
  import opened Order
  import opened Decimal
  import opened Splitting
  import opened Siwe
  import opened Recap

  const HEADING := "I further authorize the stated URI" + " to perform the following" + " actions on my behalf:"

  predicate Between(word: string, opening: string, closing: string) {
    |word| >= |opening| + |closing| && HasPrefix(word, opening) && HasSuffix(word, closing)
  }

  function Inner(word: string, opening: string, closing: string): string
    requires Between(word, opening, closing)
  {
    word[|opening|..|word| - |closing|]
  }

  predicate IsNumber(word: string, n: nat) {
    Between(word, "(", ")") && var digits := Inner(word, "(", ")");
    digits != [] && AllDigits(digits) && NatValue(digits) == n
  }

  /** Quoted names: a comma follows each but the last. */
  function ReadNames(words: seq<string>): (r: Option<(seq<string>, seq<string>)>)
    ensures r.Some? ==> |r.value.1| < |words|
  {
    if words == [] then None
    else if Between(words[0], "'", "',") then
      match ReadNames(words[1..])
      case None => None
      case Some((names, rest)) => Some(([Inner(words[0], "'", "',")] + names, rest))
    else if Between(words[0], "'", "'") then Some(([Inner(words[0], "'", "'")], words[1..]))
    else None
  }

  /** Lines numbered from `n`: a namespace, its names, and what they are for. */
  function ReadWords(words: seq<string>, n: nat): Option<seq<Line>>
    decreases |words|
  {
    if words == [] then Some([])
    else if |words| < 2 || !IsNumber(words[0], n) || !Between(words[1], "'", "':") then None
    else
      match ReadNames(words[2..])
      case None => None
      case Some((names, rest)) =>
        if |rest| < 2 || rest[0] != "for" || !Between(rest[1], "'", "'.") then None
        else
          match ReadWords(rest[2..], n + 1)
          case None => None
          case Some(lines) => Some([Line(Inner(rest[1], "'", "'."), Inner(words[1], "'", "':"), names)] + lines)
  }

  function ReadStatement(s: string): Option<seq<Line>> {
    if !HasPrefix(s, HEADING) then None
    else
      var body := s[|HEADING|..];
      if body == "" then Some([]) else if body[0] != ' ' then None else ReadWords(Split(body[1..], ' '), 1)
  }

  // ---- The words of a statement ----

  function NameWords(names: seq<string>): seq<string> {
    if names == [] then [] else if |names| == 1 then ["'" + names[0] + "'"]
      else ["'" + names[0] + "',"] + NameWords(names[1..])
  }

  function LineWords(l: Line, n: nat): seq<string> {
    ["(" + NatText(n) + ")", "'" + l.ns + "':"] + NameWords(l.names) + ["for", "'" + l.resource + "'."]
  }

  function AllWords(ls: seq<Line>, n: nat): seq<string>
    decreases |ls|
  {
    if ls == [] then [] else LineWords(ls[0], n) + AllWords(ls[1..], n + 1)
  }

  /** No text holds a space, as neither URIs nor abilities do. */
  predicate Spaceless(l: Line) {
    Free(' ', l.ns) && Free(' ', l.resource) && l.names != [] && forall x :: x in l.names ==> Free(' ', x)
  }

  lemma {:induction false} JoinConcat(a: seq<string>, b: seq<string>)
    requires a != [] && b != []
    ensures Join(a + b, ' ') == Join(a, ' ') + " " + Join(b, ' ')
  {
    if |a| == 1 {
      assert (a + b)[1..] == b;
    } else {
      assert (a + b)[1..] == a[1..] + b;
      JoinConcat(a[1..], b);
    }
  }

  lemma JoinTwo(a: string, b: string)
    ensures Join([a, b], ' ') == a + " " + b
  {
    assert [a, b][1..] == [b];
  }

  lemma {:induction false} NamesJoin(names: seq<string>)
    requires names != []
    ensures NameWords(names) != [] && Join(NameWords(names), ' ') == QuotedNames(names)
  {
    if |names| > 1 {
      NamesJoin(names[1..]);
      assert NameWords(names)[1..] == NameWords(names[1..]);
    }
  }

  lemma {:induction false} LineJoin(l: Line, n: nat)
    requires l.names != []
    ensures Join(LineWords(l, n), ' ') == "(" + NatText(n) + ") " + LineText(l)
  {
    hide NatText, Join, QuotedNames, NameWords;
    var head, tail := ["(" + NatText(n) + ")", "'" + l.ns + "':"], ["for", "'" + l.resource + "'."];
    NamesJoin(l.names);
    JoinTwo("(" + NatText(n) + ")", "'" + l.ns + "':");
    JoinTwo("for", "'" + l.resource + "'.");
    JoinConcat(head, NameWords(l.names));
    JoinConcat(head + NameWords(l.names), tail);
  }

  lemma LineThen(number: string, line: string, more: string)
    ensures " (" + number + ") " + line + (" " + more) == " " + (("(" + number + ") " + line) + " " + more)
  {
  }

  lemma {:induction false} NumberedJoin(ls: seq<Line>, n: nat)
    requires ls != [] && forall l :: l in ls ==> l.names != []
    ensures AllWords(ls, n) != [] && Numbered(ls, n) == " " + Join(AllWords(ls, n), ' ')
    decreases |ls|
  {
    hide NatText, Join, LineText, LineWords;
    assert ls[0] in ls;
    LineJoin(ls[0], n);
    LineWordsSome(ls[0], n);
    if |ls| == 1 {
      assert AllWords(ls, n) == LineWords(ls[0], n);
    } else {
      NumberedJoin(ls[1..], n + 1);
      JoinConcat(LineWords(ls[0], n), AllWords(ls[1..], n + 1));
      LineThen(NatText(n), LineText(ls[0]), Join(AllWords(ls[1..], n + 1), ' '));
    }
  }

  lemma LineWordsSome(l: Line, n: nat)
    ensures LineWords(l, n) != []
  {
    assert |LineWords(l, n)| >= 2;
  }

  lemma {:induction false} NameWordsFree(names: seq<string>)
    requires forall x :: x in names ==> Free(' ', x)
    ensures forall w :: w in NameWords(names) ==> Free(' ', w)
  {
    if names != [] {
      assert names[0] in names;
      NameWordsFree(names[1..]);
    }
  }

  lemma LineWordsFree(l: Line, n: nat)
    requires Spaceless(l)
    ensures forall w :: w in LineWords(l, n) ==> Free(' ', w)
  {
    NameWordsFree(l.names);
    NatRoundTrip(n);
    hide NatText, NameWords;
    assert Free(' ', NatText(n));
  }

  lemma {:induction false} AllWordsFree(ls: seq<Line>, n: nat)
    requires forall l :: l in ls ==> Spaceless(l)
    ensures forall w :: w in AllWords(ls, n) ==> Free(' ', w)
    decreases |ls|
  {
    hide Spaceless, LineWords, Free;
    if ls != [] {
      assert ls[0] in ls;
      LineWordsFree(ls[0], n);
      AllWordsFree(ls[1..], n + 1);
    }
  }

  // ---- And they are read back ----

  lemma InnerIs(opening: string, s: string, closing: string)
    ensures Between(opening + s + closing, opening, closing) && Inner(opening + s + closing, opening, closing) == s
  {
    var w := opening + s + closing;
    assert w[..|opening|] == opening && w[|w| - |closing|..] == closing;
  }

  lemma LastHasNoComma(s: string)
    ensures !Between("'" + s + "'", "'", "',")
  {
    var w := "'" + s + "'";
    assert |w| >= 3 ==> w[|w| - 2..][1] == '\'';
  }

  lemma {:induction false} NamesRead(names: seq<string>, rest: seq<string>)
    requires names != []
    ensures ReadNames(NameWords(names) + rest) == Some((names, rest))
  {
    var words := NameWords(names) + rest;
    if |names| == 1 {
      LastHasNoComma(names[0]);
      InnerIs("'", names[0], "'");
      assert words[0] == "'" + names[0] + "'" && words[1..] == rest && names == [names[0]];
    } else {
      InnerIs("'", names[0], "',");
      NamesRead(names[1..], rest);
      assert words[0] == "'" + names[0] + "'," && words[1..] == NameWords(names[1..]) + rest;
      assert names == [names[0]] + names[1..];
    }
    hide Between, Inner, NameWords;
  }

  lemma {:induction false} NumberReads(n: nat)
    ensures IsNumber("(" + NatText(n) + ")", n)
  {
    NatRoundTrip(n);
    InnerIs("(", NatText(n), ")");
  }

  lemma {:induction false} WordsRead(ls: seq<Line>, n: nat)
    requires forall l :: l in ls ==> l.names != []
    ensures ReadWords(AllWords(ls, n), n) == Some(ls)
    decreases |ls|
  {
    if ls != [] {
      assert ls[0] in ls;
      WordsRead(ls[1..], n + 1);
      LineReads(ls[0], n, AllWords(ls[1..], n + 1), ls[1..]);
      assert ls == [ls[0]] + ls[1..];
    }
  }

  lemma {:induction false} LineReads(l: Line, n: nat, more: seq<string>, ls: seq<Line>)
    requires l.names != [] && ReadWords(more, n + 1) == Some(ls)
    ensures ReadWords(LineWords(l, n) + more, n) == Some([l] + ls)
  {
    hide NatText, NameWords, Between, Inner, IsNumber, ReadNames;
    var words := LineWords(l, n) + more;
    var rest := ["for", "'" + l.resource + "'."] + more;
    NumberReads(n);
    InnerIs("'", l.ns, "':");
    InnerIs("'", l.resource, "'.");
    NamesRead(l.names, rest);
    assert words[0] == "(" + NatText(n) + ")" && words[1] == "'" + l.ns + "':";
    assert words[2..] == NameWords(l.names) + rest && rest[2..] == more;
  }

  /** A line says that names of a namespace are granted for a resource. */
  predicate Says(lines: seq<Line>, resource: string, ability: Ability) {
    exists l :: l in lines && l.resource == resource && l.ns == ability.ns && ability.name in l.names
  }

  predicate Grants(c: Capability, resource: string, ability: Ability) {
    exists t, x :: t in c.targets && t.resource == resource && x in t.grants && x.ability == ability
  }

  /** URIs and abilities hold no spaces. */
  predicate SpacelessCapability(c: Capability) {
    forall t :: t in c.targets ==> Free(' ', t.resource) && forall x :: x in t.grants ==>
      Free(' ', x.ability.ns) && Free(' ', x.ability.name)
  }

  lemma LineSpaceless(c: Capability, l: Line)
    requires SpacelessCapability(c) && l in LineGroups(c.targets)
    ensures Spaceless(l)
  {
    hide LineGroups, Free;
    LineGranted(c.targets, l);
    var t :| t in c.targets && t.resource == l.resource && forall n :: n in l.names ==> Granted(t.grants, l.ns, n);
    assert l.names[0] in l.names;
  }

  lemma HeadingSplits(body: string)
    ensures HasPrefix(STATEMENT + body, HEADING) && (STATEMENT + body)[|HEADING|..] == body
  {
    assert STATEMENT == HEADING;
    assert (STATEMENT + body)[..|HEADING|] == HEADING;
  }

  /** The statement reads as the lines it was made from. */
  lemma StatementReads(c: Capability)
    requires SpacelessCapability(c)
    ensures ReadStatement(Statement(c)) == Some(LineGroups(c.targets))
  {
    hide LineGroups, Numbered, AllWords, SpacelessCapability, ReadWords, Split, Join, HasPrefix;
    var ls := LineGroups(c.targets);
    var body := Numbered(ls, 1);
    HeadingSplits(body);
    forall l | l in ls ensures Spaceless(l) {
      LineSpaceless(c, l);
    }
    if ls == [] {
      NothingNumbered();
    } else {
      AllWordsFree(ls, 1);
      NumberedJoin(ls, 1);
      SplitJoin(AllWords(ls, 1), ' ');
      WordsRead(ls, 1);
      assert body[1..] == Join(AllWords(ls, 1), ' ');
    }
  }

  lemma NothingNumbered()
    ensures Numbered([], 1) == ""
  {
  }

  /** Read back, the statement says exactly what the capability grants. */
  lemma StatementSaysGrants(c: Capability, resource: string, ability: Ability)
    requires SpacelessCapability(c)
    ensures ReadStatement(Statement(c)).Some?
    ensures Says(ReadStatement(Statement(c)).value, resource, ability) <==> Grants(c, resource, ability)
  {
    hide LineGroups, ReadStatement, Statement;
    StatementReads(c);
    var ls := LineGroups(c.targets);
    if Says(ls, resource, ability) {
      var l :| l in ls && l.resource == resource && l.ns == ability.ns && ability.name in l.names;
      LineGranted(c.targets, l);
    }
    if Grants(c, resource, ability) {
      var t, x :| t in c.targets && t.resource == resource && x in t.grants && x.ability == ability;
      GrantOnLine(c.targets, t, x);
    }
  }

  /** A message whose capability passes the check shows, at the end of its statement, exactly what it grants. */
  lemma VerifiedStatementSays(codec: Codec, m: Message, c: Capability, resource: string, ability: Ability)
    requires ExtractAndVerify(codec, m) == Found(c) && SpacelessCapability(c)
    ensures m.statement.Some? && |Statement(c)| <= |m.statement.value|
    ensures var shown := m.statement.value[|m.statement.value| - |Statement(c)|..];
            && ReadStatement(shown).Some?
            && (Says(ReadStatement(shown).value, resource, ability) <==> Grants(c, resource, ability))
  {
    hide ReadStatement, Statement, Says, Grants, Extract;
    StatementSaysGrants(c, resource, ability);
  }
}
