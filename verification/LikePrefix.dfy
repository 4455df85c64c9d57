/** SQL LIKE with an escape character, and prefixes escaped for it (tinycloud-core/src/db.rs). */
module LikePrefix {
  import opened Splitting

  const ESC := '!'

  /** Case-sensitive LIKE: `%` matches any text, `_` any character, and `!` takes the next character literally. */
  predicate Like(s: string, p: string)
    decreases |p|
  {
    if p == [] then s == []
    else if p[0] == ESC && |p| > 1 then s != [] && s[0] == p[1] && Like(s[1..], p[2..])
    else if p[0] == '%' then exists i :: 0 <= i <= |s| && Like(s[i..], p[1..])
    else if p[0] == '_' then s != [] && Like(s[1..], p[1..])
    else s != [] && s[0] == p[0] && Like(s[1..], p[1..])
  }

  /** `str::replace` of one character. */
  function Replace(s: string, c: char, with: string): string {
    if s == [] then [] else (if s[0] == c then with else [s[0]]) + Replace(s[1..], c, with)
  }

  /** The three replacements, in the order they are made. */
  function EscapePrefix(prefix: string): string {
    Replace(Replace(Replace(prefix, '!', "!!"), '%', "!%"), '_', "!_")
  }

  lemma {:induction false} ReplaceConcat(a: string, b: string, c: char, with: string)
    ensures Replace(a + b, c, with) == Replace(a, c, with) + Replace(b, c, with)
  {
    if a == [] {
      assert a + b == b;
    } else {
      ReplaceConcat(a[1..], b, c, with);
      assert (a + b)[1..] == a[1..] + b && (a + b)[0] == a[0];
      ReplaceStep(a + b, c, with);
      ReplaceStep(a, c, with);
      hide Replace;
      ConcatAssociates(if a[0] == c then with else [a[0]], Replace(a[1..], c, with), Replace(b, c, with));
    }
  }

  lemma {:induction false} ReplaceStep(s: string, c: char, with: string)
    requires s != []
    ensures Replace(s, c, with) == (if s[0] == c then with else [s[0]]) + Replace(s[1..], c, with)
  {
  }

  function EscapeOne(c: char): string {
    if c == '!' || c == '%' || c == '_' then [ESC, c] else [c]
  }

  lemma {:induction false} ReplaceShort(c: char, d: char, with: string)
    ensures Replace([d], c, with) == if d == c then with else [d]
  {
    assert [d][1..] == [];
  }

  lemma {:induction false} ReplacePair(a: char, b: char, c: char, with: string)
    ensures Replace([a, b], c, with) == Replace([a], c, with) + Replace([b], c, with)
  {
    assert [a, b] == [a] + [b];
    ReplaceConcat([a], [b], c, with);
  }

  /** No later replacement touches what an earlier one put in. */
  lemma EscapeOneIs(c: char)
    ensures EscapePrefix([c]) == EscapeOne(c)
  {
    hide Replace;
    ReplaceShort('!', c, "!!");
    ReplaceShort('%', c, "!%");
    ReplaceShort('_', c, "!_");
    ReplaceShort('%', '!', "!%");
    ReplaceShort('_', '!', "!_");
    ReplaceShort('_', '%', "!_");
    ReplacePair('!', '!', '%', "!%");
    ReplacePair('!', '!', '_', "!_");
    ReplacePair('!', '%', '_', "!_");
    assert ['!'] + ['!'] == "!!" && ['!'] + ['%'] == "!%";
  }

  lemma EscapeStep(prefix: string)
    requires prefix != []
    ensures EscapePrefix(prefix) == EscapeOne(prefix[0]) + EscapePrefix(prefix[1..])
  {
    EscapeOneIs(prefix[0]);
    hide Replace;
    var a, b := [prefix[0]], prefix[1..];
    assert prefix == a + b;
    ReplaceConcat(a, b, '!', "!!");
    ReplaceConcat(Replace(a, '!', "!!"), Replace(b, '!', "!!"), '%', "!%");
    ReplaceConcat(Replace(Replace(a, '!', "!!"), '%', "!%"), Replace(Replace(b, '!', "!!"), '%', "!%"), '_', "!_");
  }

  lemma {:induction false} LikeEscaped(s: string, c: char, rest: string)
    requires rest != []
    ensures Like(s, EscapeOne(c) + rest) <==> s != [] && s[0] == c && Like(s[1..], rest)
  {
    var p := EscapeOne(c) + rest;
    assert p[|EscapeOne(c)|..] == rest;
  }

  /** For every prefix, the escaped pattern followed by `%` matches exactly the texts with that prefix. */
  lemma {:induction false} LikeIffPrefix(s: string, prefix: string)
    ensures Like(s, EscapePrefix(prefix) + "%") <==> HasPrefix(s, prefix)
    decreases |prefix|
  {
    if prefix == [] {
      LikeAnything(s);
    } else {
      EscapeStep(prefix);
      var rest := EscapePrefix(prefix[1..]) + "%";
      assert EscapePrefix(prefix) + "%" == EscapeOne(prefix[0]) + rest;
      LikeEscaped(s, prefix[0], rest);
      hide Like, EscapePrefix, EscapeOne;
      if s != [] {
        LikeIffPrefix(s[1..], prefix[1..]);
        PrefixTail(s, prefix);
      }
    }
  }

  lemma PrefixTail(s: string, prefix: string)
    requires s != [] && prefix != []
    ensures HasPrefix(s, prefix) <==> s[0] == prefix[0] && HasPrefix(s[1..], prefix[1..])
  {
    if |prefix| <= |s| {
      assert s[..|prefix|] == [s[0]] + s[1..][..|prefix| - 1];
      assert prefix == [prefix[0]] + prefix[1..];
    }
  }

  lemma {:induction false} LikeAnything(s: string)
    ensures Like(s, EscapePrefix("") + "%")
  {
    assert EscapePrefix("") + "%" == "%";
    assert s[|s|..] == [];
    assert Like(s[|s|..], "%"[1..]);
  }
}
