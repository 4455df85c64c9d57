/** Cutting text at a separator and putting it together again. */
module Splitting {
  import opened Order

  predicate Free(sep: char, s: string) {
    sep !in s
  }

  /** `str::split` on one character: there is always at least one part. */
  function Split(s: string, sep: char): (parts: seq<string>)
    ensures parts != [] && forall i :: 0 <= i < |parts| ==> Free(sep, parts[i])
  {
    if s == [] then [[]]
    else
      var rest := Split(s[1..], sep);
      if s[0] == sep then [[]] + rest else [[s[0]] + rest[0]] + rest[1..]
  }

  function Join(parts: seq<string>, sep: char): string
    requires parts != []
  {
    if |parts| == 1 then parts[0] else parts[0] + [sep] + Join(parts[1..], sep)
  }

  lemma {:induction false} SplitFree(s: string, sep: char)
    requires Free(sep, s)
    ensures Split(s, sep) == [s]
  {
    if s != [] {
      SplitFree(s[1..], sep);
      assert s == [s[0]] + s[1..];
    }
  }

  lemma {:induction false} SplitHead(a: string, s: string, sep: char)
    requires Free(sep, a)
    ensures Split(a + [sep] + s, sep) == [a] + Split(s, sep)
  {
    var t := a + [sep] + s;
    if a == [] {
      assert t[1..] == s;
    } else {
      SplitHead(a[1..], s, sep);
      assert t[1..] == a[1..] + [sep] + s;
      assert a == [a[0]] + a[1..];
    }
  }

  lemma {:induction false} SplitJoin(parts: seq<string>, sep: char)
    requires parts != [] && forall i :: 0 <= i < |parts| ==> Free(sep, parts[i])
    ensures Split(Join(parts, sep), sep) == parts
  {
    if |parts| == 1 {
      SplitFree(parts[0], sep);
    } else {
      SplitJoin(parts[1..], sep);
      SplitHead(parts[0], Join(parts[1..], sep), sep);
      assert parts == [parts[0]] + parts[1..];
    }
  }

  lemma {:induction false} JoinSplit(s: string, sep: char)
    ensures Join(Split(s, sep), sep) == s
  {
    if s != [] {
      JoinSplit(s[1..], sep);
      var rest := Split(s[1..], sep);
      if s[0] == sep {
        assert ([[]] + rest)[1..] == rest;
      } else {
        var parts := [[s[0]] + rest[0]] + rest[1..];
        assert parts[1..] == rest[1..];
      }
      assert s == [s[0]] + s[1..];
    }
  }

  predicate HasPrefix(s: string, p: string) {
    |p| <= |s| && s[..|p|] == p
  }

  function StripSuffix(s: string, p: string): (r: string)
    requires HasSuffix(s, p)
    ensures s == r + p
  {
    s[..|s| - |p|]
  }

  predicate HasSuffix(s: string, p: string) {
    |p| <= |s| && s[|s| - |p|..] == p
  }

  /** `split_once`: the text around the first separator. */
  function SplitOnce(s: string, sep: char): (r: Option<(string, string)>)
    ensures r.None? <==> Free(sep, s)
    ensures r.Some? ==> s == r.value.0 + [sep] + r.value.1 && Free(sep, r.value.0)
  {
    if s == [] then None
    else if s[0] == sep then Some(("", s[1..]))
    else match SplitOnce(s[1..], sep)
      case None => None
      case Some((a, b)) => Some(([s[0]] + a, b))
  }

  /** `rsplit_once`: the text around the last separator. */
  function RSplitOnce(s: string, sep: char): (r: Option<(string, string)>)
    ensures r.None? <==> Free(sep, s)
    ensures r.Some? ==> s == r.value.0 + [sep] + r.value.1 && Free(sep, r.value.1)
  {
    if s == [] then None
    else if s[|s| - 1] == sep then Some((s[..|s| - 1], ""))
    else match RSplitOnce(s[..|s| - 1], sep)
      case None => None
      case Some((a, b)) => Some((a, b + [s[|s| - 1]]))
  }

  /** Where the first separator stands decides the split. */
  lemma {:induction false} SplitOnceIs(a: string, b: string, sep: char)
    requires Free(sep, a)
    ensures SplitOnce(a + [sep] + b, sep) == Some((a, b))
  {
    var s := a + [sep] + b;
    assert s[|a|] == sep;
    var (x, y) := SplitOnce(s, sep).value;
    FirstSeparator(a, b, x, y, sep);
  }

  lemma FirstSeparator(a: string, b: string, x: string, y: string, sep: char)
    requires Free(sep, a) && Free(sep, x) && a + [sep] + b == x + [sep] + y
    ensures a == x && b == y
  {
    var s, t := a + [sep] + b, x + [sep] + y;
    assert s[|a|] == sep && t[|x|] == sep;
    assert (forall i :: 0 <= i < |a| ==> s[i] != sep) && (forall i :: 0 <= i < |x| ==> t[i] != sep);
    assert a == s[..|a|] && x == t[..|x|] && b == s[|a| + 1..] && y == t[|x| + 1..];
  }

  lemma {:induction false} RSplitOnceIs(a: string, b: string, sep: char)
    requires Free(sep, b)
    ensures RSplitOnce(a + [sep] + b, sep) == Some((a, b))
  {
    var s := a + [sep] + b;
    assert s[|a|] == sep;
    var (x, y) := RSplitOnce(s, sep).value;
    LastSeparator(a, b, x, y, sep);
  }

  lemma LastSeparator(a: string, b: string, x: string, y: string, sep: char)
    requires Free(sep, b) && Free(sep, y) && a + [sep] + b == x + [sep] + y
    ensures a == x && b == y
  {
    var s, t := a + [sep] + b, x + [sep] + y;
    assert s[|a|] == sep && t[|x|] == sep;
    assert (forall i :: |a| < i < |s| ==> s[i] != sep) && (forall i :: |x| < i < |t| ==> t[i] != sep);
    assert a == s[..|a|] && x == t[..|x|] && b == s[|a| + 1..] && y == t[|x| + 1..];
  }

  lemma ConcatAssociates<T>(a: seq<T>, b: seq<T>, c: seq<T>)
    ensures a + b + c == a + (b + c)
  {
  }
}
