/** Orders on the values the node sorts: digests, strings and sequences of code units. */
module Order {

  /** A digest read as a big-endian number: comparing numbers compares digests byte by byte. */
  type Hash = nat

  datatype Option<+T> = None | Some(value: T)

  /** Lexicographic order: the order of Rust's slices, vectors and iterators. */
  predicate LexLess(a: seq<int>, b: seq<int>) {
    b != [] && (a == [] || a[0] < b[0] || (a[0] == b[0] && LexLess(a[1..], b[1..])))
  }

  lemma {:induction false} LexIrreflexive(a: seq<int>)
    ensures !LexLess(a, a)
  {
    if a != [] {
      LexIrreflexive(a[1..]);
    }
  }

  lemma {:induction false} LexTransitive(a: seq<int>, b: seq<int>, c: seq<int>)
    requires LexLess(a, b) && LexLess(b, c)
    ensures LexLess(a, c)
  {
    if a != [] && a[0] == b[0] == c[0] {
      LexTransitive(a[1..], b[1..], c[1..]);
    }
  }

  lemma {:induction false} LexTotal(a: seq<int>, b: seq<int>)
    ensures LexLess(a, b) || a == b || LexLess(b, a)
  {
    if a != [] && b != [] && a[0] == b[0] {
      LexTotal(a[1..], b[1..]);
      assert a == [a[0]] + a[1..] && b == [b[0]] + b[1..];
    }
  }

  /** The scalar values of a string, in order. */
  function Codes(s: string): (r: seq<int>)
    ensures |r| == |s|
    ensures forall i :: 0 <= i < |s| ==> r[i] == s[i] as int
  {
    seq(|s|, i requires 0 <= i < |s| => s[i] as int)
  }

  lemma CodesInjective(a: string, b: string)
    requires Codes(a) == Codes(b)
    ensures a == b
  {
    assert forall i :: 0 <= i < |a| ==> a[i] as int == Codes(a)[i] && b[i] as int == Codes(b)[i];
  }

  /** The order of Rust strings: UTF-8 bytes compare as scalar values do. */
  predicate StringLess(a: string, b: string) {
    LexLess(Codes(a), Codes(b))
  }

  lemma StringOrder(a: string, b: string, c: string)
    ensures !StringLess(a, a)
    ensures StringLess(a, b) && StringLess(b, c) ==> StringLess(a, c)
    ensures StringLess(a, b) || a == b || StringLess(b, a)
  {
    LexIrreflexive(Codes(a));
    if StringLess(a, b) && StringLess(b, c) {
      LexTransitive(Codes(a), Codes(b), Codes(c));
    }
    LexTotal(Codes(a), Codes(b));
    if Codes(a) == Codes(b) {
      CodesInjective(a, b);
    }
  }

  predicate Ascending(s: seq<Hash>) {
    forall i, j :: 0 <= i < j < |s| ==> s[i] < s[j]
  }

  /** Insertion into a strictly ascending list, dropping a repeated digest. */
  function InsertHash(h: Hash, s: seq<Hash>): (r: seq<Hash>)
    requires Ascending(s)
    ensures Ascending(r)
    ensures forall x :: x in r <==> x == h || x in s
  {
    if s == [] || h < s[0] then [h] + s
    else if h == s[0] then s
    else
      var r := [s[0]] + InsertHash(h, s[1..]);
      assert forall j :: 1 <= j < |r| ==> r[j] in InsertHash(h, s[1..]);
      r
  }

  /** `sort` followed by `dedup`. */
  function SortHashes(s: seq<Hash>): (r: seq<Hash>)
    ensures Ascending(r)
    ensures forall x :: x in r <==> x in s
  {
    if s == [] then [] else
      assert forall x :: x in s <==> x == s[0] || x in s[1..];
      InsertHash(s[0], SortHashes(s[1..]))
  }
}
