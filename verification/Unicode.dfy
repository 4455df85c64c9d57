/** The two encodings whose order and injectivity the node relies on: UTF-8 and UTF-16. */
module Unicode {
  import opened Order
  import opened Splitting

  function Utf8Char(c: char): seq<int> {
    var n := c as int;
    if n < 0x80 then [n]
    else if n < 0x800 then [0xC0 + n / 64, 0x80 + n % 64]
    else if n < 0x10000 then [0xE0 + n / 4096, 0x80 + n / 64 % 64, 0x80 + n % 64]
    else [0xF0 + n / 262144, 0x80 + n / 4096 % 64, 0x80 + n / 64 % 64, 0x80 + n % 64]
  }

  function Utf16Char(c: char): seq<int> {
    var n := c as int;
    if n < 0x10000 then [n] else [0xD800 + (n - 0x10000) / 0x400, 0xDC00 + (n - 0x10000) % 0x400]
  }

  function Utf8(s: string): seq<int> {
    if s == [] then [] else Utf8Char(s[0]) + Utf8(s[1..])
  }

  function Utf16(s: string): seq<int> {
    if s == [] then [] else Utf16Char(s[0]) + Utf16(s[1..])
  }

  /** The first is smaller at the first unit where they differ, which both have. */
  predicate Below(a: seq<int>, b: seq<int>) {
    a != [] && b != [] && (a[0] < b[0] || (a[0] == b[0] && Below(a[1..], b[1..])))
  }

  lemma {:induction false} BelowExtends(a: seq<int>, b: seq<int>, r: seq<int>, q: seq<int>)
    requires Below(a, b)
    ensures LexLess(a + r, b + q)
  {
    if a[0] == b[0] {
      BelowExtends(a[1..], b[1..], r, q);
      assert (a + r)[1..] == a[1..] + r && (b + q)[1..] == b[1..] + q;
    }
  }

  lemma {:induction false} LexExtends(p: seq<int>, a: seq<int>, b: seq<int>)
    requires LexLess(a, b)
    ensures LexLess(p + a, p + b)
  {
    if p == [] {
      assert p + a == a && p + b == b;
    } else {
      LexExtends(p[1..], a, b);
      assert (p + a)[1..] == p[1..] + a && (p + b)[1..] == p[1..] + b;
    }
  }

  lemma Below2(a: int, b: int, c: int, d: int)
    requires a < c || (a == c && b < d)
    ensures Below([a, b], [c, d])
  {
    assert [a, b][1..] == [b] && [c, d][1..] == [d];
  }

  lemma {:induction false} BelowTail(a: int, s: seq<int>, b: int, t: seq<int>)
    requires a < b || (a == b && Below(s, t))
    ensures Below([a] + s, [b] + t)
  {
    assert ([a] + s)[1..] == s && ([b] + t)[1..] == t;
  }

  lemma Digit(m: int, n: int)
    requires 0 <= m < n
    ensures m / 64 < n / 64 || (m / 64 == n / 64 && m % 64 < n % 64)
  {
  }

  lemma Quotients(n: int)
    requires n >= 0
    ensures n / 64 / 64 == n / 4096 && n / 4096 / 64 == n / 262144
  {
  }

  lemma TwoDigits(m: int, n: int)
    requires 0 <= m < n
    ensures m / 4096 < n / 4096 || (m / 4096 == n / 4096 &&
            Below([0x80 + m / 64 % 64, 0x80 + m % 64], [0x80 + n / 64 % 64, 0x80 + n % 64]))
  {
    Digit(m, n);
    Quotients(m);
    Quotients(n);
    if m / 64 < n / 64 {
      Digit(m / 64, n / 64);
    }
    if m / 4096 == n / 4096 {
      Below2(0x80 + m / 64 % 64, 0x80 + m % 64, 0x80 + n / 64 % 64, 0x80 + n % 64);
    }
  }

  lemma ThreeBytes(c: char, d: char)
    requires c < d && |Utf8Char(c)| == |Utf8Char(d)| == 3
    ensures Below(Utf8Char(c), Utf8Char(d))
  {
    var m, n := c as int, d as int;
    TwoDigits(m, n);
    var s, t := [0x80 + m / 64 % 64, 0x80 + m % 64], [0x80 + n / 64 % 64, 0x80 + n % 64];
    BelowTail(0xE0 + m / 4096, s, 0xE0 + n / 4096, t);
    assert Utf8Char(c) == [0xE0 + m / 4096] + s && Utf8Char(d) == [0xE0 + n / 4096] + t;
  }

  lemma FourBytes(c: char, d: char)
    requires c < d && |Utf8Char(c)| == |Utf8Char(d)| == 4
    ensures Below(Utf8Char(c), Utf8Char(d))
  {
    var m, n := c as int, d as int;
    TwoDigits(m, n);
    Quotients(m);
    Quotients(n);
    var s, t := [0x80 + m / 64 % 64, 0x80 + m % 64], [0x80 + n / 64 % 64, 0x80 + n % 64];
    if m / 4096 < n / 4096 {
      Digit(m / 4096, n / 4096);
    }
    if m / 262144 == n / 262144 {
      BelowTail(0x80 + m / 4096 % 64, s, 0x80 + n / 4096 % 64, t);
    }
    BelowTail(0xF0 + m / 262144, [0x80 + m / 4096 % 64] + s, 0xF0 + n / 262144, [0x80 + n / 4096 % 64] + t);
    assert Utf8Char(c) == [0xF0 + m / 262144] + ([0x80 + m / 4096 % 64] + s);
    assert Utf8Char(d) == [0xF0 + n / 262144] + ([0x80 + n / 4096 % 64] + t);
  }

  /** A longer code starts with a greater byte; codes of one length hold base-64 digits. */
  lemma Utf8CharOrder(c: char, d: char)
    requires c < d
    ensures Below(Utf8Char(c), Utf8Char(d))
  {
    if |Utf8Char(c)| == |Utf8Char(d)| == 4 {
      FourBytes(c, d);
    } else if |Utf8Char(c)| == |Utf8Char(d)| == 3 {
      ThreeBytes(c, d);
    } else if |Utf8Char(c)| == |Utf8Char(d)| == 2 {
      Digit(c as int, d as int);
      Below2(Utf8Char(c)[0], Utf8Char(c)[1], Utf8Char(d)[0], Utf8Char(d)[1]);
    }
  }

  /** UTF-8 keeps the order of scalar values, so Rust's byte order on strings is `StringLess`. */
  lemma {:induction false} Utf8KeepsOrder(a: string, b: string)
    requires LexLess(Codes(a), Codes(b))
    ensures LexLess(Utf8(a), Utf8(b))
  {
    if a == [] {
      Utf8NotEmpty(b);
    } else {
      assert Codes(a)[1..] == Codes(a[1..]) && Codes(b)[1..] == Codes(b[1..]);
      if a[0] == b[0] {
        Utf8KeepsOrder(a[1..], b[1..]);
        LexExtends(Utf8Char(a[0]), Utf8(a[1..]), Utf8(b[1..]));
      } else {
        Utf8CharOrder(a[0], b[0]);
        BelowExtends(Utf8Char(a[0]), Utf8Char(b[0]), Utf8(a[1..]), Utf8(b[1..]));
      }
    }
  }

  lemma {:induction false} Utf8NotEmpty(s: string)
    requires s != []
    ensures Utf8(s) != [] && Utf16(s) != []
  {
    assert |Utf8(s)| == |Utf8Char(s[0])| + |Utf8(s[1..])|;
    assert |Utf16(s)| == |Utf16Char(s[0])| + |Utf16(s[1..])|;
  }

  lemma {:induction false} Utf8Order(a: string, b: string)
    ensures LexLess(Utf8(a), Utf8(b)) <==> StringLess(a, b)
    ensures Utf8(a) == Utf8(b) ==> a == b
  {
    StringOrder(a, b, a);
    LexIrreflexive(Utf8(a));
    if StringLess(a, b) {
      Utf8KeepsOrder(a, b);
    } else if StringLess(b, a) {
      Utf8KeepsOrder(b, a);
      if LexLess(Utf8(a), Utf8(b)) {
        LexTransitive(Utf8(a), Utf8(b), Utf8(a));
      }
    }
  }

  lemma {:induction false} Utf8Concat(a: string, b: string)
    ensures Utf8(a + b) == Utf8(a) + Utf8(b)
  {
    if a == [] {
      assert a + b == b;
    } else {
      hide Utf8Char;
      Utf8Concat(a[1..], b);
      assert (a + b)[1..] == a[1..] + b && (a + b)[0] == a[0];
      ConcatAssociates(Utf8Char(a[0]), Utf8(a[1..]), Utf8(b));
    }
  }

  /** The scalar values that UTF-16 orders after the surrogate pairs of greater ones. */
  predicate Upper(c: char) {
    0xE000 <= c as int < 0x10000
  }

  predicate Utf16Before(c: char, d: char) {
    if Upper(c) && d as int >= 0x10000 then false
    else if Upper(d) && c as int >= 0x10000 then true
    else c < d
  }

  lemma Utf16CharOrder(c: char, d: char)
    requires Utf16Before(c, d)
    ensures Below(Utf16Char(c), Utf16Char(d))
  {
    if c as int >= 0x10000 && d as int >= 0x10000 {
      Pairs(c as int - 0x10000, d as int - 0x10000);
    }
  }

  lemma Pairs(m: int, n: int)
    requires 0 <= m < n
    ensures m / 0x400 < n / 0x400 || (m / 0x400 == n / 0x400 && m % 0x400 < n % 0x400)
  {
  }

  /** The order of `encode_utf16().cmp`. */
  predicate Utf16Less(a: string, b: string) {
    LexLess(Utf16(a), Utf16(b))
  }

  lemma {:induction false} Utf16Total(a: string, b: string)
    ensures a == b || Utf16Less(a, b) || Utf16Less(b, a)
    ensures !(Utf16Less(a, b) && Utf16Less(b, a)) && !Utf16Less(a, a)
    decreases |a|, 1
  {
    LexIrreflexive(Utf16(a));
    if Utf16Less(a, b) && Utf16Less(b, a) {
      LexTransitive(Utf16(a), Utf16(b), Utf16(a));
    }
    if a == [] || b == [] {
      if a != [] { Utf8NotEmpty(a); }
      if b != [] { Utf8NotEmpty(b); }
    } else {
      Utf16Step(a, b);
    }
  }

  lemma Utf16Step(a: string, b: string)
    requires a != [] && b != []
    ensures a == b || Utf16Less(a, b) || Utf16Less(b, a)
    decreases |a|, 0
  {
    if a[0] == b[0] {
      Utf16Total(a[1..], b[1..]);
      assert a == [a[0]] + a[1..] && b == [b[0]] + b[1..];
      if Utf16Less(a[1..], b[1..]) {
        LexExtends(Utf16Char(a[0]), Utf16(a[1..]), Utf16(b[1..]));
      } else if Utf16Less(b[1..], a[1..]) {
        LexExtends(Utf16Char(a[0]), Utf16(b[1..]), Utf16(a[1..]));
      }
    } else if Utf16Before(a[0], b[0]) {
      Utf16CharOrder(a[0], b[0]);
      BelowExtends(Utf16Char(a[0]), Utf16Char(b[0]), Utf16(a[1..]), Utf16(b[1..]));
    } else {
      Utf16CharOrder(b[0], a[0]);
      BelowExtends(Utf16Char(b[0]), Utf16Char(a[0]), Utf16(b[1..]), Utf16(a[1..]));
    }
  }

  /** One of U+E000 to U+FFFF against one from U+10000 up: the pairs UTF-16 and UTF-8 order differently. */
  predicate Crossing(c: char, d: char) {
    (Upper(c) && d as int >= 0x10000) || (Upper(d) && c as int >= 0x10000)
  }

  /** The first characters in which the strings differ are such a pair. */
  predicate Crossed(a: string, b: string) {
    a != [] && b != [] && (if a[0] == b[0] then Crossed(a[1..], b[1..]) else Crossing(a[0], b[0]))
  }

  lemma {:induction false} CrossedSymmetric(a: string, b: string)
    ensures Crossed(a, b) <==> Crossed(b, a)
  {
    if a != [] && b != [] && a[0] == b[0] {
      CrossedSymmetric(a[1..], b[1..]);
    }
  }

  /** UTF-16 keeps the order of two strings, or turns it round when they are crossed. */
  lemma {:induction false} Utf16Follows(a: string, b: string)
    requires StringLess(a, b)
    ensures if Crossed(a, b) then Utf16Less(b, a) else Utf16Less(a, b)
  {
    if a == [] {
      Utf8NotEmpty(b);
    } else {
      assert Codes(a)[1..] == Codes(a[1..]) && Codes(b)[1..] == Codes(b[1..]);
      assert Codes(a)[0] == a[0] as int && Codes(b)[0] == b[0] as int;
      if a[0] == b[0] {
        Utf16Follows(a[1..], b[1..]);
        if Crossed(a, b) {
          LexExtends(Utf16Char(a[0]), Utf16(b[1..]), Utf16(a[1..]));
        } else {
          LexExtends(Utf16Char(a[0]), Utf16(a[1..]), Utf16(b[1..]));
        }
      } else if Crossed(a, b) {
        Utf16CharOrder(b[0], a[0]);
        BelowExtends(Utf16Char(b[0]), Utf16Char(a[0]), Utf16(b[1..]), Utf16(a[1..]));
      } else {
        Utf16CharOrder(a[0], b[0]);
        BelowExtends(Utf16Char(a[0]), Utf16Char(b[0]), Utf16(a[1..]), Utf16(b[1..]));
      }
    }
  }

  lemma {:induction false} CrossedDiffer(a: string)
    ensures !Crossed(a, a)
  {
    if a != [] {
      CrossedDiffer(a[1..]);
    }
  }

  /** Both encodings order two strings alike exactly when they are not crossed. */
  lemma {:induction false} OrdersAgreeIff(a: string, b: string)
    ensures (Utf16Less(a, b) <==> StringLess(a, b)) <==> !Crossed(a, b)
  {
    StringOrder(a, b, a);
    Utf16Total(a, b);
    CrossedDiffer(a);
    CrossedSymmetric(a, b);
    if StringLess(a, b) {
      Utf16Follows(a, b);
    } else if StringLess(b, a) {
      Utf16Follows(b, a);
    }
  }

  predicate NoUpper(s: string) {
    forall i :: 0 <= i < |s| ==> !Upper(s[i])
  }

  lemma {:induction false} NoUpperUncrossed(a: string, b: string)
    requires NoUpper(a) && NoUpper(b)
    ensures !Crossed(a, b)
  {
    if a != [] && b != [] && a[0] == b[0] {
      NoUpperUncrossed(a[1..], b[1..]);
    }
  }

  // ---- Both encodings are read back ----

  predicate Tail(b: int) {
    0x80 <= b < 0xC0
  }

  function Then(n: int, r: Option<string>): Option<string>
    requires 0 <= n < 0xD800 || 0xE000 <= n < 0x110000
  {
    if r.None? then None else Some([n as char] + r.value)
  }

  /** Section 4 of RFC 3629: the shortest form of each scalar value and nothing else. */
  function Utf8Decode(b: seq<int>): Option<string> {
    if b == [] then Some("")
    else if 0 <= b[0] < 0x80 then Then(b[0], Utf8Decode(b[1..]))
    else if 0xC2 <= b[0] < 0xE0 && |b| >= 2 && Tail(b[1]) then
      Then(64 * (b[0] - 0xC0) + (b[1] - 0x80), Utf8Decode(b[2..]))
    else if 0xE0 <= b[0] < 0xF0 && |b| >= 3 && Tail(b[1]) && Tail(b[2]) then
      var n := 4096 * (b[0] - 0xE0) + 64 * (b[1] - 0x80) + (b[2] - 0x80);
      if 0x800 <= n < 0xD800 || 0xE000 <= n then Then(n, Utf8Decode(b[3..])) else None
    else if 0xF0 <= b[0] < 0xF5 && |b| >= 4 && Tail(b[1]) && Tail(b[2]) && Tail(b[3]) then
      var n := 262144 * (b[0] - 0xF0) + 4096 * (b[1] - 0x80) + 64 * (b[2] - 0x80) + (b[3] - 0x80);
      if 0x10000 <= n < 0x110000 then Then(n, Utf8Decode(b[4..])) else None
    else None
  }

  lemma Base64(n: int)
    requires n >= 0
    ensures n == 4096 * (n / 4096) + 64 * (n / 64 % 64) + n % 64
    ensures n == 262144 * (n / 262144) + 4096 * (n / 4096 % 64) + 64 * (n / 64 % 64) + n % 64
  {
    Quotients(n);
    assert n == 64 * (n / 64) + n % 64 && n / 64 == 64 * (n / 64 / 64) + n / 64 % 64;
  }

  lemma {:induction false} LongCharDecodes(c: char, r: seq<int>)
    requires c as int >= 0x10000
    ensures Utf8Decode(Utf8Char(c) + r) == Then(c as int, Utf8Decode(r))
  {
    var n, b := c as int, Utf8Char(c) + r;
    Base64(n);
    assert b[4..] == r && n / 262144 < 5;
    assert b[0] - 0xF0 == n / 262144 && b[1] - 0x80 == n / 4096 % 64 && b[2] - 0x80 == n / 64 % 64;
    assert b[3] - 0x80 == n % 64;
  }

  lemma {:induction false} Utf8CharDecodes(c: char, r: seq<int>)
    ensures Utf8Decode(Utf8Char(c) + r) == Then(c as int, Utf8Decode(r))
  {
    if c as int >= 0x10000 {
      LongCharDecodes(c, r);
    } else {
      Base64(c as int);
      assert (Utf8Char(c) + r)[|Utf8Char(c)|..] == r;
    }
  }

  /** Every string is read back from its UTF-8 bytes. */
  lemma {:induction false} Utf8Decodes(s: string)
    ensures Utf8Decode(Utf8(s)) == Some(s)
  {
    if s != [] {
      hide Utf8Char;
      Utf8CharDecodes(s[0], Utf8(s[1..]));
      Utf8Decodes(s[1..]);
      assert s == [s[0]] + s[1..];
    }
  }

  /** Section 2.2 of RFC 2781: a surrogate pair is a high one and a low one. */
  function Utf16Decode(u: seq<int>): Option<string> {
    if u == [] then Some("")
    else if 0 <= u[0] < 0xD800 || 0xE000 <= u[0] < 0x10000 then Then(u[0], Utf16Decode(u[1..]))
    else if 0xD800 <= u[0] < 0xDC00 && |u| >= 2 && 0xDC00 <= u[1] < 0xE000 then
      Then(0x10000 + 0x400 * (u[0] - 0xD800) + (u[1] - 0xDC00), Utf16Decode(u[2..]))
    else None
  }

  lemma {:induction false} Utf16CharDecodes(c: char, r: seq<int>)
    ensures Utf16Decode(Utf16Char(c) + r) == Then(c as int, Utf16Decode(r))
  {
    var n := c as int - 0x10000;
    assert n >= 0 ==> n == 0x400 * (n / 0x400) + n % 0x400;
    assert (Utf16Char(c) + r)[|Utf16Char(c)|..] == r;
  }

  /** And from its UTF-16 units. */
  lemma {:induction false} Utf16Decodes(s: string)
    ensures Utf16Decode(Utf16(s)) == Some(s)
  {
    if s != [] {
      hide Utf16Char;
      Utf16CharDecodes(s[0], Utf16(s[1..]));
      Utf16Decodes(s[1..]);
      assert s == [s[0]] + s[1..];
    }
  }
}
