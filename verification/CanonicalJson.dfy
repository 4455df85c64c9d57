/** What the RFC 8785 writer and the byte-order writer make of a JSON tree. */
module CanonicalJson {
  import opened Order
  import opened Unicode
  import opened JsonText

  datatype KeyOrder = CodeUnits | Bytes

  predicate Less(o: KeyOrder, a: string, b: string) {
    match o
    case CodeUnits => Utf16Less(a, b)
    case Bytes => StringLess(a, b)
  }

  lemma LessOrder(o: KeyOrder, a: string, b: string, c: string)
    ensures a == b || Less(o, a, b) || Less(o, b, a)
    ensures !(Less(o, a, b) && Less(o, b, a)) && !Less(o, a, a)
    ensures Less(o, a, b) && Less(o, b, c) ==> Less(o, a, c)
  {
    StringOrder(a, b, c);
    StringOrder(a, b, a);
    Utf16Total(a, b);
    if Utf16Less(a, b) && Utf16Less(b, c) {
      LexTransitive(Utf16(a), Utf16(b), Utf16(c));
    }
  }

  predicate Distinct(ms: seq<Member>) {
    forall i, j :: 0 <= i < j < |ms| ==> ms[i].key != ms[j].key
  }

  predicate Sorted(o: KeyOrder, ms: seq<Member>) {
    forall i, j :: 0 <= i < j < |ms| ==> Less(o, ms[i].key, ms[j].key)
  }

  function Insert(o: KeyOrder, m: Member, ms: seq<Member>): (r: seq<Member>)
    ensures |r| == |ms| + 1 && forall x :: x in r <==> x == m || x in ms
  {
    if ms == [] || !Less(o, ms[0].key, m.key) then [m] + ms
    else
      assert forall x :: x in ms <==> x == ms[0] || x in ms[1..];
      [ms[0]] + Insert(o, m, ms[1..])
  }

  function Sort(o: KeyOrder, ms: seq<Member>): (r: seq<Member>)
    ensures |r| == |ms| && forall x :: x in r <==> x in ms
  {
    if ms == [] then []
    else
      assert forall x :: x in ms <==> x == ms[0] || x in ms[1..];
      Insert(o, ms[0], Sort(o, ms[1..]))
  }

  lemma {:induction false} InsertSorted(o: KeyOrder, m: Member, ms: seq<Member>)
    requires Sorted(o, ms) && forall x :: x in ms ==> x.key != m.key
    ensures Sorted(o, Insert(o, m, ms))
  {
    hide Less;
    if ms != [] {
      var r := Insert(o, m, ms);
      LessOrder(o, ms[0].key, m.key, m.key);
      if Less(o, ms[0].key, m.key) {
        var rest := Insert(o, m, ms[1..]);
        InsertSorted(o, m, ms[1..]);
        forall i, j | 0 <= i < j < |r| ensures Less(o, r[i].key, r[j].key) {
          assert r[j] == rest[j - 1] && rest[j - 1] in rest;
          if i > 0 {
            assert r[i] == rest[i - 1];
          }
        }
      } else {
        forall i, j | 0 <= i < j < |r| ensures Less(o, r[i].key, r[j].key) {
          assert r[j] == ms[j - 1];
          if i > 0 {
            assert r[i] == ms[i - 1];
          } else if j > 1 {
            LessOrder(o, m.key, ms[0].key, ms[j - 1].key);
          }
        }
      }
    }
  }

  lemma {:induction false} SortSorted(o: KeyOrder, ms: seq<Member>)
    requires Distinct(ms)
    ensures Sorted(o, Sort(o, ms))
  {
    if ms != [] {
      SortSorted(o, ms[1..]);
      InsertSorted(o, ms[0], Sort(o, ms[1..]));
    }
  }

  /** A set of members has one sorted listing. */
  lemma {:induction false} SortedUnique(o: KeyOrder, a: seq<Member>, b: seq<Member>)
    requires Sorted(o, a) && Sorted(o, b) && forall x :: x in a <==> x in b
    ensures a == b
  {
    hide Less;
    assert (a == [] || a[0] in a) && (b == [] || b[0] in b);
    if a != [] && b != [] {
      LessOrder(o, a[0].key, b[0].key, a[0].key);
      assert a[0] == b[0];
      forall x ensures x in a[1..] <==> x in b[1..] {
        TailHas(o, a, x);
        TailHas(o, b, x);
      }
      SortedUnique(o, a[1..], b[1..]);
      assert a == [a[0]] + a[1..] && b == [b[0]] + b[1..];
    }
  }

  lemma TailHas(o: KeyOrder, a: seq<Member>, x: Member)
    requires Sorted(o, a) && a != []
    ensures x in a[1..] <==> x in a && x != a[0]
  {
    LessOrder(o, x.key, x.key, x.key);
    if x in a[1..] {
      var i :| 0 <= i < |a[1..]| && a[1..][i] == x;
      assert a[i + 1] == x;
    }
  }

  // ---- What a tree means, and its normal form ----

  /** A tree up to the order of members. */
  datatype Tree =
    | TNull
    | TBool(b: bool)
    | TNum(n: Number)
    | TStr(s: string)
    | TArr(items: seq<Tree>)
    | TObj(fields: map<string, Tree>)

  function Meaning(v: Json): Tree
    decreases v
  {
    match v
    case Null => TNull
    case Bool(b) => TBool(b)
    case Num(n) => TNum(n)
    case Str(s) => TStr(s)
    case Arr(items) => TArr(seq(|items|, i requires 0 <= i < |items| => Meaning(items[i])))
    case Obj(ms) => TObj(Fields(ms))
  }

  function Fields(ms: seq<Member>): map<string, Tree>
    decreases ms
  {
    if ms == [] then map[] else Fields(ms[1..])[ms[0].key := Meaning(ms[0].value)]
  }

  /** As serde_json builds them: numbers in range, no key twice in an object. */
  predicate Valid(v: Json)
    decreases v
  {
    match v
    case Num(n) => ValidNumber(n)
    case Arr(items) => forall i :: 0 <= i < |items| ==> Valid(items[i])
    case Obj(ms) => Distinct(ms) && forall i :: 0 <= i < |ms| ==> Valid(ms[i].value)
    case _ => true
  }

  /** Every object with its members in key order. */
  function Normal(o: KeyOrder, v: Json): Json
    decreases v
  {
    match v
    case Arr(items) => Arr(seq(|items|, i requires 0 <= i < |items| => Normal(o, items[i])))
    case Obj(ms) => Obj(Sort(o, NormalMembers(o, ms)))
    case _ => v
  }

  function NormalMembers(o: KeyOrder, ms: seq<Member>): (r: seq<Member>)
    ensures |r| == |ms| && forall i :: 0 <= i < |ms| ==> r[i] == Member(ms[i].key, Normal(o, ms[i].value))
    decreases ms
  {
    seq(|ms|, i requires 0 <= i < |ms| => Member(ms[i].key, Normal(o, ms[i].value)))
  }

  lemma {:induction false} FieldsAt(ms: seq<Member>, i: nat)
    requires Distinct(ms) && i < |ms|
    ensures ms[i].key in Fields(ms) && Fields(ms)[ms[i].key] == Meaning(ms[i].value)
  {
    if i > 0 {
      assert ms[1..][i - 1] == ms[i];
      FieldsAt(ms[1..], i - 1);
    }
  }

  lemma {:induction false} FieldsKeys(ms: seq<Member>, k: string)
    ensures k in Fields(ms) <==> exists i :: 0 <= i < |ms| && ms[i].key == k
  {
    if ms != [] {
      FieldsKeys(ms[1..], k);
      if i :| 0 <= i < |ms| && ms[i].key == k {
        if i > 0 {
          assert ms[1..][i - 1].key == k;
        } else {
          assert ms[0].key == k;
        }
      }
      if i :| 0 <= i < |ms[1..]| && ms[1..][i].key == k {
        assert ms[i + 1].key == k;
      }
    }
  }

  /** With distinct keys, the order of the members does not matter. */
  lemma {:induction false} FieldsDetermined(a: seq<Member>, b: seq<Member>)
    requires Distinct(a) && Distinct(b) && forall m :: m in a <==> m in b
    ensures Fields(a) == Fields(b)
  {
    hide Meaning, Fields;
    forall k ensures k in Fields(a) <==> k in Fields(b) {
      if k in Fields(a) {
        KeysAlike(a, b, k);
      }
      if k in Fields(b) {
        KeysAlike(b, a, k);
      }
    }
    forall k | k in Fields(a) ensures Fields(a)[k] == Fields(b)[k] {
      FieldsKeys(a, k);
      var i :| 0 <= i < |a| && a[i].key == k;
      FieldsAt(a, i);
      assert a[i] in b;
      var j :| 0 <= j < |b| && b[j] == a[i];
      FieldsAt(b, j);
    }
  }

  lemma {:induction false} KeysAlike(a: seq<Member>, b: seq<Member>, k: string)
    requires (forall m :: m in a ==> m in b) && k in Fields(a)
    ensures k in Fields(b)
  {
    FieldsKeys(a, k);
    FieldsKeys(b, k);
    var i :| 0 <= i < |a| && a[i].key == k;
    assert a[i] in b;
  }

  lemma SortedDistinct(o: KeyOrder, ms: seq<Member>)
    requires Sorted(o, ms)
    ensures Distinct(ms)
  {
    forall i, j | 0 <= i < j < |ms| ensures ms[i].key != ms[j].key {
      LessOrder(o, ms[i].key, ms[j].key, ms[i].key);
    }
  }

  /** Normalising keeps the meaning and readability. */
  lemma {:induction false} NormalMeans(o: KeyOrder, v: Json)
    requires Valid(v)
    ensures Meaning(Normal(o, v)) == Meaning(v) && Readable(Normal(o, v))
    decreases v
  {
    match v
    case Arr(items) =>
      forall i | 0 <= i < |items|
        ensures Meaning(Normal(o, items[i])) == Meaning(items[i]) && Readable(Normal(o, items[i]))
      {
        NormalMeans(o, items[i]);
      }
    case Obj(ms) =>
      forall i | 0 <= i < |ms|
        ensures Meaning(Normal(o, ms[i].value)) == Meaning(ms[i].value) && Readable(Normal(o, ms[i].value))
      {
        NormalMeans(o, ms[i].value);
      }
      NormalMembersMean(o, ms);
    case _ =>
  }

  lemma {:induction false} FieldsPointwise(a: seq<Member>, b: seq<Member>)
    requires |a| == |b| && forall i :: 0 <= i < |a| ==>
             a[i].key == b[i].key && Meaning(a[i].value) == Meaning(b[i].value)
    ensures Fields(a) == Fields(b)
  {
    hide Meaning;
    if a != [] {
      FieldsPointwise(a[1..], b[1..]);
    }
  }

  lemma {:induction false} NormalMembersMean(o: KeyOrder, ms: seq<Member>)
    requires Distinct(ms)
    requires forall i :: 0 <= i < |ms| ==>
             Meaning(Normal(o, ms[i].value)) == Meaning(ms[i].value) && Readable(Normal(o, ms[i].value))
    ensures Fields(Sort(o, NormalMembers(o, ms))) == Fields(ms)
    ensures forall i :: 0 <= i < |ms| ==> Readable(Sort(o, NormalMembers(o, ms))[i].value)
  {
    hide Meaning, Normal, Readable, Sort, Less, Fields;
    var ns := NormalMembers(o, ms);
    var ss := Sort(o, ns);
    SortSorted(o, ns);
    SortedDistinct(o, ss);
    FieldsPointwise(ns, ms);
    FieldsDetermined(ss, ns);
    forall i | 0 <= i < |ss| ensures Readable(ss[i].value) {
      assert ss[i] in ns;
    }
  }

  /** Trees with one meaning have one normal form. */
  lemma {:induction false} MeaningFixesNormal(o: KeyOrder, v: Json, w: Json)
    requires Valid(v) && Valid(w) && Meaning(v) == Meaning(w)
    ensures Normal(o, v) == Normal(o, w)
    decreases v
  {
    match v
    case Arr(items) =>
      assert |Meaning(v).items| == |Meaning(w).items|;
      forall i | 0 <= i < |items| ensures Normal(o, items[i]) == Normal(o, w.items[i]) {
        assert Meaning(v).items[i] == Meaning(w).items[i];
        MeaningFixesNormal(o, items[i], w.items[i]);
      }
    case Obj(ms) =>
      forall i, j | 0 <= i < |ms| && 0 <= j < |w.members| && ms[i].key == w.members[j].key
        ensures Normal(o, ms[i].value) == Normal(o, w.members[j].value)
      {
        FieldsAt(ms, i);
        FieldsAt(w.members, j);
        MeaningFixesNormal(o, ms[i].value, w.members[j].value);
      }
      SameMembers(o, ms, w.members);
    case _ =>
  }

  lemma {:induction false} SameMembers(o: KeyOrder, a: seq<Member>, b: seq<Member>)
    requires Distinct(a) && Distinct(b) && Fields(a) == Fields(b)
    requires forall i, j :: 0 <= i < |a| && 0 <= j < |b| && a[i].key == b[j].key ==>
             Normal(o, a[i].value) == Normal(o, b[j].value)
    ensures Sort(o, NormalMembers(o, a)) == Sort(o, NormalMembers(o, b))
  {
    var na, nb := NormalMembers(o, a), NormalMembers(o, b);
    SortSorted(o, na);
    SortSorted(o, nb);
    hide Normal, Meaning, Sort;
    forall x | x in na ensures x in nb {
      var i :| 0 <= i < |na| && na[i] == x;
      MemberMatched(o, a, b, i);
    }
    forall x | x in nb ensures x in na {
      var j :| 0 <= j < |nb| && nb[j] == x;
      MemberMatched(o, b, a, j);
    }
    SortedUnique(o, Sort(o, na), Sort(o, nb));
  }

  lemma {:induction false} MemberMatched(o: KeyOrder, a: seq<Member>, b: seq<Member>, i: nat)
    requires Distinct(a) && i < |a| && Fields(a) == Fields(b)
    requires forall j :: 0 <= j < |b| && a[i].key == b[j].key ==> Normal(o, a[i].value) == Normal(o, b[j].value)
    ensures NormalMembers(o, a)[i] in NormalMembers(o, b)
  {
    FieldsKeys(a, a[i].key);
    FieldsKeys(b, a[i].key);
    var j :| 0 <= j < |b| && b[j].key == a[i].key;
    assert NormalMembers(o, b)[j] == NormalMembers(o, a)[i];
  }

  // ---- The written bytes ----

  function Text(o: KeyOrder, v: Json): string {
    Print(Normal(o, v))
  }

  /** What RFC 8785 requires of numbers here: whole and exactly representable. */
  predicate Accepts(v: Json)
    decreases v
  {
    match v
    case Num(n) => n.Whole? && -9_007_199_254_740_991 <= n.v <= 9_007_199_254_740_991
    case Arr(items) => forall i :: 0 <= i < |items| ==> Accepts(items[i])
    case Obj(ms) => forall i :: 0 <= i < |ms| ==> Accepts(ms[i].value)
    case _ => true
  }

  /** Every object has its keys in strictly increasing order. */
  predicate InKeyOrder(o: KeyOrder, v: Json)
    decreases v
  {
    match v
    case Arr(items) => forall i :: 0 <= i < |items| ==> InKeyOrder(o, items[i])
    case Obj(ms) => Sorted(o, ms) && forall i :: 0 <= i < |ms| ==> InKeyOrder(o, ms[i].value)
    case _ => true
  }

  lemma {:induction false} NormalInOrder(o: KeyOrder, v: Json)
    requires Valid(v)
    ensures InKeyOrder(o, Normal(o, v))
    decreases v
  {
    match v
    case Arr(items) =>
      forall i | 0 <= i < |items| ensures InKeyOrder(o, Normal(o, items[i])) {
        NormalInOrder(o, items[i]);
      }
    case Obj(ms) =>
      forall i | 0 <= i < |ms| ensures InKeyOrder(o, Normal(o, ms[i].value)) {
        NormalInOrder(o, ms[i].value);
      }
      MembersInOrder(o, ms);
    case _ =>
  }

  lemma {:induction false} MembersInOrder(o: KeyOrder, ms: seq<Member>)
    requires Distinct(ms) && forall i :: 0 <= i < |ms| ==> InKeyOrder(o, Normal(o, ms[i].value))
    ensures InKeyOrder(o, Obj(Sort(o, NormalMembers(o, ms))))
  {
    hide Normal, Sort, Less;
    var ns := NormalMembers(o, ms);
    var ss := Sort(o, ns);
    SortSorted(o, ns);
    forall i | 0 <= i < |ss| ensures InKeyOrder(o, ss[i].value) {
      assert ss[i] in ns;
    }
  }

  /** The bytes are UTF-8 of a JSON text which reads as the tree, every object's keys in order. */
  predicate Conveys(o: KeyOrder, bytes: seq<int>, v: Json) {
    var text := Utf8Decode(bytes);
    text.Some? && var tree := ReadText(text.value);
    tree.Some? && Meaning(tree.value) == Meaning(v) && InKeyOrder(o, tree.value)
  }

  /** What is written, read back, is the tree that was given. */
  lemma {:induction false} WrittenIsRead(o: KeyOrder, v: Json)
    requires Valid(v)
    ensures Conveys(o, Utf8(Text(o, v)), v)
  {
    hide Normal, Print, Readable, Meaning, Utf8, Utf8Decode, ReadText, Valid, InKeyOrder;
    NormalMeans(o, v);
    NormalInOrder(o, v);
    PrintReads(Normal(o, v));
    Utf8Decodes(Text(o, v));
  }

  /** Two trees are written as the same bytes exactly when they mean the same. */
  lemma {:induction false} CanonicalAndInjective(o: KeyOrder, v: Json, w: Json)
    requires Valid(v) && Valid(w)
    ensures Utf8(Text(o, v)) == Utf8(Text(o, w)) <==> Meaning(v) == Meaning(w)
  {
    if Meaning(v) == Meaning(w) {
      MeaningFixesNormal(o, v, w);
    }
    if Utf8(Text(o, v)) == Utf8(Text(o, w)) {
      Utf8Order(Text(o, v), Text(o, w));
      NormalMeans(o, v);
      NormalMeans(o, w);
      PrintInjective(Normal(o, v), Normal(o, w));
    }
  }

  /** No two keys of one object first differ in a character of U+E000 to U+FFFF against one from U+10000 up. */
  predicate UncrossedKeys(v: Json)
    decreases v
  {
    match v
    case Arr(items) => forall i :: 0 <= i < |items| ==> UncrossedKeys(items[i])
    case Obj(ms) =>
      && (forall i :: 0 <= i < |ms| ==> UncrossedKeys(ms[i].value))
      && (forall i, j :: 0 <= i < |ms| && 0 <= j < |ms| ==> !Crossed(ms[i].key, ms[j].key))
    case _ => true
  }

  lemma {:induction false} SortsAgree(ms: seq<Member>)
    requires forall m, n :: m in ms && n in ms ==> !Crossed(m.key, n.key)
    ensures Sort(CodeUnits, ms) == Sort(Bytes, ms)
  {
    hide Crossed, Less;
    if ms != [] {
      SortsAgree(ms[1..]);
      InsertsAgree(ms[0], Sort(Bytes, ms[1..]));
    }
  }

  lemma {:induction false} InsertsAgree(m: Member, ms: seq<Member>)
    requires forall x :: x in ms ==> !Crossed(x.key, m.key)
    ensures Insert(CodeUnits, m, ms) == Insert(Bytes, m, ms)
  {
    hide Crossed, StringLess, Utf16Less;
    if ms != [] {
      OrdersAgreeIff(ms[0].key, m.key);
      InsertsAgree(m, ms[1..]);
    }
  }

  lemma {:induction false} NormalsAgree(v: Json)
    requires UncrossedKeys(v)
    ensures Normal(CodeUnits, v) == Normal(Bytes, v)
    decreases v
  {
    match v
    case Arr(items) =>
      forall i | 0 <= i < |items| ensures Normal(CodeUnits, items[i]) == Normal(Bytes, items[i]) {
        NormalsAgree(items[i]);
      }
    case Obj(ms) =>
      forall i | 0 <= i < |ms| ensures Normal(CodeUnits, ms[i].value) == Normal(Bytes, ms[i].value) {
        NormalsAgree(ms[i].value);
      }
      var ns := NormalMembers(Bytes, ms);
      assert NormalMembers(CodeUnits, ms) == ns;
      forall m, n | m in ns && n in ns ensures !Crossed(m.key, n.key) {
      }
      SortsAgree(ns);
    case _ =>
  }

  /** Keys of a listing sorted both ways are ordered alike, so not crossed. */
  lemma SortedUncrossed(s: seq<Member>, i: nat, j: nat)
    requires Sorted(CodeUnits, s) && Sorted(Bytes, s) && i < |s| && j < |s|
    ensures !Crossed(s[i].key, s[j].key)
  {
    hide Crossed, StringLess, Utf16Less;
    OrdersAgreeIff(s[i].key, s[j].key);
    LessOrder(CodeUnits, s[i].key, s[j].key, s[i].key);
    LessOrder(Bytes, s[i].key, s[j].key, s[i].key);
  }

  lemma SameKeySameMember(o: KeyOrder, s: seq<Member>, m: Member, n: Member)
    requires Sorted(o, s) && m in s && n in s && m.key == n.key
    ensures m == n
  {
    var i :| 0 <= i < |s| && s[i] == m;
    var j :| 0 <= j < |s| && s[j] == n;
    LessOrder(o, m.key, m.key, m.key);
  }

  /** If both orders write the members of one object alike, no two of its keys are crossed. */
  lemma {:induction false} AlikeMembers(ms: seq<Member>, i: nat, j: nat)
    requires Distinct(ms) && i < |ms| && j < |ms|
    requires Sort(CodeUnits, NormalMembers(CodeUnits, ms)) == Sort(Bytes, NormalMembers(Bytes, ms))
    ensures !Crossed(ms[i].key, ms[j].key) && Normal(CodeUnits, ms[i].value) == Normal(Bytes, ms[i].value)
  {
    hide Sort, Less, Normal;
    var ns, bs := NormalMembers(CodeUnits, ms), NormalMembers(Bytes, ms);
    var s := Sort(Bytes, bs);
    SortSorted(CodeUnits, ns);
    SortSorted(Bytes, bs);
    assert bs[i] in s && bs[j] in s && ns[i] in s;
    SameKeySameMember(Bytes, s, ns[i], bs[i]);
    var x :| 0 <= x < |s| && s[x] == bs[i];
    var y :| 0 <= y < |s| && s[y] == bs[j];
    SortedUncrossed(s, x, y);
  }

  lemma {:induction false} NormalsUncrossed(v: Json)
    requires Valid(v) && Normal(CodeUnits, v) == Normal(Bytes, v)
    ensures UncrossedKeys(v)
    decreases v
  {
    match v
    case Arr(items) =>
      forall i | 0 <= i < |items| ensures UncrossedKeys(items[i]) {
        assert Normal(CodeUnits, v).items[i] == Normal(Bytes, v).items[i];
        NormalsUncrossed(items[i]);
      }
    case Obj(ms) =>
      forall i, j | 0 <= i < |ms| && 0 <= j < |ms| ensures !Crossed(ms[i].key, ms[j].key) {
        AlikeMembers(ms, i, j);
      }
      forall i | 0 <= i < |ms| ensures UncrossedKeys(ms[i].value) {
        AlikeMembers(ms, i, i);
        NormalsUncrossed(ms[i].value);
      }
    case _ =>
  }

  /** Both writers write the same bytes exactly when no two keys of one object are crossed. */
  lemma {:induction false} WritersAgreeIff(v: Json)
    requires Valid(v)
    ensures Utf8(Text(CodeUnits, v)) == Utf8(Text(Bytes, v)) <==> UncrossedKeys(v)
  {
    hide Normal, Print, Readable, Meaning, Utf8, Valid, UncrossedKeys;
    if UncrossedKeys(v) {
      NormalsAgree(v);
    }
    if Utf8(Text(CodeUnits, v)) == Utf8(Text(Bytes, v)) {
      Utf8Order(Text(CodeUnits, v), Text(Bytes, v));
      NormalMeans(CodeUnits, v);
      NormalMeans(Bytes, v);
      PrintInjective(Normal(CodeUnits, v), Normal(Bytes, v));
      NormalsUncrossed(v);
    }
  }

  /** No key holds a character from U+E000 to U+FFFF. */
  predicate PlainKeys(v: Json)
    decreases v
  {
    match v
    case Arr(items) => forall i :: 0 <= i < |items| ==> PlainKeys(items[i])
    case Obj(ms) => forall i :: 0 <= i < |ms| ==> NoUpper(ms[i].key) && PlainKeys(ms[i].value)
    case _ => true
  }

  lemma {:induction false} PlainUncrossed(v: Json)
    requires PlainKeys(v)
    ensures UncrossedKeys(v)
    decreases v
  {
    match v
    case Arr(items) =>
      forall i | 0 <= i < |items| ensures UncrossedKeys(items[i]) {
        PlainUncrossed(items[i]);
      }
    case Obj(ms) =>
      forall i | 0 <= i < |ms| ensures UncrossedKeys(ms[i].value) {
        PlainUncrossed(ms[i].value);
      }
      forall i, j | 0 <= i < |ms| && 0 <= j < |ms| ensures !Crossed(ms[i].key, ms[j].key) {
        NoUpperUncrossed(ms[i].key, ms[j].key);
      }
    case _ =>
  }

  /** On such trees, ASCII keys among them, both writers write the same bytes. */
  lemma {:induction false} WritersAgree(v: Json)
    requires PlainKeys(v)
    ensures Text(CodeUnits, v) == Text(Bytes, v)
  {
    PlainUncrossed(v);
    NormalsAgree(v);
  }

  /** Beyond them they can differ: U+10000 sorts before U+E000 in UTF-16 and after it in UTF-8. */
  lemma WritersDisagree()
    ensures var v := Obj([Member("\U{10000}", Null), Member("\U{E000}", Null)]);
            Valid(v) && Accepts(v) && Utf8(Text(CodeUnits, v)) != Utf8(Text(Bytes, v))
  {
    var m, n := Member("\U{10000}", Null), Member("\U{E000}", Null);
    var ms := [m, n];
    assert Valid(Null) && Accepts(Null);
    assert Valid(Obj(ms)) && Accepts(Obj(ms));
    assert Crossed(ms[0].key, ms[1].key);
    hide Normal, Print, Utf8, Valid, Accepts;
    WritersAgreeIff(Obj(ms));
  }
}
