/** The writers themselves, appending to a buffer. */
module JsonWriters {
  import opened Order
  import opened Unicode
  import opened Decimal
  import opened JsonText
  import opened CanonicalJson

  class Buffer {
    var bytes: seq<int>

    constructor ()
      ensures bytes == []
    {
      bytes := [];
    }

    method Extend(text: string)
      modifies this
      ensures bytes == old(bytes) + Utf8(text)
    {
      bytes := bytes + Utf8(text);
    }
  }

  lemma {:induction false} PrintItemsSnoc(xs: seq<Json>, x: Json)
    ensures PrintItems(xs + [x]) == if xs == [] then Print(x) else PrintItems(xs) + "," + Print(x)
  {
    if xs == [] {
      assert xs + [x] == [x];
    } else {
      assert (xs + [x])[1..] == xs[1..] + [x];
      PrintItemsSnoc(xs[1..], x);
    }
  }

  lemma {:induction false} PrintMembersSnoc(xs: seq<Member>, x: Member)
    ensures PrintMembers(xs + [x]) == if xs == [] then PrintMember(x) else PrintMembers(xs) + "," + PrintMember(x)
  {
    if xs == [] {
      assert xs + [x] == [x];
    } else {
      assert (xs + [x])[1..] == xs[1..] + [x];
      PrintMembersSnoc(xs[1..], x);
    }
  }

  function NormalItems(o: KeyOrder, items: seq<Json>): (r: seq<Json>)
    ensures |r| == |items| && forall i :: 0 <= i < |items| ==> r[i] == Normal(o, items[i])
  {
    seq(|items|, i requires 0 <= i < |items| => Normal(o, items[i]))
  }

  function NormalMember(o: KeyOrder, m: Member): Member {
    Member(m.key, Normal(o, m.value))
  }

  lemma {:induction false} NormalCons(o: KeyOrder, m: Member, ms: seq<Member>)
    ensures NormalMembers(o, [m] + ms) == [NormalMember(o, m)] + NormalMembers(o, ms)
  {
  }

  /** Sorting looks at keys only, so it may come before or after normalising the values. */
  lemma {:induction false} SortCommutes(o: KeyOrder, ms: seq<Member>)
    ensures Sort(o, NormalMembers(o, ms)) == NormalMembers(o, Sort(o, ms))
  {
    if ms != [] {
      assert NormalMembers(o, ms)[1..] == NormalMembers(o, ms[1..]);
      SortCommutes(o, ms[1..]);
      InsertCommutes(o, ms[0], Sort(o, ms[1..]));
    }
  }

  lemma {:induction false} InsertCommutes(o: KeyOrder, m: Member, ms: seq<Member>)
    ensures Insert(o, NormalMember(o, m), NormalMembers(o, ms)) == NormalMembers(o, Insert(o, m, ms))
  {
    hide Less, Normal, NormalMembers;
    NormalCons(o, m, ms);
    if ms != [] && Less(o, ms[0].key, m.key) {
      assert ms == [ms[0]] + ms[1..];
      NormalCons(o, ms[0], ms[1..]);
      NormalCons(o, ms[0], Insert(o, m, ms[1..]));
      InsertCommutes(o, m, ms[1..]);
      assert NormalMembers(o, ms)[1..] == NormalMembers(o, ms[1..]);
    }
  }

  lemma {:induction false} Appended(start: seq<int>, text: string, more: string)
    ensures start + Utf8(text) + Utf8(more) == start + Utf8(text + more)
  {
    Utf8Concat(text, more);
  }

  predicate Writable(o: KeyOrder, v: Json) {
    o == CodeUnits ==> Accepts(v)
  }

  /** Both writers: they differ in the order of keys and in the numbers the first refuses. */
  method Write(o: KeyOrder, v: Json, out: Buffer) returns (ok: bool)
    modifies out
    ensures ok <==> Writable(o, v)
    ensures ok ==> out.bytes == old(out.bytes) + Utf8(Text(o, v))
    ensures ok && Valid(v) ==> Conveys(o, out.bytes[|old(out.bytes)|..], v)
    decreases v, 1
  {
    hide Utf8, Conveys;
    ghost var start := out.bytes;
    match v {
      case Null => out.Extend("null"); ok := true;
      case Bool(b) => out.Extend(if b then "true" else "false"); ok := true;
      case Num(n) =>
        if o == CodeUnits && !(n.Whole? && -9_007_199_254_740_991 <= n.v <= 9_007_199_254_740_991) {
          return false;
        }
        out.Extend(NumText(n));
        ok := true;
      case Str(s) => out.Extend(Quote(s)); ok := true;
      case Arr(items) => ok := WriteArray(o, v, out);
      case Obj(ms) => ok := WriteObject(o, v, out);
    }
    if ok && Valid(v) {
      WrittenIsRead(o, v);
      assert out.bytes[|start|..] == Utf8(Text(o, v));
    }
  }

  method WriteArray(o: KeyOrder, v: Json, out: Buffer) returns (ok: bool)
    requires v.Arr?
    modifies out
    ensures ok <==> Writable(o, v)
    ensures ok ==> out.bytes == old(out.bytes) + Utf8(Text(o, v))
    decreases v, 0
  {
    hide Utf8, Print, Normal;
    ghost var start, text := out.bytes, "[";
    out.Extend("[");
    for i := 0 to |v.items|
      invariant text == "[" + PrintItems(NormalItems(o, v.items[..i])) && out.bytes == start + Utf8(text)
      invariant forall j :: 0 <= j < i ==> Writable(o, v.items[j])
    {
      if i != 0 {
        out.Extend(",");
        Appended(start, text, ",");
        text := text + ",";
      }
      var fine := Write(o, v.items[i], out);
      if !fine {
        return false;
      }
      var item := Print(Normal(o, v.items[i]));
      Appended(start, text, item);
      text := text + item;
      NextItem(o, v.items, i);
    }
    out.Extend("]");
    Appended(start, text, "]");
    ok := true;
    ArrayText(o, v);
  }

  lemma {:induction false} NextItem(o: KeyOrder, items: seq<Json>, i: nat)
    requires i < |items|
    ensures "[" + PrintItems(NormalItems(o, items[..i + 1])) ==
            (if i == 0 then "[" + PrintItems(NormalItems(o, items[..i]))
              else "[" + PrintItems(NormalItems(o, items[..i])) + ",") + Print(Normal(o, items[i]))
  {
    assert NormalItems(o, items[..i + 1]) == NormalItems(o, items[..i]) + [Normal(o, items[i])];
    PrintItemsSnoc(NormalItems(o, items[..i]), Normal(o, items[i]));
  }

  lemma ArrayText(o: KeyOrder, v: Json)
    requires v.Arr?
    ensures Text(o, v) == "[" + PrintItems(NormalItems(o, v.items[..|v.items|])) + "]"
  {
    assert v.items[..|v.items|] == v.items;
    assert Normal(o, v).items == NormalItems(o, v.items);
  }

  method WriteObject(o: KeyOrder, v: Json, out: Buffer) returns (ok: bool)
    requires v.Obj?
    modifies out
    ensures ok <==> Writable(o, v)
    ensures ok ==> out.bytes == old(out.bytes) + Utf8(Text(o, v))
    decreases v, 0
  {
    hide Utf8, Print, Normal, PrintMembers, NormalMembers, Quote, Sort, Accepts;
    ghost var start, text := out.bytes, "{";
    var entries := Sort(o, v.members);
    NoMembers(o, entries);
    out.Extend("{");
    for i := 0 to |entries|
      invariant text == "{" + PrintMembers(NormalMembers(o, entries[..i])) && out.bytes == start + Utf8(text)
      invariant forall j :: 0 <= j < i ==> Writable(o, entries[j].value)
    {
      if i != 0 {
        out.Extend(",");
        Appended(start, text, ",");
        text := text + ",";
      }
      out.Extend(Quote(entries[i].key) + ":");
      Appended(start, text, Quote(entries[i].key) + ":");
      text := text + (Quote(entries[i].key) + ":");
      assert entries[i] in v.members;
      var k :| 0 <= k < |v.members| && v.members[k] == entries[i];
      var fine := Write(o, v.members[k].value, out);
      if !fine {
        MemberRefused(o, v, k);
        return false;
      }
      var value := Print(Normal(o, entries[i].value));
      Appended(start, text, value);
      text := text + value;
      NextMember(o, entries, i);
    }
    out.Extend("}");
    Appended(start, text, "}");
    ok := true;
    EntriesWritable(o, v, entries);
    ObjectText(o, v);
  }

  lemma {:induction false} NoMembers(o: KeyOrder, ms: seq<Member>)
    ensures "{" + PrintMembers(NormalMembers(o, ms[..0])) == "{"
  {
    assert NormalMembers(o, ms[..0]) == [];
  }

  lemma {:induction false} NextMember(o: KeyOrder, ms: seq<Member>, i: nat)
    requires i < |ms|
    ensures "{" + PrintMembers(NormalMembers(o, ms[..i + 1])) ==
            (if i == 0 then "{" + PrintMembers(NormalMembers(o, ms[..i]))
              else "{" + PrintMembers(NormalMembers(o, ms[..i])) + ",")
            + (Quote(ms[i].key) + ":") + Print(Normal(o, ms[i].value))
  {
    hide Print, Normal, Quote;
    assert NormalMembers(o, ms[..i + 1]) == NormalMembers(o, ms[..i]) + [NormalMember(o, ms[i])];
    PrintMembersSnoc(NormalMembers(o, ms[..i]), NormalMember(o, ms[i]));
  }

  lemma MemberRefused(o: KeyOrder, v: Json, k: nat)
    requires v.Obj? && k < |v.members| && !Writable(o, v.members[k].value)
    ensures !Writable(o, v)
  {
  }

  lemma EntriesWritable(o: KeyOrder, v: Json, entries: seq<Member>)
    requires v.Obj? && (forall m :: m in entries <==> m in v.members) && forall j :: 0 <= j < |entries| ==>
             Writable(o, entries[j].value)
    ensures Writable(o, v)
  {
    forall i | 0 <= i < |v.members| && o == CodeUnits ensures Accepts(v.members[i].value) {
      assert v.members[i] in entries;
    }
  }

  lemma {:induction false} ObjectText(o: KeyOrder, v: Json)
    requires v.Obj?
    ensures var entries := Sort(o, v.members);
            Text(o, v) == "{" + PrintMembers(NormalMembers(o, entries[..|entries|])) + "}"
  {
    var entries := Sort(o, v.members);
    assert entries[..|entries|] == entries;
    SortCommutes(o, v.members);
  }

  /** The bytes of an accepted tree are fixed by its meaning, and fix it. */
  method Jcs(v: Json) returns (r: Option<seq<int>>)
    ensures r.Some? <==> Accepts(v)
    ensures r.Some? ==> r.value == Utf8(Text(CodeUnits, v))
    ensures r.Some? && Valid(v) ==> Conveys(CodeUnits, r.value, v)
    ensures r.Some? && Valid(v) ==> forall w :: Valid(w) ==>
            (Utf8(Text(CodeUnits, w)) == r.value <==> Meaning(w) == Meaning(v))
  {
    hide Utf8, Text, Valid, Meaning, Accepts, Conveys;
    var out := new Buffer();
    var ok := Write(CodeUnits, v, out);
    if !ok {
      return None;
    }
    r := Some(out.bytes);
    assert out.bytes == [] + Utf8(Text(CodeUnits, v));
    if Valid(v) {
      WrittenIsRead(CodeUnits, v);
      forall w | Valid(w) ensures Utf8(Text(CodeUnits, w)) == r.value <==> Meaning(w) == Meaning(v) {
        CanonicalAndInjective(CodeUnits, w, v);
      }
    }
  }
}
