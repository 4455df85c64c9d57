/** The walkers that push table names onto a list. */
module SqlWalk {
  import opened SqlAst

  class Names {
    var items: seq<string>

    constructor ()
      ensures items == []
    {
      items := [];
    }

    method Push(name: string)
      modifies this
      ensures items == old(items) + [name]
    {
      items := items + [name];
    }
  }

  lemma {:induction false} FromTablesSnoc(from: seq<TableWithJoins>, t: TableWithJoins)
    ensures FromTables(from + [t]) == FromTables(from) + JoinTables(t)
  {
    hide JoinTables;
    if from != [] {
      FromTablesSnoc(from[1..], t);
      assert (from + [t])[1..] == from[1..] + [t];
    }
  }

  lemma {:induction false} FactorsTablesSnoc(fs: seq<TableFactor>, f: TableFactor)
    ensures FactorsTables(fs + [f]) == FactorsTables(fs) + FactorTables(f)
  {
    hide FactorTables;
    if fs != [] {
      FactorsTablesSnoc(fs[1..], f);
      assert (fs + [f])[1..] == fs[1..] + [f];
    }
  }

  method WalkQuery(q: Query, out: Names)
    modifies out
    ensures out.items == old(out.items) + QueryTables(q)
    decreases q, 1
  {
    WalkBody(q.body, out);
  }

  method WalkBody(b: SetExpr, out: Names)
    modifies out
    ensures out.items == old(out.items) + BodyTables(b)
    decreases b, 1
  {
    match b
    case Select(from, _, _, _) => WalkFrom(from, out);
    case SetOperation(left, right) =>
      WalkBody(left, out);
      WalkBody(right, out);
    case Nested(query) => WalkQuery(query, out);
    case _ =>
  }

  method WalkFrom(from: seq<TableWithJoins>, out: Names)
    modifies out
    ensures out.items == old(out.items) + FromTables(from)
    decreases from, 1
  {
    hide JoinTables;
    ghost var start := out.items;
    for i := 0 to |from|
      invariant out.items == start + FromTables(from[..i])
    {
      WalkJoin(from[i], out);
      FromTablesSnoc(from[..i], from[i]);
      assert from[..i + 1] == from[..i] + [from[i]];
    }
    assert from[..|from|] == from;
  }

  method WalkJoin(t: TableWithJoins, out: Names)
    modifies out
    ensures out.items == old(out.items) + JoinTables(t)
    decreases t, 1
  {
    hide FactorTables;
    ghost var start := out.items;
    WalkFactor(t.relation, out);
    for i := 0 to |t.joins|
      invariant out.items == start + FactorTables(t.relation) + FactorsTables(t.joins[..i])
    {
      WalkFactor(t.joins[i], out);
      FactorsTablesSnoc(t.joins[..i], t.joins[i]);
      assert t.joins[..i + 1] == t.joins[..i] + [t.joins[i]];
    }
    assert t.joins[..|t.joins|] == t.joins;
  }

  method WalkFactor(f: TableFactor, out: Names)
    modifies out
    ensures out.items == old(out.items) + FactorTables(f)
    decreases f, 1
  {
    match f
    case Table(name, _) => out.Push(name);
    case Derived(subquery) => WalkQuery(subquery, out);
    case NestedJoin(inner) => WalkJoin(inner, out);
    case _ =>
  }
}
