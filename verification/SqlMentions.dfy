/** What SQL refers to at any depth, against what the walk collects. */
module SqlMentions {
  import opened Order
  import opened SqlAst

  datatype Mention = TableName(name: string) | ColumnName(name: string) | Change

  // ---- Everything a statement refers to ----

  predicate QueryMentions(q: Query, m: Mention)
    decreases q, 0
  {
    || BodyMentions(q.body, m)
    || RestMentions(q.rest, m)
    || exists i :: 0 <= i < |q.ctes| && QueryMentions(q.ctes[i], m)
  }

  predicate RestMentions(r: Rest, m: Mention)
    decreases r, 0
  {
    || (m.ColumnName? && m.name in r.columns)
    || (m.TableName? && m.name in r.tables)
    || exists i :: 0 <= i < |r.queries| && QueryMentions(r.queries[i], m)
  }

  predicate ItemMentions(item: Item, m: Mention)
    decreases item, 0
  {
    match item
    case Column(n) => m == ColumnName(n)
    case Compound(parts) => parts != [] && m == ColumnName(parts[|parts| - 1])
    case Wildcard(rest) => m == ColumnName("*") || RestMentions(rest, m)
    case Expression(rest) => RestMentions(rest, m)
  }

  predicate BodyMentions(b: SetExpr, m: Mention)
    decreases b, 0
  {
    match b
    case Select(from, projection, into, rest) =>
      || (into.Some? && (m == Change || m == TableName(into.value)))
      || (exists i :: 0 <= i < |from| && JoinMentions(from[i], m))
      || (exists i :: 0 <= i < |projection| && ItemMentions(projection[i], m))
      || RestMentions(rest, m)
    case SetOperation(left, right) => BodyMentions(left, m) || BodyMentions(right, m)
    case Nested(query) => QueryMentions(query, m)
    case Values(rest) => RestMentions(rest, m)
    case TableBody(name) => m == TableName(name)
    case ChangeBody(statement) => m == Change || StatementMentions(statement, m)
  }

  predicate JoinMentions(j: TableWithJoins, m: Mention)
    decreases j, 0
  {
    || FactorMentions(j.relation, m)
    || RestMentions(j.rest, m)
    || exists i :: 0 <= i < |j.joins| && FactorMentions(j.joins[i], m)
  }

  predicate FactorMentions(f: TableFactor, m: Mention)
    decreases f, 0
  {
    match f
    case Table(name, rest) => m == TableName(name) || RestMentions(rest, m)
    case Derived(subquery) => QueryMentions(subquery, m)
    case NestedJoin(inner) => JoinMentions(inner, m)
    case Pivoted(source, rest) => FactorMentions(source, m) || RestMentions(rest, m)
    case OtherFactor(rest) => RestMentions(rest, m)
  }

  predicate StatementMentions(s: Statement, m: Mention)
    decreases s, 0
  {
    if m == Change && !ReadsOnly(s) then true
    else
      match s
      case QueryStatement(q) => QueryMentions(q, m)
      case Insert(t, source, rest) =>
        m == TableName(t) || (source.Some? && QueryMentions(source.value, m)) || RestMentions(rest, m)
      case Update(target, columns, also, rest) =>
        || JoinMentions(target, m)
        || (m.ColumnName? && exists i :: 0 <= i < |columns| && m.name in columns[i])
        || (also.Some? && JoinMentions(also.value, m))
        || RestMentions(rest, m)
      case Delete(listed, from, using, rest) =>
        || (m.TableName? && m.name in listed)
        || (exists i :: 0 <= i < |from| && JoinMentions(from[i], m))
        || (exists i :: 0 <= i < |using| && JoinMentions(using[i], m))
        || RestMentions(rest, m)
      case CreateTable(n, definition, rest) =>
        m == TableName(n) || (definition.Some? && QueryMentions(definition.value, m)) || RestMentions(rest, m)
      case AlterTable(n, rest) => m == TableName(n) || RestMentions(rest, m)
      case CreateView(n, view, rest) => m == TableName(n) || QueryMentions(view, m) || RestMentions(rest, m)
      case CreateIndex(t, rest) => m == TableName(t) || RestMentions(rest, m)
      case Drop(names) => m.TableName? && m.name in names
      case SetVariable(_, rest) => RestMentions(rest, m)
      case Explain(inner) => StatementMentions(inner, m)
      case ExplainTable(t) => m == TableName(t)
      case Transaction => false
      case OtherStatement(rest, changes) => (m == Change && changes) || RestMentions(rest, m)
  }

  // ---- The tables of the parts the walk passes over ----

  predicate QuerySkips(q: Query, t: string)
    decreases q, 0
  {
    || BodySkips(q.body, t)
    || RestMentions(q.rest, TableName(t))
    || exists i :: 0 <= i < |q.ctes| && QueryMentions(q.ctes[i], TableName(t))
  }

  predicate BodySkips(b: SetExpr, t: string)
    decreases b, 0
  {
    match b
    case Select(from, projection, into, rest) =>
      || into == Some(t)
      || (exists i :: 0 <= i < |from| && JoinSkips(from[i], t))
      || (exists i :: 0 <= i < |projection| && ItemMentions(projection[i], TableName(t)))
      || RestMentions(rest, TableName(t))
    case SetOperation(left, right) => BodySkips(left, t) || BodySkips(right, t)
    case Nested(query) => QuerySkips(query, t)
    case _ => BodyMentions(b, TableName(t))
  }

  predicate JoinSkips(j: TableWithJoins, t: string)
    decreases j, 0
  {
    || FactorSkips(j.relation, t)
    || RestMentions(j.rest, TableName(t))
    || exists i :: 0 <= i < |j.joins| && FactorSkips(j.joins[i], t)
  }

  predicate FactorSkips(f: TableFactor, t: string)
    decreases f, 0
  {
    match f
    case Table(_, rest) => RestMentions(rest, TableName(t))
    case Derived(subquery) => QuerySkips(subquery, t)
    case NestedJoin(inner) => JoinSkips(inner, t)
    case _ => FactorMentions(f, TableName(t))
  }

  /** A table named where the walk does not look: an INSERT source, a WITH table, an explained statement and so on. */
  predicate SkipsTable(s: Statement, t: string) {
    match s
    case QueryStatement(q) => QuerySkips(q, t)
    case Insert(_, source, rest) =>
      (source.Some? && QueryMentions(source.value, TableName(t))) || RestMentions(rest, TableName(t))
    case Update(target, _, also, rest) =>
      || JoinSkips(target, t)
      || (also.Some? && JoinMentions(also.value, TableName(t)))
      || RestMentions(rest, TableName(t))
    case Delete(listed, from, using, rest) =>
      || t in listed
      || (exists i :: 0 <= i < |from| && JoinSkips(from[i], t))
      || (exists i :: 0 <= i < |using| && JoinMentions(using[i], TableName(t)))
      || RestMentions(rest, TableName(t))
    case CreateTable(_, definition, rest) =>
      (definition.Some? && QueryMentions(definition.value, TableName(t))) || RestMentions(rest, TableName(t))
    case AlterTable(_, rest) => RestMentions(rest, TableName(t))
    case CreateView(_, view, rest) => QueryMentions(view, TableName(t)) || RestMentions(rest, TableName(t))
    case CreateIndex(_, rest) => RestMentions(rest, TableName(t))
    case SetVariable(_, rest) => RestMentions(rest, TableName(t))
    case Explain(inner) => StatementMentions(inner, TableName(t))
    case ExplainTable(table) => t == table
    case OtherStatement(rest, _) => RestMentions(rest, TableName(t))
    case Drop(_) => false
    case Transaction => false
  }

  lemma {:induction false} QueryTablesNamed(q: Query, t: string)
    ensures QueryMentions(q, TableName(t)) <==> t in QueryTables(q) || QuerySkips(q, t)
    decreases q, 1
  {
    BodyTablesNamed(q.body, t);
  }

  lemma {:induction false} BodyTablesNamed(b: SetExpr, t: string)
    ensures BodyMentions(b, TableName(t)) <==> t in BodyTables(b) || BodySkips(b, t)
    decreases b, 1
  {
    match b
    case Select(from, _, _, _) => FromTablesNamed(from, t);
    case SetOperation(left, right) =>
      BodyTablesNamed(left, t);
      BodyTablesNamed(right, t);
    case Nested(query) => QueryTablesNamed(query, t);
    case _ =>
  }

  predicate FromMentions(from: seq<TableWithJoins>, t: string) {
    exists i :: 0 <= i < |from| && JoinMentions(from[i], TableName(t))
  }

  predicate FromSkips(from: seq<TableWithJoins>, t: string) {
    exists i :: 0 <= i < |from| && JoinSkips(from[i], t)
  }

  lemma {:induction false} FromTablesNamed(from: seq<TableWithJoins>, t: string)
    ensures FromMentions(from, t) <==> t in FromTables(from) || FromSkips(from, t)
    decreases from, 1
  {
    if from != [] {
      JoinTablesNamed(from[0], t);
      FromTablesNamed(from[1..], t);
      FromStep(from, t);
    }
  }

  lemma {:induction false} FromStep(from: seq<TableWithJoins>, t: string)
    requires from != []
    ensures FromMentions(from, t) <==> JoinMentions(from[0], TableName(t)) || FromMentions(from[1..], t)
    ensures FromSkips(from, t) <==> JoinSkips(from[0], t) || FromSkips(from[1..], t)
  {
    hide JoinMentions, JoinSkips;
    var rest := from[1..];
    forall i | 0 < i < |from| ensures from[i] == rest[i - 1] {
    }
    forall i | 0 <= i < |rest| ensures rest[i] == from[i + 1] {
    }
  }

  predicate FactorsMention(fs: seq<TableFactor>, t: string) {
    exists i :: 0 <= i < |fs| && FactorMentions(fs[i], TableName(t))
  }

  predicate FactorsSkip(fs: seq<TableFactor>, t: string) {
    exists i :: 0 <= i < |fs| && FactorSkips(fs[i], t)
  }

  lemma {:induction false} FactorsStep(fs: seq<TableFactor>, t: string)
    requires fs != []
    ensures FactorsMention(fs, t) <==> FactorMentions(fs[0], TableName(t)) || FactorsMention(fs[1..], t)
    ensures FactorsSkip(fs, t) <==> FactorSkips(fs[0], t) || FactorsSkip(fs[1..], t)
  {
    hide FactorMentions, FactorSkips;
    var rest := fs[1..];
    forall i | 0 < i < |fs| ensures fs[i] == rest[i - 1] {
    }
    forall i | 0 <= i < |rest| ensures rest[i] == fs[i + 1] {
    }
  }

  lemma {:induction false} JoinTablesNamed(j: TableWithJoins, t: string)
    ensures JoinMentions(j, TableName(t)) <==> t in JoinTables(j) || JoinSkips(j, t)
    decreases j, 1
  {
    FactorTablesNamed(j.relation, t);
    FactorsTablesNamed(j.joins, t);
  }

  lemma {:induction false} FactorsTablesNamed(fs: seq<TableFactor>, t: string)
    ensures FactorsMention(fs, t) <==> t in FactorsTables(fs) || FactorsSkip(fs, t)
    decreases fs, 1
  {
    if fs != [] {
      FactorTablesNamed(fs[0], t);
      FactorsTablesNamed(fs[1..], t);
      FactorsStep(fs, t);
    }
  }

  lemma {:induction false} FactorTablesNamed(f: TableFactor, t: string)
    ensures FactorMentions(f, TableName(t)) <==> t in FactorTables(f) || FactorSkips(f, t)
    decreases f, 1
  {
    match f
    case Derived(subquery) => QueryTablesNamed(subquery, t);
    case NestedJoin(inner) => JoinTablesNamed(inner, t);
    case _ =>
  }

  /** The tables a statement names are those the walk collects and those of the parts it passes over. */
  lemma {:induction false} StatementTablesNamed(s: Statement, t: string)
    ensures StatementMentions(s, TableName(t)) <==> t in StatementTables(s) || SkipsTable(s, t)
  {
    hide QueryMentions, RestMentions, JoinMentions, JoinSkips, QuerySkips, QueryTables, JoinTables;
    match s
    case QueryStatement(q) => QueryTablesNamed(q, t);
    case Update(target, _, _, _) => JoinTablesNamed(target, t);
    case Delete(_, from, _, _) =>
      FromTablesNamed(from, t);
    case _ =>
  }

  // ---- The columns of the parts left out ----

  /** A column named anywhere but in the projection of a bare SELECT or as the target of an UPDATE. */
  predicate SkipsColumn(s: Statement, x: string) {
    match s
    case QueryStatement(q) =>
      if q.body.Select? then
        || (exists i :: 0 <= i < |q.ctes| && QueryMentions(q.ctes[i], ColumnName(x)))
        || RestMentions(q.rest, ColumnName(x))
        || (exists i :: 0 <= i < |q.body.from| && JoinMentions(q.body.from[i], ColumnName(x)))
        || (exists i :: 0 <= i < |q.body.projection| && ItemSkips(q.body.projection[i], x))
        || RestMentions(q.body.rest, ColumnName(x))
      else QueryMentions(q, ColumnName(x))
    case Update(target, _, also, rest) =>
      || JoinMentions(target, ColumnName(x))
      || (also.Some? && JoinMentions(also.value, ColumnName(x)))
      || RestMentions(rest, ColumnName(x))
    case _ => StatementMentions(s, ColumnName(x))
  }

  predicate ItemSkips(item: Item, x: string) {
    (item.Expression? || item.Wildcard?) && RestMentions(item.rest, ColumnName(x))
  }

  predicate ItemsMention(items: seq<Item>, x: string) {
    exists i :: 0 <= i < |items| && ItemMentions(items[i], ColumnName(x))
  }

  predicate ItemsSkip(items: seq<Item>, x: string) {
    exists i :: 0 <= i < |items| && ItemSkips(items[i], x)
  }

  lemma ItemsStep(items: seq<Item>, x: string)
    requires items != []
    ensures ItemsMention(items, x) <==> ItemMentions(items[0], ColumnName(x)) || ItemsMention(items[1..], x)
    ensures ItemsSkip(items, x) <==> ItemSkips(items[0], x) || ItemsSkip(items[1..], x)
  {
    hide ItemMentions, ItemSkips;
    var rest := items[1..];
    forall i | 0 < i < |items| ensures items[i] == rest[i - 1] {
    }
    forall i | 0 <= i < |rest| ensures rest[i] == items[i + 1] {
    }
  }

  lemma {:induction false} ItemColumnsNamed(items: seq<Item>, x: string)
    ensures ItemsMention(items, x) <==> x in ItemColumns(items) || ItemsSkip(items, x)
  {
    hide RestMentions;
    if items != [] {
      ItemColumnsNamed(items[1..], x);
      ItemsStep(items, x);
    }
  }

  lemma {:induction false} FlattenHas(lists: seq<seq<string>>, x: string)
    ensures x in Flatten(lists) <==> exists i :: 0 <= i < |lists| && x in lists[i]
  {
    if lists != [] {
      FlattenHas(lists[1..], x);
      if i :| 0 <= i < |lists[1..]| && x in lists[1..][i] {
        assert x in lists[i + 1];
      }
      if i :| 0 <= i < |lists| && x in lists[i] && i > 0 {
        assert x in lists[1..][i - 1];
      }
    }
  }

  /** The columns a statement names, a wildcard among them, are those reported and those of the parts left out. */
  lemma {:induction false} StatementColumnsNamed(s: Statement, x: string)
    ensures StatementMentions(s, ColumnName(x)) <==> x in StatementColumns(s) || SkipsColumn(s, x)
  {
    hide RestMentions, JoinMentions, ItemMentions, ItemSkips;
    match s
    case QueryStatement(q) =>
      if q.body.Select? {
        ItemColumnsNamed(q.body.projection, x);
        assert BodyMentions(q.body, ColumnName(x)) <==>
          || (exists i :: 0 <= i < |q.body.from| && JoinMentions(q.body.from[i], ColumnName(x)))
          || ItemsMention(q.body.projection, x)
          || RestMentions(q.body.rest, ColumnName(x));
      }
    case Update(_, columns, _, _) => FlattenHas(columns, x);
    case _ =>
  }

  predicate NamesNothing(r: Rest) {
    r == Rest([], [], [])
  }

  predicate PlainTable(f: TableFactor) {
    f.Table? && NamesNothing(f.rest)
  }

  predicate PlainJoin(j: TableWithJoins) {
    PlainTable(j.relation) && NamesNothing(j.rest) && forall i :: 0 <= i < |j.joins| ==> PlainTable(j.joins[i])
  }

  predicate PlainItem(item: Item) {
    !item.Expression? && (item.Wildcard? ==> NamesNothing(item.rest))
  }

  /** A bare SELECT of columns and wildcards from plain tables, without arguments, options or further clauses. */
  predicate PlainSelect(s: Statement) {
    && s.QueryStatement? && s.query.ctes == [] && NamesNothing(s.query.rest)
    && var b := s.query.body;
    && b.Select? && NamesNothing(b.rest)
    && (forall i :: 0 <= i < |b.projection| ==> PlainItem(b.projection[i]))
    && (forall i :: 0 <= i < |b.from| ==> PlainJoin(b.from[i]))
  }

  lemma NothingNamed(x: string)
    ensures !RestMentions(Rest([], [], []), ColumnName(x))
  {
  }

  lemma {:induction false} PlainTableNames(f: TableFactor, x: string)
    requires PlainTable(f)
    ensures !FactorMentions(f, ColumnName(x))
  {
    NothingNamed(x);
  }

  lemma {:induction false} PlainJoinNames(j: TableWithJoins, x: string)
    requires PlainJoin(j)
    ensures !JoinMentions(j, ColumnName(x))
  {
    hide FactorMentions, RestMentions;
    NothingNamed(x);
    PlainTableNames(j.relation, x);
    forall i | 0 <= i < |j.joins| ensures !FactorMentions(j.joins[i], ColumnName(x)) {
      PlainTableNames(j.joins[i], x);
    }
  }

  /** Of such a SELECT every column is reported. */
  lemma {:induction false} PlainSelectReportsAll(s: Statement, x: string)
    requires PlainSelect(s)
    ensures StatementMentions(s, ColumnName(x)) <==> x in StatementColumns(s)
  {
    StatementColumnsNamed(s, x);
    hide StatementMentions, StatementColumns, JoinMentions, RestMentions;
    var b := s.query.body;
    forall i | 0 <= i < |b.from| ensures !JoinMentions(b.from[i], ColumnName(x)) {
      PlainJoinNames(b.from[i], x);
    }
    assert !RestMentions(Rest([], [], []), ColumnName(x)) by {
      NothingNamed(x);
    }
    assert forall i :: 0 <= i < |b.projection| ==> PlainItem(b.projection[i]) && !ItemSkips(b.projection[i], x);
  }
}
