/** Parsed SQL as validation sees it, with the parts it walks and the parts it passes over. */
module SqlAst {
  import opened Order

  /**
   What a node refers to in the parts validation does not look into: columns, tables, and the queries
   nested there. Every node that has such parts carries one.
   */
  datatype Rest = Rest(columns: seq<string>, tables: seq<string>, queries: seq<Query>)

  /** A query with its WITH tables; `rest` is ORDER BY, LIMIT and the like. */
  datatype Query = Query(ctes: seq<Query>, body: SetExpr, rest: Rest)

  /** `into` is the table of SELECT INTO, `rest` of a SELECT its WHERE, GROUP BY, HAVING and so on. */
  datatype SetExpr =
    | Select(from: seq<TableWithJoins>, projection: seq<Item>, into: Option<string>, rest: Rest)
    | SetOperation(left: SetExpr, right: SetExpr)
    | Nested(query: Query)
    | Values(rest: Rest)
    | TableBody(name: string)
    | ChangeBody(statement: Statement)

  /** `rest` is the join conditions. */
  datatype TableWithJoins = TableWithJoins(relation: TableFactor, joins: seq<TableFactor>, rest: Rest)

  /** `rest` of a table is its arguments and options. */
  datatype TableFactor =
    | Table(name: string, rest: Rest)
    | Derived(subquery: Query)
    | NestedJoin(inner: TableWithJoins)
    | Pivoted(source: TableFactor, rest: Rest)
    | OtherFactor(rest: Rest)

  /** `rest` of a wildcard is its options; `Expression` is any other item, such as one with an alias. */
  datatype Item = Column(name: string) | Compound(parts: seq<string>) | Wildcard(rest: Rest) | Expression(rest: Rest)

  /** `OtherStatement` is any kind the classifier does not tell apart: COPY, TRUNCATE, MERGE and so on. */
  datatype Statement =
    | QueryStatement(query: Query)
    | Insert(table: string, source: Option<Query>, rest: Rest)
    | Update(target: TableWithJoins, columns: seq<seq<string>>, also: Option<TableWithJoins>, rest: Rest)
    | Delete(listed: seq<string>, from: seq<TableWithJoins>, using: seq<TableWithJoins>, rest: Rest)
    | CreateTable(name: string, definition: Option<Query>, rest: Rest)
    | AlterTable(name: string, rest: Rest)
    | CreateView(name: string, view: Query, rest: Rest)
    | CreateIndex(table: string, rest: Rest)
    | Drop(names: seq<string>)
    | SetVariable(variable: string, rest: Rest)
    | Explain(statement: Statement)
    | ExplainTable(table: string)
    | Transaction
    | OtherStatement(rest: Rest, changes: bool)

  predicate IsDdl(s: Statement) {
    s.CreateTable? || s.AlterTable? || s.CreateView? || s.CreateIndex? || s.Drop?
  }

  predicate ReadsOnly(s: Statement) {
    !(s.Insert? || s.Update? || s.Delete? || IsDdl(s) || s.SetVariable?)
  }

  // ---- Tables in the order the walk meets them ----

  function QueryTables(q: Query): seq<string>
    decreases q, 0
  {
    BodyTables(q.body)
  }

  function BodyTables(b: SetExpr): seq<string>
    decreases b, 0
  {
    match b
    case Select(from, _, _, _) => FromTables(from)
    case SetOperation(left, right) => BodyTables(left) + BodyTables(right)
    case Nested(query) => QueryTables(query)
    case _ => []
  }

  function FromTables(from: seq<TableWithJoins>): seq<string>
    decreases from, 0
  {
    if from == [] then [] else JoinTables(from[0]) + FromTables(from[1..])
  }

  function JoinTables(t: TableWithJoins): seq<string>
    decreases t, 0
  {
    FactorTables(t.relation) + FactorsTables(t.joins)
  }

  function FactorsTables(fs: seq<TableFactor>): seq<string>
    decreases fs, 0
  {
    if fs == [] then [] else FactorTables(fs[0]) + FactorsTables(fs[1..])
  }

  function FactorTables(f: TableFactor): seq<string>
    decreases f, 0
  {
    match f
    case Table(name, _) => [name]
    case Derived(subquery) => QueryTables(subquery)
    case NestedJoin(inner) => JoinTables(inner)
    case _ => []
  }

  function StatementTables(s: Statement): seq<string> {
    match s
    case QueryStatement(q) => QueryTables(q)
    case Insert(t, _, _) => [t]
    case Update(target, _, _, _) => JoinTables(target)
    case Delete(_, from, _, _) => FromTables(from)
    case CreateTable(n, _, _) => [n]
    case AlterTable(n, _) => [n]
    case CreateView(n, _, _) => [n]
    case CreateIndex(t, _) => [t]
    case Drop(names) => names
    case _ => []
  }

  // ---- Columns, taken only from the projection of a bare SELECT and the targets of an UPDATE ----

  function ItemColumns(items: seq<Item>): seq<string> {
    if items == [] then []
    else
      (match items[0]
       case Column(n) => [n]
       case Compound(parts) => if parts == [] then [] else [parts[|parts| - 1]]
       case Wildcard(_) => ["*"]
       case Expression(_) => []) + ItemColumns(items[1..])
  }

  function Flatten(lists: seq<seq<string>>): seq<string> {
    if lists == [] then [] else lists[0] + Flatten(lists[1..])
  }

  function StatementColumns(s: Statement): seq<string> {
    match s
    case QueryStatement(q) => if q.body.Select? then ItemColumns(q.body.projection) else []
    case Update(_, columns, _, _) => Flatten(columns)
    case _ => []
  }
}
