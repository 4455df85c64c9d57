/** `validate_sql` and the checks it combines. */
module SqlValidation {
  import opened Order
  import opened SqlAst
  import opened SqlWalk
  import opened Registry

  datatype Caveats = Caveats(
    tables: Option<seq<string>>,
    columns: Option<seq<string>>,
    statements: Option<seq<string>>,
    readOnly: bool)

  /** The SQL parser, the blocked functions and the blocked settings. */
  datatype World = World(parse: string -> Option<seq<Statement>>, blocked: string -> bool,
      blockedSetting: string -> bool)

  predicate TableAllowed(c: Caveats, t: string) {
    c.tables.None? || t in c.tables.value
  }

  predicate ColumnAllowed(c: Caveats, column: string) {
    c.columns.None? || (column != "*" && column in c.columns.value)
  }

  // ---- What a statement writes ----

  datatype Touched = Supported(tables: seq<string>) | Unsupported

  function Unique(names: seq<string>): (r: seq<string>)
    ensures forall n :: n in r <==> n in names
  {
    if names == [] then []
    else
      var before, last := Unique(names[..|names| - 1]), names[|names| - 1];
      assert forall n :: n in names <==> n in names[..|names| - 1] || n == last;
      if last in before then before else before + [last]
  }

  function FactorTarget(f: TableFactor): Touched {
    if f.Table? then Supported([f.name]) else Unsupported
  }

  function WriteTarget(s: Statement): Option<Touched> {
    match s
    case Insert(t, _, _) => Some(Supported([t]))
    case Update(target, _, _, _) => Some(FactorTarget(target.relation))
    case Delete(listed, from, _, _) =>
      if listed != [] then Some(Supported(Unique(listed)))
      else if |from| != 1 then Some(Unsupported)
      else Some(FactorTarget(from[0].relation))
    case CreateTable(n, _, _) => Some(Supported([n]))
    case AlterTable(n, _) => Some(Supported([n]))
    case CreateView(n, _, _) => Some(Supported([n]))
    case CreateIndex(t, _) => Some(Supported([t]))
    case Drop(names) => Some(Supported(Unique(names)))
    case _ => None
  }

  /** Only statements that change something have a write target. */
  lemma TargetsAreWrites(s: Statement)
    ensures WriteTarget(s).Some? <==> !ReadsOnly(s) && !s.SetVariable?
  {
  }

  /**
   The targets are the tables named by an INSERT or a definition, those a DELETE lists, or the one plain
   table that is updated or deleted from; any other form is marked.
   */
  lemma TargetsAre(s: Statement, t: string)
    requires WriteTarget(s).Some?
    ensures var touched := WriteTarget(s).value;
            if s.Update? then touched == (if s.target.relation.Table? then Supported([s.target.relation.name])
              else Unsupported)
            else if s.Delete? && s.listed == [] then
              touched == (if |s.from| == 1 && s.from[0].relation.Table? then Supported([s.from[0].relation.name])
                else Unsupported)
            else touched.Supported? && (t in touched.tables <==>
              t in if s.Delete? then s.listed else StatementTables(s))
  {
  }

  /** The walk meets every write target, except those a DELETE lists. */
  lemma TargetsWalked(s: Statement, t: string)
    requires WriteTarget(s).Some? && WriteTarget(s).value.Supported? && t in WriteTarget(s).value.tables
    ensures if s.Delete? && s.listed != [] then t in s.listed else t in StatementTables(s)
  {
    if s.Update? {
      assert s.target.relation.Table? && FactorTables(s.target.relation) == [t];
    } else if s.Delete? && s.listed == [] {
      assert FactorTables(s.from[0].relation) == [t] && s.from == [s.from[0]] + s.from[1..];
      assert t in JoinTables(s.from[0]);
    }
  }

  // ---- Acceptance ----

  predicate Allowed(w: World, s: Statement, isAdmin: bool, hasWrite: bool) {
    if isAdmin then !(s.SetVariable? && w.blockedSetting(s.variable))
    else if s.QueryStatement? || s.Explain? || s.ExplainTable? || s.Transaction? then true
    else if s.Insert? || s.Update? || s.Delete? || IsDdl(s) then hasWrite
    else false
  }

  function AllTables(ss: seq<Statement>): seq<string> {
    if ss == [] then [] else AllTables(ss[..|ss| - 1]) + StatementTables(ss[|ss| - 1])
  }

  function AllColumns(ss: seq<Statement>): seq<string> {
    if ss == [] then [] else AllColumns(ss[..|ss| - 1]) + StatementColumns(ss[|ss| - 1])
  }

  function AllTargets(ss: seq<Statement>): seq<Touched> {
    if ss == [] then []
    else
      var before, last := AllTargets(ss[..|ss| - 1]), WriteTarget(ss[|ss| - 1]);
      if last.Some? then before + [last.value] else before
  }

  predicate AllRead(ss: seq<Statement>) {
    forall s :: s in ss ==> ReadsOnly(s)
  }

  predicate AnyDdl(ss: seq<Statement>) {
    exists s :: s in ss && IsDdl(s)
  }

  /** `Vec::dedup`: drops repeats that stand next to each other. */
  function Dedup(names: seq<string>): (r: seq<string>)
    ensures forall n :: n in r <==> n in names
    ensures names != [] ==> r != [] && r[0] == names[0]
    ensures forall i :: 0 < i < |r| ==> r[i] != r[i - 1]
  {
    if |names| <= 1 then names
    else
      var rest := Dedup(names[1..]);
      assert forall n :: n in names <==> n == names[0] || n in names[1..];
      if names[0] == names[1] then rest else [names[0]] + rest
  }

  predicate CaveatsHold(c: Caveats, ss: seq<Statement>) {
    && (c.readOnly ==> AllRead(ss))
    && (forall t :: t in AllTables(ss) ==> TableAllowed(c, t))
    && (forall x :: x in AllColumns(ss) ==> ColumnAllowed(c, x))
  }

  predicate PreApproved(caveats: Option<Caveats>, sql: string) {
    caveats.Some? && caveats.value.statements.Some? && sql in caveats.value.statements.value
  }

  datatype Parsed = Parsed(
    statements: seq<Statement>,
    tables: seq<string>,
    columns: seq<string>,
    targets: seq<Touched>,
    readOnly: bool,
    ddl: bool)

  function Report(ss: seq<Statement>): Parsed {
    Parsed(ss, Dedup(AllTables(ss)), Dedup(AllColumns(ss)), AllTargets(ss), AllRead(ss), AnyDdl(ss))
  }

  predicate PlainAccepts(
    w: World, sql: string, ss: seq<Statement>, caveats: Option<Caveats>, ability: string, isAdmin: bool, hasWrite: bool)
  {
    && ss != [] && (forall s :: s in ss ==> Allowed(w, s, isAdmin, hasWrite))
    && (isAdmin || !w.blocked(sql)) && (AnyDdl(ss) ==> hasWrite)
    && (AllRead(ss) || Resolve(GENERATED, ability) != DUCKDB_READ)
    && (caveats.Some? ==> CaveatsHold(caveats.value, ss))
  }

  ghost predicate IsAdmin(ability: string) {
    Matches(GENERATED, ability, DUCKDB_ADMIN)
  }

  ghost predicate HasWrite(ability: string) {
    IsAdmin(ability) || Matches(GENERATED, ability, DUCKDB_WRITE)
  }

  ghost predicate Accepts(w: World, sql: string, caveats: Option<Caveats>, ability: string) {
    w.parse(sql).Some? &&
    var ss := w.parse(sql).value;
    if PreApproved(caveats, sql) then (IsAdmin(ability) || !w.blocked(sql)) && CaveatsHold(caveats.value, ss)
    else PlainAccepts(w, sql, ss, caveats, ability, IsAdmin(ability), HasWrite(ability))
  }

  // ---- The validator ----

  class Flags {
    var readOnly: bool
    var ddl: bool

    constructor ()
      ensures readOnly && !ddl
    {
      readOnly, ddl := true, false;
    }
  }

  method PushColumns(s: Statement, out: Names)
    modifies out
    ensures out.items == old(out.items) + StatementColumns(s)
  {
    match s
    case QueryStatement(q) =>
      if q.body.Select? {
        out.items := out.items + ItemColumns(q.body.projection);
      }
    case Update(_, columns, _, _) => out.items := out.items + Flatten(columns);
    case _ =>
  }

  method PushTables(s: Statement, out: Names)
    modifies out
    ensures out.items == old(out.items) + StatementTables(s)
  {
    match s
    case QueryStatement(q) => WalkQuery(q, out);
    case Update(target, _, _, _) => WalkJoin(target, out);
    case Delete(_, from, _, _) => WalkFrom(from, out);
    case Insert(t, _, _) => out.Push(t);
    case CreateTable(n, _, _) => out.Push(n);
    case AlterTable(n, _) => out.Push(n);
    case CreateView(n, _, _) => out.Push(n);
    case CreateIndex(t, _) => out.Push(t);
    case Drop(names) =>
      ghost var start := out.items;
      for i := 0 to |names|
        invariant out.items == start + names[..i]
      {
        out.Push(names[i]);
      }
    case _ =>
  }

  method Classify(s: Statement, tables: Names, columns: Names, flags: Flags)
    requires tables != columns
    modifies tables, columns, flags
    ensures tables.items == old(tables.items) + StatementTables(s)
    ensures columns.items == old(columns.items) + StatementColumns(s)
    ensures flags.readOnly == (old(flags.readOnly) && ReadsOnly(s)) && flags.ddl == (old(flags.ddl) || IsDdl(s))
  {
    hide StatementTables, StatementColumns;
    PushTables(s, tables);
    PushColumns(s, columns);
    if !ReadsOnly(s) {
      flags.readOnly := false;
    }
    if IsDdl(s) {
      flags.ddl := true;
    }
  }

  /** Goes through the statements, refusing at the first that is not allowed if `check` is set. */
  method Scan(w: World, ss: seq<Statement>, check: bool, isAdmin: bool, hasWrite: bool) returns (ok: bool, p: Parsed)
    ensures ok <==> (check ==> forall s :: s in ss ==> Allowed(w, s, isAdmin, hasWrite))
    ensures ok ==> p == Parsed(ss, AllTables(ss), AllColumns(ss), AllTargets(ss), AllRead(ss), AnyDdl(ss))
  {
    hide StatementTables, StatementColumns, WriteTarget, Allowed, ReadsOnly, IsDdl;
    var tables := new Names();
    var columns := new Names();
    var flags := new Flags();
    var targets: seq<Touched> := [];
    for i := 0 to |ss|
      invariant fresh(tables) && fresh(columns) && fresh(flags) && tables != columns
      invariant tables.items == AllTables(ss[..i]) && columns.items == AllColumns(ss[..i])
      invariant targets == AllTargets(ss[..i])
      invariant flags.readOnly == AllRead(ss[..i]) && flags.ddl == AnyDdl(ss[..i])
      invariant check ==> forall s :: s in ss[..i] ==> Allowed(w, s, isAdmin, hasWrite)
    {
      var s := ss[i];
      if check && !Allowed(w, s, isAdmin, hasWrite) {
        return false, Parsed([], [], [], [], true, false);
      }
      Classify(s, tables, columns, flags);
      if WriteTarget(s).Some? {
        targets := targets + [WriteTarget(s).value];
      }
      assert ss[..i + 1][..i] == ss[..i] && forall x :: x in ss[..i + 1] <==> x in ss[..i] || x == s;
    }
    assert ss[..|ss|] == ss;
    ok, p := true, Parsed(ss, tables.items, columns.items, targets, flags.readOnly, flags.ddl);
  }

  method CheckCaveats(c: Caveats, p: Parsed) returns (ok: bool)
    ensures ok <==>
            && (c.readOnly ==> p.readOnly)
            && (forall t :: t in p.tables ==> TableAllowed(c, t))
            && (forall x :: x in p.columns ==> ColumnAllowed(c, x))
  {
    if c.readOnly && !p.readOnly {
      return false;
    }
    for i := 0 to |p.tables|
      invariant forall t :: t in p.tables[..i] ==> TableAllowed(c, t)
    {
      if !TableAllowed(c, p.tables[i]) {
        return false;
      }
    }
    for i := 0 to |p.columns|
      invariant forall x :: x in p.columns[..i] ==> ColumnAllowed(c, x)
    {
      if !ColumnAllowed(c, p.columns[i]) {
        return false;
      }
    }
    assert p.tables[..|p.tables|] == p.tables && p.columns[..|p.columns|] == p.columns;
    ok := true;
  }

  /** Accepts exactly the queries `Accepts` describes, and reports what they refer to. */
  method ValidateSql(w: World, sql: string, caveats: Option<Caveats>, ability: string) returns (r: Option<Parsed>)
    ensures r.Some? <==> Accepts(w, sql, caveats, ability)
    ensures r.Some? ==> r.value == Report(w.parse(sql).value)
  {
    hide Matches, AllTables, AllColumns, AllTargets, AllRead, AnyDdl, Allowed;
    var isAdmin := AbilityMatches(GENERATED, ability, DUCKDB_ADMIN);
    var writes := AbilityMatches(GENERATED, ability, DUCKDB_WRITE);
    var hasWrite := isAdmin || writes;
    var statements := w.parse(sql);
    var preApproved := PreApproved(caveats, sql);
    if statements.None? || (!isAdmin && w.blocked(sql)) || (!preApproved && statements.value == []) {
      return None;
    }
    var ss := statements.value;
    var ok, p := Scan(w, ss, !preApproved, isAdmin, hasWrite);
    if !ok {
      return None;
    }
    if !preApproved {
      if (p.ddl && !hasWrite) || (!p.readOnly && Resolve(GENERATED, ability) == DUCKDB_READ) {
        return None;
      }
    }
    if caveats.Some? {
      var fine := CheckCaveats(caveats.value, p);
      if !fine {
        return None;
      }
    }
    r := Some(p.(tables := Dedup(p.tables), columns := Dedup(p.columns)));
  }
}
