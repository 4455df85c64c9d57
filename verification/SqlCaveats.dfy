/** What a query that validation accepts can refer to and change. */
module SqlCaveats {
  import opened Order
  import opened SqlAst
  import opened SqlMentions
  import opened SqlValidation
  import opened Registry

  predicate Mentioned(ss: seq<Statement>, m: Mention) {
    exists s :: s in ss && StatementMentions(s, m)
  }

  predicate TableSkipped(ss: seq<Statement>, t: string) {
    exists s :: s in ss && SkipsTable(s, t)
  }

  predicate ColumnSkipped(ss: seq<Statement>, x: string) {
    exists s :: s in ss && SkipsColumn(s, x)
  }

  lemma {:induction false} AllTablesNamed(ss: seq<Statement>, t: string)
    ensures Mentioned(ss, TableName(t)) <==> t in AllTables(ss) || TableSkipped(ss, t)
  {
    hide StatementTables, StatementMentions, SkipsTable;
    if ss != [] {
      var before, last := ss[..|ss| - 1], ss[|ss| - 1];
      AllTablesNamed(before, t);
      StatementTablesNamed(last, t);
      assert forall s :: s in ss <==> s in before || s == last;
    }
  }

  lemma {:induction false} AllColumnsNamed(ss: seq<Statement>, x: string)
    ensures Mentioned(ss, ColumnName(x)) <==> x in AllColumns(ss) || ColumnSkipped(ss, x)
  {
    hide StatementColumns, StatementMentions, SkipsColumn;
    if ss != [] {
      var before, last := ss[..|ss| - 1], ss[|ss| - 1];
      AllColumnsNamed(before, x);
      StatementColumnsNamed(last, x);
      assert forall s :: s in ss <==> s in before || s == last;
    }
  }

  /**
   The reported tables are exactly the named ones when, and only when, every table of a part the
   walk passes over is also named in a part it walks.
   */
  lemma {:induction false} TablesReportedIff(ss: seq<Statement>)
    ensures (forall t :: t in Report(ss).tables <==> Mentioned(ss, TableName(t))) <==>
            (forall t :: TableSkipped(ss, t) ==> t in AllTables(ss))
  {
    hide Mentioned, TableSkipped, AllTables;
    forall t ensures Mentioned(ss, TableName(t)) <==> t in AllTables(ss) || TableSkipped(ss, t) {
      AllTablesNamed(ss, t);
    }
  }

  /** The same of columns and wildcards, of which far more is left out. */
  lemma {:induction false} ColumnsReportedIff(ss: seq<Statement>)
    ensures (forall x :: x in Report(ss).columns <==> Mentioned(ss, ColumnName(x))) <==>
            (forall x :: ColumnSkipped(ss, x) ==> x in AllColumns(ss))
  {
    hide Mentioned, ColumnSkipped, AllColumns;
    forall x ensures Mentioned(ss, ColumnName(x)) <==> x in AllColumns(ss) || ColumnSkipped(ss, x) {
      AllColumnsNamed(ss, x);
    }
  }

  /**
   On both paths the reported tables and columns are allowed. An accepted query names only tables its
   caveats allow exactly when the parts the walk passes over do; and likewise for columns.
   */
  lemma CaveatsRespectedIff(w: World, sql: string, c: Caveats, ability: string)
    requires Accepts(w, sql, Some(c), ability)
    ensures var p := Report(w.parse(sql).value);
            && (forall t :: t in p.tables ==> TableAllowed(c, t))
            && (forall x :: x in p.columns ==> ColumnAllowed(c, x))
    ensures var ss := w.parse(sql).value;
            (forall t :: Mentioned(ss, TableName(t)) ==> TableAllowed(c, t)) <==>
            (forall t :: TableSkipped(ss, t) ==> TableAllowed(c, t))
    ensures var ss := w.parse(sql).value;
            (forall x :: Mentioned(ss, ColumnName(x)) ==> ColumnAllowed(c, x)) <==>
            (forall x :: ColumnSkipped(ss, x) ==> ColumnAllowed(c, x))
  {
    hide Matches, AllTables, AllColumns, AnyDdl, AllRead, Allowed, Mentioned, TableSkipped, ColumnSkipped;
    var ss := w.parse(sql).value;
    forall t ensures Mentioned(ss, TableName(t)) <==> t in AllTables(ss) || TableSkipped(ss, t) {
      AllTablesNamed(ss, t);
    }
    forall x ensures Mentioned(ss, ColumnName(x)) <==> x in AllColumns(ss) || ColumnSkipped(ss, x) {
      AllColumnsNamed(ss, x);
    }
  }

  /** Under a restriction of columns an accepted query holds no wildcard exactly when no part left out holds one. */
  lemma WildcardRefusedIff(w: World, sql: string, c: Caveats, ability: string)
    requires Accepts(w, sql, Some(c), ability) && c.columns.Some?
    ensures var ss := w.parse(sql).value;
            && "*" !in Report(ss).columns
            && (!Mentioned(ss, ColumnName("*")) <==> !ColumnSkipped(ss, "*"))
  {
    hide Matches, AllTables, AllColumns, AnyDdl, AllRead, Allowed, Mentioned, ColumnSkipped;
    AllColumnsNamed(w.parse(sql).value, "*");
  }

  /** A bare SELECT of plain tables keeps a restriction of columns to the letter. */
  lemma {:induction false} PlainSelectRespected(w: World, sql: string, c: Caveats, ability: string, s: Statement,
      x: string)
    requires Accepts(w, sql, Some(c), ability) && w.parse(sql).value == [s] && PlainSelect(s)
    ensures StatementMentions(s, ColumnName(x)) ==> ColumnAllowed(c, x)
  {
    hide Matches, AllTables, AnyDdl, AllRead, Allowed, StatementMentions, PlainSelect;
    PlainSelectReportsAll(s, x);
    assert AllColumns([s]) == AllColumns([s][..0]) + StatementColumns(s);
  }

  // ---- What an accepted query writes ----

  lemma {:induction false} AllTargetsHas(ss: seq<Statement>, x: Touched)
    ensures x in AllTargets(ss) <==> exists s :: s in ss && WriteTarget(s) == Some(x)
  {
    hide WriteTarget;
    if ss != [] {
      var before, last := ss[..|ss| - 1], ss[|ss| - 1];
      AllTargetsHas(before, x);
      assert forall s :: s in ss <==> s in before || s == last;
    }
  }

  lemma {:induction false} AllTablesHas(ss: seq<Statement>, s: Statement, t: string)
    requires s in ss && t in StatementTables(s)
    ensures t in AllTables(ss)
  {
    hide StatementTables;
    if s in ss[..|ss| - 1] {
      AllTablesHas(ss[..|ss| - 1], s, t);
    }
  }

  predicate TargetsAllowed(ss: seq<Statement>, c: Caveats) {
    forall x, t :: x in AllTargets(ss) && x.Supported? && t in x.tables ==> TableAllowed(c, t)
  }

  predicate ListedAllowed(s: Statement, c: Caveats) {
    s.Delete? ==> forall t :: t in s.listed ==> TableAllowed(c, t)
  }

  /** Every table an accepted query is seen to write is an allowed one exactly when no DELETE in it lists another. */
  lemma TargetsAllowedIff(w: World, sql: string, c: Caveats, ability: string)
    requires Accepts(w, sql, Some(c), ability)
    ensures var ss := w.parse(sql).value;
            TargetsAllowed(ss, c) <==> forall s :: s in ss ==> ListedAllowed(s, c)
  {
    hide Matches, AllTables, AllColumns, AllTargets, AnyDdl, AllRead, Allowed, TableAllowed;
    var ss := w.parse(sql).value;
    if TargetsAllowed(ss, c) {
      forall s | s in ss ensures ListedAllowed(s, c) {
        ListedIsTarget(ss, s, c);
      }
    }
    if forall s :: s in ss ==> ListedAllowed(s, c) {
      forall x, t | x in AllTargets(ss) && x.Supported? && t in x.tables ensures TableAllowed(c, t) {
        AllTargetsHas(ss, x);
        var s :| s in ss && WriteTarget(s) == Some(x);
        TargetsWalked(s, t);
        assert ListedAllowed(s, c);
        if !(s.Delete? && s.listed != []) {
          AllTablesHas(ss, s, t);
        }
      }
    }
  }

  lemma ListedIsTarget(ss: seq<Statement>, s: Statement, c: Caveats)
    requires TargetsAllowed(ss, c) && s in ss
    ensures ListedAllowed(s, c)
  {
    hide AllTargets, TableAllowed;
    if s.Delete? && s.listed != [] {
      AllTargetsHas(ss, Supported(Unique(s.listed)));
    }
  }

  lemma {:induction false} NoTargets(ss: seq<Statement>)
    requires AllRead(ss)
    ensures AllTargets(ss) == []
  {
    hide WriteTarget;
    if ss != [] {
      NoTargets(ss[..|ss| - 1]);
      TargetsAreWrites(ss[|ss| - 1]);
    }
  }

  /** A change in a query body, in an explained statement or by a statement of a kind not told apart. */
  predicate HidesChange(s: Statement) {
    match s
    case QueryStatement(q) => QueryMentions(q, Change)
    case Explain(inner) => StatementMentions(inner, Change)
    case OtherStatement(rest, changes) => changes || RestMentions(rest, Change)
    case _ => false
  }

  /**
   What is reported as read-only changes nothing exactly when no query body, no explained statement
   and no statement of a kind not told apart does.
   */
  lemma ReadOnlyIff(ss: seq<Statement>)
    requires AllRead(ss)
    ensures !Mentioned(ss, Change) <==> forall s :: s in ss ==> !HidesChange(s)
  {
    hide QueryMentions, RestMentions;
    forall s | s in ss ensures StatementMentions(s, Change) <==> HidesChange(s) {
      assert ReadsOnly(s);
    }
    hide StatementMentions, HidesChange;
  }

  /** What each kind of statement asks of the ability. */
  predicate Fits(w: World, s: Statement, admin: bool, write: bool) {
    match s
    case QueryStatement(_) => true
    case Explain(_) => true
    case ExplainTable(_) => true
    case Transaction => true
    case SetVariable(variable, _) => admin && !w.blockedSetting(variable)
    case OtherStatement(_, _) => admin
    case _ => write
  }

  /** The caveats on their fields. */
  predicate Within(c: Caveats, ss: seq<Statement>) {
    && (c.readOnly ==> forall s :: s in ss ==>
          s.QueryStatement? || s.Explain? || s.ExplainTable? || s.Transaction? || s.OtherStatement?)
    && (c.tables.Some? ==> forall t :: t in AllTables(ss) ==> t in c.tables.value)
    && (c.columns.Some? ==> forall x :: x in AllColumns(ss) ==> x in c.columns.value && x != "*")
  }

  /**
   Acceptance by ability string, kind of statement and caveats. The text must parse; only an admin may
   call blocked functions; the caveats hold; and a text that is not on the list of approved ones holds
   statements, each of a kind the ability may use.
   */
  lemma AcceptedIff(w: World, sql: string, caveats: Option<Caveats>, ability: string)
    ensures var admin := ability == "tinycloud.duckdb/admin" || ability == "tinycloud.duckdb/*";
            var write := admin || ability == "tinycloud.duckdb/write";
            Accepts(w, sql, caveats, ability) <==>
              && w.parse(sql).Some?
              && (admin || !w.blocked(sql))
              && (caveats.Some? ==> Within(caveats.value, w.parse(sql).value))
              && ((caveats.Some? && caveats.value.statements.Some? && sql in caveats.value.statements.value)
                || (w.parse(sql).value != [] && forall s :: s in w.parse(sql).value ==> Fits(w, s, admin, write)))
  {
    DuckDbWriteTier(ability);
    if ability == DUCKDB_ADMIN || ability == DUCKDB_WRITE || ability == DUCKDB_ALL {
      ReadResolves(ability);
    }
    hide Matches, Resolve, AllTables, AllColumns;
    if w.parse(sql).Some? {
      forall s | s in w.parse(sql).value
        ensures Allowed(w, s, IsAdmin(ability), HasWrite(ability)) <==> Fits(w, s, IsAdmin(ability), HasWrite(ability))
      {
      }
    }
  }

  /**
   Off the pre-approved path, any ability string but the three of the write tier is limited to
   reading: no statement of an accepted query is a write or of a kind not told apart, there are no
   write targets, and nothing changes unless a query body or an explained statement holds a change.
   */
  lemma OthersOnlyRead(w: World, sql: string, caveats: Option<Caveats>, ability: string)
    requires Accepts(w, sql, caveats, ability)
    requires caveats.Some? && caveats.value.statements.Some? ==> sql !in caveats.value.statements.value
    requires ability != DUCKDB_ADMIN && ability != DUCKDB_WRITE && ability != DUCKDB_ALL
    ensures var p := Report(w.parse(sql).value); p.readOnly && !p.ddl && p.targets == []
    ensures var ss := w.parse(sql).value;
            && (forall s :: s in ss ==> s.QueryStatement? || s.Explain? || s.ExplainTable? || s.Transaction?)
            && (!Mentioned(ss, Change) <==> forall s :: s in ss ==> !HidesChange(s))
  {
    DuckDbWriteTier(ability);
    hide Matches, AllTables, AllColumns, AllTargets, Mentioned, HidesChange;
    var ss := w.parse(sql).value;
    forall s | s in ss
      ensures ReadsOnly(s) && !IsDdl(s) && (s.QueryStatement? || s.Explain? || s.ExplainTable? || s.Transaction?)
    {
      assert Allowed(w, s, false, false);
    }
    NoTargets(ss);
    ReadOnlyIff(ss);
  }

  /**
   Under the read-only caveat, on both paths, an accepted query is reported as read-only without write
   targets, and it changes nothing exactly when no query body, no explained statement and no statement
   of a kind not told apart does.
   */
  lemma ReadOnlyCaveat(w: World, sql: string, c: Caveats, ability: string)
    requires Accepts(w, sql, Some(c), ability) && c.readOnly
    ensures var p := Report(w.parse(sql).value); p.readOnly && p.targets == []
    ensures var ss := w.parse(sql).value; !Mentioned(ss, Change) <==> forall s :: s in ss ==> !HidesChange(s)
  {
    hide Matches, AllTables, AllColumns, AllTargets, AnyDdl, Allowed, Mentioned, HidesChange;
    NoTargets(w.parse(sql).value);
    ReadOnlyIff(w.parse(sql).value);
  }

  // ---- Inputs on which the parts left out matter ----
  // The texts say what the trees stand for; which texts parse into them is for the parser, a parameter, to say.

  const NOTHING := Rest([], [], [])

  function TableOf(name: string): TableWithJoins {
    TableWithJoins(Table(name, NOTHING), [], NOTHING)
  }

  function SelectFrom(table: string, item: Item): SetExpr {
    Select([TableOf(table)], [item], None, NOTHING)
  }

  const STAR := Wildcard(NOTHING)

  function QueryOf(body: SetExpr): Query {
    Query([], body, NOTHING)
  }

  /** One statement is accepted when its reported tables and columns are allowed and the ability covers its kind. */
  lemma SingleAccepted(w: World, sql: string, s: Statement, c: Caveats, ability: string)
    requires w.parse(sql) == Some([s]) && !w.blocked(sql) && c.statements.None?
    requires s.QueryStatement? || s.Explain? || ((s.Insert? || s.Delete?) && !c.readOnly && ability == DUCKDB_WRITE)
    requires forall t :: t in StatementTables(s) ==> TableAllowed(c, t)
    requires forall x :: x in StatementColumns(s) ==> ColumnAllowed(c, x)
    ensures Accepts(w, sql, Some(c), ability)
  {
    hide Matches, StatementTables, StatementColumns, TableAllowed, ColumnAllowed;
    DuckDbWriteTier(ability);
    ReadResolves(DUCKDB_WRITE);
    assert [s][..0] == [];
    assert AllTables([s]) == [] + StatementTables(s) && AllColumns([s]) == [] + StatementColumns(s);
    assert Allowed(w, s, IsAdmin(ability), HasWrite(ability));
    assert CaveatsHold(c, [s]);
  }

  lemma OneTable(j: TableWithJoins)
    requires j.relation.Table? && j.joins == []
    ensures FromTables([j]) == [j.relation.name]
  {
    assert [j][1..] == [];
    assert JoinTables(j) == [j.relation.name] + [];
  }

  lemma SelectFromTables(table: string, item: Item)
    ensures BodyTables(SelectFrom(table, item)) == [table]
  {
    OneTable(TableOf(table));
  }

  lemma {:induction false} FromTableNames(table: string, item: Item, m: Mention)
    requires m == TableName(table) || ItemMentions(item, m)
    ensures QueryMentions(QueryOf(SelectFrom(table, item)), m)
  {
    var b := SelectFrom(table, item);
    if m == TableName(table) {
      assert FactorMentions(b.from[0].relation, m);
      assert JoinMentions(b.from[0], m);
    } else {
      assert ItemMentions(b.projection[0], m);
    }
    assert BodyMentions(b, m);
  }

  /** `SELECT * FROM t UNION SELECT * FROM t` is accepted for every ability although no column is allowed. */
  lemma UnionHidesWildcard(w: World, sql: string, t: string, ability: string)
    requires var b := SelectFrom(t, STAR); w.parse(sql) == Some([QueryStatement(QueryOf(SetOperation(b, b)))])
    requires !w.blocked(sql)
    ensures Accepts(w, sql, Some(Caveats(Some([t]), Some([]), None, true)), ability)
    ensures Mentioned(w.parse(sql).value, ColumnName("*"))
  {
    hide Accepts;
    var b := SelectFrom(t, STAR);
    var s := QueryStatement(QueryOf(SetOperation(b, b)));
    SelectFromTables(t, STAR);
    assert StatementTables(s) == [t, t] by {
      assert BodyTables(SetOperation(b, b)) == BodyTables(b) + BodyTables(b);
    }
    SingleAccepted(w, sql, s, Caveats(Some([t]), Some([]), None, true), ability);
    FromTableNames(t, STAR, ColumnName("*"));
    assert BodyMentions(b, ColumnName("*")) && BodyMentions(SetOperation(b, b), ColumnName("*"));
    assert s in w.parse(sql).value && StatementMentions(s, ColumnName("*"));
  }

  /** `SELECT secret AS x FROM t` reports no column. */
  lemma AliasHidesColumn(w: World, sql: string, t: string, secret: string, ability: string)
    requires w.parse(sql) == Some([QueryStatement(QueryOf(SelectFrom(t, Expression(Rest([secret], [], [])))))])
    requires !w.blocked(sql)
    ensures Accepts(w, sql, Some(Caveats(Some([t]), Some([]), None, true)), ability)
    ensures Mentioned(w.parse(sql).value, ColumnName(secret))
  {
    hide Accepts;
    var item := Expression(Rest([secret], [], []));
    var b := SelectFrom(t, item);
    var s := QueryStatement(QueryOf(b));
    SelectFromTables(t, item);
    assert StatementTables(s) == [t];
    assert StatementColumns(s) == [] by {
      assert ItemColumns([item]) == [] + ItemColumns([item][1..]);
    }
    SingleAccepted(w, sql, s, Caveats(Some([t]), Some([]), None, true), ability);
    FromTableNames(t, item, ColumnName(secret));
    assert s in w.parse(sql).value && StatementMentions(s, ColumnName(secret));
  }

  /** `INSERT INTO t SELECT * FROM secret` is accepted under a restriction to `t`. */
  lemma InsertHidesSource(w: World, sql: string, t: string, secret: string)
    requires w.parse(sql) == Some([Insert(t, Some(QueryOf(SelectFrom(secret, STAR))), NOTHING)])
    requires !w.blocked(sql) && t != secret
    ensures var c := Caveats(Some([t]), None, None, false);
            && Accepts(w, sql, Some(c), DUCKDB_WRITE)
            && Mentioned(w.parse(sql).value, TableName(secret)) && !TableAllowed(c, secret)
  {
    hide Accepts;
    var s := Insert(t, Some(QueryOf(SelectFrom(secret, STAR))), NOTHING);
    SingleAccepted(w, sql, s, Caveats(Some([t]), None, None, false), DUCKDB_WRITE);
    FromTableNames(secret, STAR, TableName(secret));
    assert s in w.parse(sql).value && StatementMentions(s, TableName(secret));
  }

  /**
   A DELETE from `t` whose table list is `[secret]` is accepted under a restriction to `t`, with `secret`
   as its write target.
   */
  lemma ListedDeleteEscapes(w: World, sql: string, t: string, secret: string)
    requires w.parse(sql) == Some([Delete([secret], [TableOf(t)], [], NOTHING)])
    requires !w.blocked(sql) && t != secret
    ensures var c := Caveats(Some([t]), None, None, false);
            && Accepts(w, sql, Some(c), DUCKDB_WRITE)
            && Report(w.parse(sql).value).targets == [Supported([secret])] && !TableAllowed(c, secret)
  {
    hide Accepts;
    var s := Delete([secret], [TableOf(t)], [], NOTHING);
    OneTable(TableOf(t));
    hide FromTables;
    SingleAccepted(w, sql, s, Caveats(Some([t]), None, None, false), DUCKDB_WRITE);
    assert [secret][..0] == [] && Unique([secret]) == [secret];
    assert [s][..0] == [] && AllTargets([s]) == [] + [Supported([secret])];
  }

  /** An explained INSERT, and one that stands as a query body, are accepted as reads. */
  lemma ReadsHideChange(w: World, sql: string, t: string, s: Statement, ability: string)
    requires var change := Insert(t, None, NOTHING);
             s == Explain(change) || s == QueryStatement(QueryOf(ChangeBody(change)))
    requires w.parse(sql) == Some([s]) && !w.blocked(sql)
    ensures Accepts(w, sql, Some(Caveats(Some([]), Some([]), None, true)), ability)
    ensures Report([s]).readOnly && Mentioned([s], Change)
  {
    hide Accepts;
    assert StatementTables(s) == [] by {
      if s.QueryStatement? {
        assert BodyTables(s.query.body) == [];
      }
    }
    SingleAccepted(w, sql, s, Caveats(Some([]), Some([]), None, true), ability);
    assert s in [s] && StatementMentions(s, Change) by {
      if s.QueryStatement? {
        assert BodyMentions(s.query.body, Change);
      }
    }
  }

  /** `SELECT a FROM f((SELECT secret FROM t))` is accepted under a restriction to table `f` and column `a`. */
  lemma ArgumentsHideQuery(w: World, sql: string, f: string, a: string, t: string, secret: string, ability: string)
    requires var inner := QueryOf(SelectFrom(t, Column(secret)));
             var from := [TableWithJoins(Table(f, Rest([], [], [inner])), [], NOTHING)];
             w.parse(sql) == Some([QueryStatement(QueryOf(Select(from, [Column(a)], None, NOTHING)))])
    requires !w.blocked(sql) && a != "*"
    ensures Accepts(w, sql, Some(Caveats(Some([f]), Some([a]), None, true)), ability)
    ensures Mentioned(w.parse(sql).value, TableName(t)) && Mentioned(w.parse(sql).value, ColumnName(secret))
  {
    hide Accepts;
    var s := w.parse(sql).value[0];
    var from := s.query.body.from;
    OneTable(from[0]);
    assert BodyTables(s.query.body) == FromTables(from);
    assert StatementTables(s) == [f];
    assert StatementColumns(s) == [a] by {
      assert ItemColumns([Column(a)]) == [a] + ItemColumns([Column(a)][1..]);
    }
    SingleAccepted(w, sql, s, Caveats(Some([f]), Some([a]), None, true), ability);
    ArgumentNames(s, from[0].relation, t, secret, TableName(t));
    ArgumentNames(s, from[0].relation, t, secret, ColumnName(secret));
    assert s in w.parse(sql).value;
  }

  lemma {:induction false} ArgumentNames(s: Statement, f: TableFactor, t: string, secret: string, m: Mention)
    requires m == TableName(t) || m == ColumnName(secret)
    requires f.Table? && f.rest.queries == [QueryOf(SelectFrom(t, Column(secret)))]
    requires s.QueryStatement? && s.query.body.Select? && s.query.body.from == [TableWithJoins(f, [], NOTHING)]
    ensures StatementMentions(s, m)
  {
    FromTableNames(t, Column(secret), m);
    hide QueryMentions;
    assert QueryMentions(f.rest.queries[0], m);
    assert FactorMentions(f, m);
    assert JoinMentions(s.query.body.from[0], m);
    assert BodyMentions(s.query.body, m);
    StatementOfBody(s.query, m);
  }

  lemma {:induction false} StatementOfBody(q: Query, m: Mention)
    requires BodyMentions(q.body, m)
    ensures StatementMentions(QueryStatement(q), m)
  {
    hide BodyMentions;
  }

  /** Either way a statement of a kind not told apart is accepted: pre-approved, or for the admin ability. */
  predicate LetThrough(w: World, sql: string, c: Caveats, ability: string) {
    || (c.statements == Some([sql]) && !w.blocked(sql))
    || (c.statements == None && ability == DUCKDB_ADMIN)
  }

  lemma OtherAccepted(w: World, sql: string, s: Statement, c: Caveats, ability: string)
    requires w.parse(sql) == Some([s]) && s.OtherStatement? && LetThrough(w, sql, c, ability)
    ensures Accepts(w, sql, Some(c), ability) && Report([s]).readOnly && Report([s]).targets == []
  {
    hide Matches;
    DuckDbWriteTier(ability);
    assert [s][..0] == [];
    assert AllTables([s]) == [] + StatementTables(s) && AllColumns([s]) == [] + StatementColumns(s);
    assert AllRead([s]) && CaveatsHold(c, [s]);
    NoTargets([s]);
    assert Allowed(w, s, true, true);
  }

  /**
   `COPY t FROM 'file'` is accepted as a read although no table is allowed: for every ability when
   pre-approved, and for the admin ability anyway.
   */
  lemma CopyInIsRead(w: World, sql: string, t: string, approved: Option<seq<string>>, ability: string)
    requires var c := Caveats(Some([]), Some([]), approved, true);
             && w.parse(sql) == Some([OtherStatement(Rest([], [t], []), true)]) && LetThrough(w, sql, c, ability)
    ensures var p := Report(w.parse(sql).value);
            && Accepts(w, sql, Some(Caveats(Some([]), Some([]), approved, true)), ability)
            && p.readOnly && p.targets == []
            && Mentioned(p.statements, Change) && Mentioned(p.statements, TableName(t))
  {
    hide Accepts;
    var s := OtherStatement(Rest([], [t], []), true);
    OtherAccepted(w, sql, s, Caveats(Some([]), Some([]), approved, true), ability);
    assert s in [s] && StatementMentions(s, Change) && StatementMentions(s, TableName(t));
  }

  /** `COPY (SELECT * FROM t) TO 'file'` is so accepted although no column is allowed. */
  lemma CopyOutHidesWildcard(w: World, sql: string, t: string, approved: Option<seq<string>>, ability: string)
    requires var c := Caveats(Some([]), Some([]), approved, true);
             var s := OtherStatement(Rest([], [], [QueryOf(SelectFrom(t, STAR))]), false);
             w.parse(sql) == Some([s]) && LetThrough(w, sql, c, ability)
    ensures var ss := w.parse(sql).value;
            && Accepts(w, sql, Some(Caveats(Some([]), Some([]), approved, true)), ability)
            && Mentioned(ss, ColumnName("*")) && Mentioned(ss, TableName(t))
  {
    hide Accepts;
    var s := OtherStatement(Rest([], [], [QueryOf(SelectFrom(t, STAR))]), false);
    OtherAccepted(w, sql, s, Caveats(Some([]), Some([]), approved, true), ability);
    FromTableNames(t, STAR, ColumnName("*"));
    FromTableNames(t, STAR, TableName(t));
    hide QueryMentions;
    assert QueryMentions(s.rest.queries[0], ColumnName("*")) && QueryMentions(s.rest.queries[0], TableName(t));
    assert s in [s] && StatementMentions(s, ColumnName("*")) && StatementMentions(s, TableName(t));
  }

  /** `EXPLAIN COPY t FROM 'file'` is accepted as a read for every ability. */
  lemma ExplainedCopyIsRead(w: World, sql: string, t: string, ability: string)
    requires w.parse(sql) == Some([Explain(OtherStatement(Rest([], [t], []), true))]) && !w.blocked(sql)
    ensures Accepts(w, sql, Some(Caveats(Some([]), Some([]), None, true)), ability)
    ensures Mentioned(w.parse(sql).value, Change)
  {
    hide Accepts;
    var s := w.parse(sql).value[0];
    SingleAccepted(w, sql, s, Caveats(Some([]), Some([]), None, true), ability);
    assert s in w.parse(sql).value && StatementMentions(s.statement, Change) && StatementMentions(s, Change);
  }

  /** `SELECT * INTO u FROM t` is accepted as a read under a restriction to `t`. */
  lemma SelectIntoIsRead(w: World, sql: string, t: string, u: string, ability: string)
    requires var b := SelectFrom(t, STAR); w.parse(sql) == Some([QueryStatement(QueryOf(b.(into := Some(u))))])
    requires !w.blocked(sql)
    ensures Accepts(w, sql, Some(Caveats(Some([t]), None, None, true)), ability)
    ensures Mentioned(w.parse(sql).value, Change) && Mentioned(w.parse(sql).value, TableName(u))
  {
    hide Accepts;
    var b := SelectFrom(t, STAR);
    var s := QueryStatement(QueryOf(b.(into := Some(u))));
    OneTable(TableOf(t));
    assert BodyTables(s.query.body) == FromTables(b.from);
    assert StatementTables(s) == [t];
    SingleAccepted(w, sql, s, Caveats(Some([t]), None, None, true), ability);
    assert BodyMentions(s.query.body, Change) && BodyMentions(s.query.body, TableName(u));
    StatementOfBody(s.query, Change);
    StatementOfBody(s.query, TableName(u));
    assert s in w.parse(sql).value;
  }
}
