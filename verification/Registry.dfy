/** Actions, their aliases and what holding one implies (tinycloud-auth/src/policy_capability.rs). */
module Registry {
  import opened Order

  /** Any registry of aliases and implications, cyclic ones included. */
  datatype Registry = Registry(aliases: map<string, string>, implications: map<string, seq<string>>)

  function Resolve(reg: Registry, action: string): string {
    if action in reg.aliases then reg.aliases[action] else action
  }

  function Implied(reg: Registry, action: string): seq<string> {
    if action in reg.implications then reg.implications[action] else []
  }

  /** Whatever a held action implies is held too. */
  ghost predicate Closed(reg: Registry, held: set<string>) {
    forall a, b :: a in held && b in Implied(reg, a) ==> Resolve(reg, b) in held
  }

  function ResolveAll(reg: Registry, actions: seq<string>): set<string> {
    set a | a in actions :: Resolve(reg, a)
  }

  /** The least closed set above these actions. */
  ghost predicate IsExpansion(reg: Registry, actions: seq<string>, out: set<string>) {
    && ResolveAll(reg, actions) <= out && Closed(reg, out)
    && forall held: set<string> :: ResolveAll(reg, actions) <= held && Closed(reg, held) ==> out <= held
  }

  lemma ExpansionIsUnique(reg: Registry, actions: seq<string>, a: set<string>, b: set<string>)
    requires IsExpansion(reg, actions, a) && IsExpansion(reg, actions, b)
    ensures a == b
  {
  }

  /** All canonical names the search can meet. */
  function Universe(reg: Registry, actions: seq<string>): set<string> {
    ResolveAll(reg, actions) + set a, b | a in reg.implications && b in reg.implications[a] :: Resolve(reg, b)
  }

  /** What is on the stack comes from the start or is implied by something found. */
  ghost predicate StackOk(reg: Registry, actions: seq<string>, stack: seq<string>, out: set<string>) {
    && (forall a :: a in actions ==> a in stack || Resolve(reg, a) in out)
    && (forall a, b :: a in out && b in Implied(reg, a) ==> b in stack || Resolve(reg, b) in out)
    && (forall a :: a in stack ==> Resolve(reg, a) in Universe(reg, actions))
    && (forall held: set<string> :: ResolveAll(reg, actions) <= held && Closed(reg, held) ==>
          out <= held && forall a :: a in stack ==> Resolve(reg, a) in held)
  }

  lemma StackStarts(reg: Registry, actions: seq<string>)
    ensures StackOk(reg, actions, actions, {})
  {
  }

  /** Taking the top of the stack keeps this, whether or not it was met before. */
  lemma StackSteps(reg: Registry, actions: seq<string>, stack: seq<string>, out: set<string>)
    requires StackOk(reg, actions, stack, out) && stack != []
    ensures var top, rest := stack[|stack| - 1], stack[..|stack| - 1];
            var c := Resolve(reg, top);
            && c in Universe(reg, actions)
            && StackOk(reg, actions, if c in out then rest else rest + Implied(reg, c), out + {c})
  {
    var top, rest := stack[|stack| - 1], stack[..|stack| - 1];
    var c := Resolve(reg, top);
    assert forall a :: a in stack <==> a in rest || a == top;
    if c !in out {
      assert forall a :: a in rest + Implied(reg, c) <==> a in rest || a in Implied(reg, c);
      forall b | b in Implied(reg, c) ensures Resolve(reg, b) in Universe(reg, actions) {
        assert c in reg.implications;
      }
    } else {
      assert out + {c} == out;
    }
  }

  lemma StackEmpty(reg: Registry, actions: seq<string>, out: set<string>)
    requires StackOk(reg, actions, [], out)
    ensures IsExpansion(reg, actions, out)
  {
  }

  /** The worklist search ends, on every registry, with the least closed set. */
  method ExpandActions(reg: Registry, actions: seq<string>) returns (out: set<string>)
    ensures IsExpansion(reg, actions, out)
  {
    hide StackOk, IsExpansion, Resolve, Implied, Universe;
    out := {};
    var stack := actions;
    StackStarts(reg, actions);
    while stack != []
      invariant StackOk(reg, actions, stack, out) && out <= Universe(reg, actions)
      decreases Universe(reg, actions) - out, |stack|
    {
      StackSteps(reg, actions, stack, out);
      var canonical := Resolve(reg, stack[|stack| - 1]);
      stack := stack[..|stack| - 1];
      if canonical !in out {
        out := out + {canonical};
        stack := stack + Implied(reg, canonical);
      } else {
        assert out + {canonical} == out;
      }
    }
    StackEmpty(reg, actions, out);
  }

  /** Holding one action satisfies a requirement for the other. */
  ghost predicate Matches(reg: Registry, held: string, required: string) {
    forall s: set<string> :: Resolve(reg, held) in s && Closed(reg, s) ==> Resolve(reg, required) in s
  }

  method AbilityMatches(reg: Registry, held: string, required: string) returns (r: bool)
    ensures r <==> Matches(reg, held, required)
  {
    var out := ExpandActions(reg, [held]);
    assert ResolveAll(reg, [held]) == {Resolve(reg, held)};
    r := Resolve(reg, required) in out;
  }

  /** Matching is a preorder. */
  lemma MatchesPreorder(reg: Registry, a: string, b: string, c: string)
    ensures Matches(reg, a, a)
    ensures Matches(reg, a, b) && Matches(reg, b, c) ==> Matches(reg, a, c)
  {
  }

  // ---- The generated tables ----

  const DUCKDB_ADMIN := "tinycloud.duckdb/admin"
  const DUCKDB_EXPORT := "tinycloud.duckdb/export"
  const DUCKDB_IMPORT := "tinycloud.duckdb/import"
  const DUCKDB_READ := "tinycloud.duckdb/read"
  const DUCKDB_SELECT := "tinycloud.duckdb/select"
  const DUCKDB_WRITE := "tinycloud.duckdb/write"
  const DUCKDB_ALL := "tinycloud.duckdb/*"
  const KV_DEL := "tinycloud.kv/del"
  const KV_DELETE := "tinycloud.kv/delete"
  const SQL_ADMIN := "tinycloud.sql/admin"
  const SQL_READ := "tinycloud.sql/read"
  const SQL_SCHEMA := "tinycloud.sql/schema"
  const SQL_SELECT := "tinycloud.sql/select"
  const SQL_WRITE := "tinycloud.sql/write"
  const SQL_ALL := "tinycloud.sql/*"

  const GENERATED := Registry(
    map[DUCKDB_SELECT := DUCKDB_READ, KV_DELETE := KV_DEL, SQL_SELECT := SQL_READ],
    map[
      DUCKDB_ALL := [DUCKDB_ADMIN, DUCKDB_EXPORT, DUCKDB_IMPORT, DUCKDB_READ, DUCKDB_WRITE],
      SQL_ALL := [SQL_ADMIN, SQL_READ, SQL_SCHEMA, SQL_WRITE],
      SQL_ADMIN := [SQL_SCHEMA]
    ])

  predicate IsDuckDb(a: string) { |a| > 17 && a[10] == 'd' }
  predicate IsSql(a: string) { |a| > 14 && a[10] == 's' }

  /** The names are told apart by their service and the first letters of the action. */
  lemma NamesDiffer()
    ensures IsDuckDb(DUCKDB_ADMIN) && IsDuckDb(DUCKDB_EXPORT) && IsDuckDb(DUCKDB_IMPORT) && IsDuckDb(DUCKDB_READ)
    ensures IsDuckDb(DUCKDB_SELECT) && IsDuckDb(DUCKDB_WRITE) && IsDuckDb(DUCKDB_ALL)
    ensures DUCKDB_ADMIN[17] == 'a' && DUCKDB_EXPORT[17] == 'e' && DUCKDB_IMPORT[17] == 'i' && DUCKDB_READ[17] == 'r'
    ensures DUCKDB_SELECT[17] == 's' && DUCKDB_WRITE[17] == 'w' && DUCKDB_ALL[17] == '*'
    ensures IsSql(SQL_ADMIN) && IsSql(SQL_READ) && IsSql(SQL_SCHEMA) && IsSql(SQL_SELECT) && IsSql(SQL_WRITE)
    ensures IsSql(SQL_ALL)
    ensures SQL_ADMIN[14] == 'a' && SQL_READ[14] == 'r' && SQL_SCHEMA[14..16] == "sc" && SQL_SELECT[14..16] == "se"
    ensures SQL_WRITE[14] == 'w' && SQL_ALL[14] == '*'
    ensures |KV_DEL| > 10 && |KV_DELETE| > 10 && KV_DEL[10] == 'k' && KV_DELETE[10] == 'k'
  {
  }

  /** What a canonical action implies, itself included. */
  function Above(c: string): set<string> {
    if c == DUCKDB_ALL then {c, DUCKDB_ADMIN, DUCKDB_EXPORT, DUCKDB_IMPORT, DUCKDB_READ, DUCKDB_WRITE}
    else if c == SQL_ALL then {c, SQL_ADMIN, SQL_READ, SQL_SCHEMA, SQL_WRITE}
    else if c == SQL_ADMIN then {c, SQL_SCHEMA}
    else {c}
  }

  predicate IsAlias(a: string) {
    a == DUCKDB_SELECT || a == KV_DELETE || a == SQL_SELECT
  }

  lemma Canonical(a: string)
    requires !IsAlias(a)
    ensures Resolve(GENERATED, a) == a
  {
  }

  lemma ResolvesOnce(a: string)
    ensures !IsAlias(Resolve(GENERATED, a))
  {
    NamesDiffer();
  }

  lemma AboveAre(c: string, b: string)
    requires b in Above(c) && !IsAlias(c)
    ensures !IsAlias(b) && (b == c || b in Implied(GENERATED, c))
  {
    NamesDiffer();
  }

  lemma AboveClosed(c: string)
    requires !IsAlias(c)
    ensures Closed(GENERATED, Above(c))
  {
    NamesDiffer();
    forall a, b | a in Above(c) && b in Implied(GENERATED, a) ensures Resolve(GENERATED, b) in Above(c) {
      assert a == DUCKDB_ALL || a == SQL_ALL || a == SQL_ADMIN;
      assert b in Above(a);
      AboveAre(a, b);
      Canonical(b);
    }
  }

  /** On the generated tables an action matches exactly what its canonical form implies in at most one step. */
  lemma MatchesIff(held: string, required: string)
    ensures Matches(GENERATED, held, required) <==> Resolve(GENERATED, required) in Above(Resolve(GENERATED, held))
  {
    var c, b := Resolve(GENERATED, held), Resolve(GENERATED, required);
    ResolvesOnce(held);
    AboveClosed(c);
    assert c in Above(c);
    if b in Above(c) {
      AboveAre(c, b);
      Canonical(b);
    }
    hide Above, Resolve, Implied, IsAlias;
  }

  lemma Resolved(a: string)
    ensures Resolve(GENERATED, a) == (if a == DUCKDB_SELECT then DUCKDB_READ else if a == KV_DELETE then KV_DEL
              else if a == SQL_SELECT then SQL_READ else a)
  {
    NamesDiffer();
  }

  /** For every string: the actions that allow DuckDB writes are `admin`, `write` and `*`. */
  lemma DuckDbWriteTier(held: string)
    ensures Matches(GENERATED, held, DUCKDB_ADMIN) <==>
            held == "tinycloud.duckdb/admin" || held == "tinycloud.duckdb/*"
    ensures Matches(GENERATED, held, DUCKDB_WRITE) <==>
            held == "tinycloud.duckdb/write" || held == "tinycloud.duckdb/*"
    ensures Matches(GENERATED, held, DUCKDB_ADMIN) || Matches(GENERATED, held, DUCKDB_WRITE) <==>
            held == DUCKDB_ADMIN || held == DUCKDB_WRITE || held == DUCKDB_ALL
  {
    NamesDiffer();
    MatchesIff(held, DUCKDB_ADMIN);
    MatchesIff(held, DUCKDB_WRITE);
    Resolved(held);
    Resolved(DUCKDB_ADMIN);
    Resolved(DUCKDB_WRITE);
    hide Matches, Resolve;
  }

  /** And every other DuckDB action, by the strings that match it. */
  lemma DuckDbTiers(held: string)
    ensures Matches(GENERATED, held, "tinycloud.duckdb/read") <==>
            held == "tinycloud.duckdb/read" || held == "tinycloud.duckdb/select" || held == "tinycloud.duckdb/*"
    ensures Matches(GENERATED, held, "tinycloud.duckdb/import") <==>
            held == "tinycloud.duckdb/import" || held == "tinycloud.duckdb/*"
    ensures Matches(GENERATED, held, "tinycloud.duckdb/export") <==>
            held == "tinycloud.duckdb/export" || held == "tinycloud.duckdb/*"
  {
    NamesDiffer();
    MatchesIff(held, DUCKDB_READ);
    MatchesIff(held, DUCKDB_IMPORT);
    MatchesIff(held, DUCKDB_EXPORT);
    Resolved(held);
    Resolved(DUCKDB_READ);
    Resolved(DUCKDB_IMPORT);
    Resolved(DUCKDB_EXPORT);
    hide Matches, Resolve;
  }

  /** The same of SQL. */
  lemma SqlTiers(held: string)
    ensures Matches(GENERATED, held, "tinycloud.sql/schema") <==>
            held == "tinycloud.sql/schema" || held == "tinycloud.sql/admin" || held == "tinycloud.sql/*"
    ensures Matches(GENERATED, held, "tinycloud.sql/read") <==>
            held == "tinycloud.sql/read" || held == "tinycloud.sql/select" || held == "tinycloud.sql/*"
    ensures Matches(GENERATED, held, "tinycloud.sql/write") <==>
            held == "tinycloud.sql/write" || held == "tinycloud.sql/*"
    ensures Matches(GENERATED, held, "tinycloud.sql/admin") <==>
            held == "tinycloud.sql/admin" || held == "tinycloud.sql/*"
  {
    NamesDiffer();
    MatchesIff(held, SQL_SCHEMA);
    MatchesIff(held, SQL_READ);
    MatchesIff(held, SQL_WRITE);
    MatchesIff(held, SQL_ADMIN);
    Resolved(held);
    Resolved(SQL_SCHEMA);
    Resolved(SQL_READ);
    Resolved(SQL_WRITE);
    Resolved(SQL_ADMIN);
    hide Matches, Resolve;
  }

  /** Nothing that resolves to reading is of the write tier. */
  lemma ReadResolves(ability: string)
    requires ability == DUCKDB_ADMIN || ability == DUCKDB_WRITE || ability == DUCKDB_ALL
    ensures Resolve(GENERATED, ability) != DUCKDB_READ
  {
    NamesDiffer();
    Resolved(ability);
  }
}
