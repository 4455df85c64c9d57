/** The state a delegation is in because of everything above it (tinycloud-core/src/db.rs). */
module AccountLifecycle {
  import opened Order
  import opened Graph
  import opened ChainWalk

  const MAX_ACCOUNT_ANCESTOR_NODES: nat := 4096

  type Instant = int

  datatype Row = Row(expiry: Option<Instant>, notBefore: Option<Instant>)

  /** A row by its two ids: a child and its parent, or a revoked delegation and its revocation. */
  datatype Ref = Ref(of: Hash, id: Hash)

  /** Delegation rows, their parent links, and the revocation rows in the order they are found. */
  datatype Tables = Tables(links: Graph, rows: map<Hash, Row>, revocations: seq<Ref>)

  /** What was loaded: parent lists, delegation rows and revocation ids, lists in ascending order. */
  datatype AncestorState = AncestorState(
    parents: map<Hash, seq<Hash>>,
    rows: map<Hash, Row>,
    revocations: map<Hash, seq<Hash>>)

  datatype Outcome =
    | Revoked(revocation: Hash)
    | AncestorRevoked(ancestor: Hash)
    | Expired
    | Pending
    | Active
    | TooManyNodes
    | DelegationMissing

  // ---- The meaning of a lifecycle ----

  /** More ids than the limit allows. */
  predicate Many(ids: set<Hash>) {
    |ids| > MAX_ACCOUNT_ANCESTOR_NODES
  }

  predicate Lapsed(row: Row, now: Instant) {
    row.expiry.Some? && now >= row.expiry.value
  }

  predicate NotYet(row: Row, now: Instant) {
    row.notBefore.Some? && now < row.notBefore.value
  }

  /** No revoked id lies at most `k` links above the root, the root aside. */
  predicate Clean(g: Graph, revoked: set<Hash>, root: Hash, k: nat) {
    forall x :: x in Within(g, {root}, k) && x in revoked ==> x == root
  }

  /** The revoked ancestor fewest links above the root, and among those the one with the least digest. */
  predicate Nearest(g: Graph, revoked: set<Hash>, root: Hash, k: nat, a: Hash) {
    && k > 0 && Clean(g, revoked, root, k - 1)
    && a in Within(g, {root}, k) && a in revoked && a != root
    && forall x :: x in Within(g, {root}, k) && x in revoked && x != root ==> a <= x
  }

  /** The search gets as far as the nearest revoked ancestor. */
  predicate Named(g: Graph, revoked: set<Hash>, root: Hash, k: nat, a: Hash) {
    Nearest(g, revoked, root, k, a) && !Many(Within(g, {root}, k - 1))
  }

  /** The search has met too many ids and no revoked one. */
  predicate Overfull(g: Graph, revoked: set<Hash>, root: Hash, k: nat) {
    Clean(g, revoked, root, k) && Many(Within(g, {root}, k))
  }

  ghost predicate Fits(g: Graph, root: Hash) {
    !Many(Reach(g, {root}))
  }

  ghost predicate AllClean(g: Graph, revoked: set<Hash>, root: Hash) {
    forall x :: x in Reach(g, {root}) && x in revoked ==> x == root
  }

  ghost function ByDates(rows: map<Hash, Row>, above: set<Hash>, now: Instant): Outcome {
    if !(above <= rows.Keys) then DelegationMissing
    else if exists x :: x in above && Lapsed(rows[x], now) then Expired
    else if exists x :: x in above && NotYet(rows[x], now) then Pending
    else Active
  }

  /** The outcome for a root that is not itself revoked, in terms of what is reachable from it. */
  ghost predicate IsLifecycle(g: Graph, revoked: set<Hash>, rows: map<Hash, Row>, root: Hash, now: Instant,
                              out: Outcome)
  {
    match out
    case Revoked(_) => false
    case AncestorRevoked(a) => exists k: nat :: Named(g, revoked, root, k, a)
    case TooManyNodes => exists k: nat :: Overfull(g, revoked, root, k)
    case _ => AllClean(g, revoked, root) && Fits(g, root) && out == ByDates(rows, Reach(g, {root}), now)
  }

  /**
   The dates of everything above decide: expired exactly when some expiry is at or before now, active
   exactly when every expiry lies ahead and every start has come.
   */
  ghost predicate DatedAs(rows: map<Hash, Row>, above: set<Hash>, now: Instant, out: Outcome) {
    && above <= rows.Keys && (out == Expired || out == Pending || out == Active)
    && (out == Expired <==> exists x :: x in above && rows[x].expiry.Some? && rows[x].expiry.value <= now)
    && (out == Active <==>
          forall x :: x in above ==>
            && (rows[x].expiry.None? || now < rows[x].expiry.value)
            && (rows[x].notBefore.None? || rows[x].notBefore.value <= now))
  }

  lemma DatesDecide(rows: map<Hash, Row>, above: set<Hash>, now: Instant)
    ensures if above <= rows.Keys then DatedAs(rows, above, now, ByDates(rows, above, now))
            else ByDates(rows, above, now) == DelegationMissing
  {
    if above <= rows.Keys {
      forall x | x in above
        ensures Lapsed(rows[x], now) <==> rows[x].expiry.Some? && rows[x].expiry.value <= now
        ensures NotYet(rows[x], now) <==> rows[x].notBefore.Some? && now < rows[x].notBefore.value
      {
      }
      hide Lapsed, NotYet;
    }
  }

  lemma {:induction false} WithinGrows(g: Graph, roots: set<Hash>, i: nat, j: nat)
    requires i <= j
    ensures Within(g, roots, i) <= Within(g, roots, j)
    decreases j
  {
    if i < j {
      WithinGrows(g, roots, i, j - 1);
    }
  }

  lemma ManyMeans(ids: set<Hash>)
    ensures Many(ids) <==> |ids| > 4096
  {
  }

  lemma ManyGrows(a: set<Hash>, b: set<Hash>)
    requires a <= b
    ensures Many(a) ==> Many(b)
  {
    SubsetSize(a, b);
  }

  /** At most one distance can be the nearest. */
  lemma NearestIsUnique(g: Graph, revoked: set<Hash>, root: Hash, i: nat, a: Hash, j: nat, b: Hash)
    requires Nearest(g, revoked, root, i, a) && Nearest(g, revoked, root, j, b)
    ensures i == j && a == b
  {
    if i < j {
      WithinGrows(g, {root}, i, j - 1);
    } else if j < i {
      WithinGrows(g, {root}, j, i - 1);
    }
  }

  lemma NearestIsNotClean(g: Graph, revoked: set<Hash>, root: Hash, k: nat, a: Hash)
    requires Nearest(g, revoked, root, k, a)
    ensures !AllClean(g, revoked, root) && forall j: nat :: Clean(g, revoked, root, j) ==> j < k
  {
    ReachMember(g, {root}, k);
    forall j: nat | Clean(g, revoked, root, j) ensures j < k {
      if k <= j {
        WithinGrows(g, {root}, k, j);
      }
    }
  }

  lemma {:induction false} WithinFits(g: Graph, root: Hash, k: nat)
    requires Fits(g, root)
    ensures !Many(Within(g, {root}, k))
  {
    ReachMember(g, {root}, k);
    ManyGrows(Within(g, {root}, k), Reach(g, {root}));
  }

  /** An early answer excludes every other kind of answer. */
  lemma RevokedExcludes(g: Graph, revoked: set<Hash>, rows: map<Hash, Row>, root: Hash, now: Instant, out: Outcome,
      k: nat, a: Hash)
    requires Named(g, revoked, root, k, a)
    requires IsLifecycle(g, revoked, rows, root, now, out)
    ensures out == AncestorRevoked(a)
  {
    NearestIsNotClean(g, revoked, root, k, a);
    hide Reach, Fits, AllClean, Nearest, Within, Clean, Many, ByDates;
    match out
    case AncestorRevoked(b) =>
      var j: nat :| Named(g, revoked, root, j, b);
      NearestIsUnique(g, revoked, root, k, a, j, b);
    case TooManyNodes =>
      var j: nat :| Overfull(g, revoked, root, j);
      WithinGrows(g, {root}, j, k - 1);
      ManyGrows(Within(g, {root}, j), Within(g, {root}, k - 1));
      assert false;
    case _ =>
  }

  /** The meaning fixes the outcome. */
  lemma LifecycleIsUnique(g: Graph, revoked: set<Hash>, rows: map<Hash, Row>, root: Hash, now: Instant, o1: Outcome,
      o2: Outcome)
    requires IsLifecycle(g, revoked, rows, root, now, o1) && IsLifecycle(g, revoked, rows, root, now, o2)
    ensures o1 == o2
  {
    if o1.AncestorRevoked? {
      var k: nat :| Named(g, revoked, root, k, o1.ancestor);
      RevokedExcludes(g, revoked, rows, root, now, o2, k, o1.ancestor);
    } else if o2.AncestorRevoked? {
      var k: nat :| Named(g, revoked, root, k, o2.ancestor);
      RevokedExcludes(g, revoked, rows, root, now, o1, k, o2.ancestor);
    } else {
      if o1.TooManyNodes? || o2.TooManyNodes? {
        var k: nat :| Overfull(g, revoked, root, k);
        if Fits(g, root) {
          WithinFits(g, root, k);
        }
      }
      hide Reach, Fits, AllClean, Within, Clean;
    }
  }

  /** When few enough ids are reachable, the answer names a revoked ancestor exactly when there is one. */
  lemma RevokedIffReachable(g: Graph, revoked: set<Hash>, rows: map<Hash, Row>, root: Hash, now: Instant, out: Outcome)
    requires IsLifecycle(g, revoked, rows, root, now, out) && |Reach(g, {root})| <= 4096
    ensures !out.TooManyNodes?
    ensures out.AncestorRevoked? <==> exists x :: x in Reach(g, {root}) && x in revoked && x != root
  {
    if out.TooManyNodes? {
      var k: nat :| Overfull(g, revoked, root, k);
      WithinFits(g, root, k);
      assert false;
    } else if out.AncestorRevoked? {
      var k: nat :| Named(g, revoked, root, k, out.ancestor);
      NearestIsNotClean(g, revoked, root, k, out.ancestor);
    }
    hide Reach, Fits, Within;
  }

  // ---- The search ----

  function ListOf(lists: map<Hash, seq<Hash>>, x: Hash): seq<Hash> {
    if x in lists then lists[x] else []
  }

  function ParentGraph(parents: map<Hash, seq<Hash>>): Graph {
    map x | x in parents :: Elems(parents[x])
  }

  function RevokedIds(revocations: map<Hash, seq<Hash>>): set<Hash> {
    set x | x in revocations && revocations[x] != []
  }

  lemma ParentsOfList(parents: map<Hash, seq<Hash>>, x: Hash)
    ensures Parents(ParentGraph(parents), x) == Elems(ListOf(parents, x))
  {
  }

  /** The level holds what is one link further up than the visited ids. */
  ghost predicate IsLevel(g: Graph, root: Hash, k: nat, level: set<Hash>) {
    level <= Within(g, {root}, k + 1) <= Within(g, {root}, k) + level
  }

  lemma LevelAbove(g: Graph, root: Hash, k: nat, level: set<Hash>, next: set<Hash>)
    requires IsLevel(g, root, k, level) && next <= Up(g, Within(g, {root}, k + 1))
    requires forall x :: x in level - Within(g, {root}, k) ==> Parents(g, x) <= next
    ensures IsLevel(g, root, k + 1, next)
  {
    var w, w' := Within(g, {root}, k), Within(g, {root}, k + 1);
    assert w' == w + Up(g, w);
    forall y | y in w' + Up(g, w') ensures y in w' + next {
      if y !in w' {
        var x :| x in w' && y in Parents(g, x);
        assert x !in w;
      }
    }
  }

  /** The least revoked id of an ascending level is the nearest revoked ancestor. */
  lemma FirstIsNearest(g: Graph, revoked: set<Hash>, root: Hash, k: nat, level: seq<Hash>, i: nat)
    requires Ascending(level) && i < |level| && IsLevel(g, root, k, Elems(level)) && Clean(g, revoked, root, k)
    requires forall x :: x in level[..i] && x in revoked ==> x == root
    requires level[i] in revoked && level[i] != root
    ensures Nearest(g, revoked, root, k + 1, level[i])
  {
    assert forall j :: 0 <= j < i ==> level[j] in level[..i];
    forall x | x in Within(g, {root}, k + 1) && x in revoked && x != root ensures level[i] <= x {
      assert x in level;
    }
  }

  /** The frontier holds the parents of the newly visited ids. */
  ghost predicate Pushed(g: Graph, before: set<Hash>, visited: set<Hash>, frontier: seq<Hash>) {
    && (forall y :: y in frontier ==> exists x :: x in visited && y in Parents(g, x))
    && (forall x, y :: x in visited && x !in before && y in Parents(g, x) ==> y in frontier)
    && (visited == before ==> frontier == [])
  }

  lemma NothingPushed(g: Graph, before: set<Hash>)
    ensures Pushed(g, before, before, [])
  {
  }

  lemma PushParents(parents: map<Hash, seq<Hash>>, before: set<Hash>, visited: set<Hash>, frontier: seq<Hash>, x: Hash)
    requires before <= visited && x !in visited && Pushed(ParentGraph(parents), before, visited, frontier)
    ensures Pushed(ParentGraph(parents), before, visited + {x}, frontier + ListOf(parents, x))
  {
    var g := ParentGraph(parents);
    ParentsOfList(parents, x);
    assert forall y :: y in frontier + ListOf(parents, x) <==> y in frontier || y in Parents(g, x);
    assert x in visited + {x};
    hide ParentGraph;
    forall y | y in frontier + ListOf(parents, x) ensures exists z :: z in visited + {x} && y in Parents(g, z) {
      if y in frontier {
        var z :| z in visited && y in Parents(g, z);
        assert z in visited + {x};
      }
    }
  }

  lemma FrontierIsUp(g: Graph, before: set<Hash>, visited: set<Hash>, frontier: seq<Hash>)
    requires Pushed(g, before, visited, frontier)
    ensures Elems(frontier) <= Up(g, visited)
    ensures forall x :: x in visited - before ==> Parents(g, x) <= Elems(frontier)
    ensures visited == before ==> frontier == []
  {
  }

  /** Visits one level in ascending order, stopping at a revoked id. */
  method ScanLevel(st: AncestorState, root: Hash, level: seq<Hash>, before: set<Hash>, ids: seq<Hash>, ghost k: nat)
    returns (found: Option<Hash>, visited: set<Hash>, ids': seq<Hash>, frontier: seq<Hash>)
    requires Ascending(level) && root in before && before == Elems(ids) == Within(ParentGraph(st.parents), {root}, k)
    requires IsLevel(ParentGraph(st.parents), root, k, Elems(level))
    requires Clean(ParentGraph(st.parents), RevokedIds(st.revocations), root, k)
    ensures found.Some? ==> Nearest(ParentGraph(st.parents), RevokedIds(st.revocations), root, k + 1, found.value)
    ensures found.None? ==>
              && visited == Elems(ids') == Within(ParentGraph(st.parents), {root}, k + 1)
              && Clean(ParentGraph(st.parents), RevokedIds(st.revocations), root, k + 1)
              && IsLevel(ParentGraph(st.parents), root, k + 1, Elems(frontier))
    ensures found.None? ==> before <= visited && (visited == before ==> frontier == [])
  {
    hide Within, Up, Pushed, ParentGraph;
    ghost var g, revoked := ParentGraph(st.parents), RevokedIds(st.revocations);
    found, visited, ids', frontier := None, before, ids, [];
    assert Pushed(g, before, before, []) by { NothingPushed(g, before); }
    for i := 0 to |level|
      invariant visited == Elems(ids') == before + Elems(level[..i])
      invariant forall x :: x in visited && x in revoked ==> x == root
      invariant Pushed(g, before, visited, frontier)
    {
      var current := level[i];
      assert Elems(level[..i + 1]) == Elems(level[..i]) + {current};
      if current !in visited {
        if ListOf(st.revocations, current) != [] {
          FirstIsNearest(g, revoked, root, k, level, i);
          return Some(current), visited, ids', frontier;
        }
        PushParents(st.parents, before, visited, frontier, current);
        visited, ids', frontier := visited + {current}, ids' + [current], frontier + ListOf(st.parents, current);
      }
    }
    assert level[..|level|] == level;
    WithinGrows(g, {root}, k, k + 1);
    assert visited == Within(g, {root}, k + 1);
    FrontierIsUp(g, before, visited, frontier);
    LevelAbove(g, root, k, Elems(level), Elems(frontier));
  }

  /** The search has met everything when its next level is empty. */
  lemma {:induction false} SearchEnds(g: Graph, root: Hash, k: nat)
    requires IsLevel(g, root, k, {})
    ensures Reach(g, {root}) == Within(g, {root}, k)
  {
    var w := Within(g, {root}, k);
    WithinGrows(g, {root}, 0, k);
    assert Within(g, {root}, k + 1) == w + Up(g, w);
    ReachLeast(g, {root}, w);
    ReachMember(g, {root}, k);
  }

  lemma {:induction false} WithinStored(g: Graph, root: Hash, k: nat)
    ensures Within(g, {root}, k) <= {root} + Up(g, g.Keys)
  {
    ReachMember(g, {root}, k);
  }

  method AnyMissing(rows: map<Hash, Row>, ids: seq<Hash>) returns (missing: bool)
    ensures missing <==> exists x :: x in ids && x !in rows
  {
    missing := false;
    for i := 0 to |ids|
      invariant missing <==> exists x :: x in ids[..i] && x !in rows
    {
      assert forall x :: x in ids[..i + 1] <==> x in ids[..i] || x == ids[i];
      missing := missing || ids[i] !in rows;
    }
    assert ids[..|ids|] == ids;
  }

  method DateStatus(rows: map<Hash, Row>, ids: seq<Hash>, now: Instant) returns (out: Outcome)
    ensures out == ByDates(rows, Elems(ids), now)
    ensures if Elems(ids) <= rows.Keys then DatedAs(rows, Elems(ids), now, out) else out == DelegationMissing
  {
    DatesDecide(rows, Elems(ids), now);
    hide DatedAs;
    var missing := AnyMissing(rows, ids);
    if missing {
      return DelegationMissing;
    }
    var lapsed, early := false, false;
    for i := 0 to |ids|
      invariant lapsed <==> exists x :: x in ids[..i] && Lapsed(rows[x], now)
      invariant early <==> exists x :: x in ids[..i] && NotYet(rows[x], now)
    {
      assert forall x :: x in ids[..i + 1] <==> x in ids[..i] || x == ids[i];
      lapsed, early := lapsed || Lapsed(rows[ids[i]], now), early || NotYet(rows[ids[i]], now);
    }
    assert ids[..|ids|] == ids;
    out := if lapsed then Expired else if early then Pending else Active;
  }

  /** The search upwards from a root that is not itself revoked. */
  method Search(st: AncestorState, root: Hash, now: Instant) returns (out: Outcome)
    ensures IsLifecycle(ParentGraph(st.parents), RevokedIds(st.revocations), st.rows, root, now, out)
  {
    hide Up, Reach, Within, IsLifecycle, Clean, Nearest, SortHashes, IsLevel, Elems, ByDates, ParentGraph, RevokedIds,
      Ascending;
    ghost var g, revoked := ParentGraph(st.parents), RevokedIds(st.revocations);
    ghost var universe := {root} + Up(g, g.Keys);
    ghost var k := 0;
    var frontier := SortHashes(ListOf(st.parents, root));
    var visited, ids := {root}, [root];
    FirstLevel(st.parents, revoked, root);
    while frontier != []
      invariant Ascending(frontier) && root in visited && visited == Elems(ids) == Within(g, {root}, k)
      invariant IsLevel(g, root, k, Elems(frontier)) && Clean(g, revoked, root, k)
      invariant !Many(Within(g, {root}, k))
      decreases universe - visited, |frontier|
    {
      var found, visited', ids', next := ScanLevel(st, root, frontier, visited, ids, k);
      if found.Some? {
        FoundIsLifecycle(g, revoked, st.rows, root, now, k, found.value);
        return AncestorRevoked(found.value);
      }
      WithinStored(g, root, k + 1);
      k := k + 1;
      visited, ids, frontier := visited', ids', SortHashes(next);
      SortedElems(next);
      if Many(visited) {
        LimitIsLifecycle(g, revoked, st.rows, root, now, k);
        return TooManyNodes;
      }
    }
    assert Elems(frontier) == {} by { SortedElems([]); }
    SearchEnds(g, root, k);
    out := DateStatus(st.rows, ids, now);
    EndIsLifecycle(g, revoked, st.rows, root, now, k);
  }

  /** The first revocation of the root, or else the lifecycle its ancestors give it. */
  method Lifecycle(st: AncestorState, root: Hash, now: Instant) returns (out: Outcome)
    ensures ListOf(st.revocations, root) != [] ==> out == Revoked(ListOf(st.revocations, root)[0])
    ensures ListOf(st.revocations, root) == [] ==>
              IsLifecycle(ParentGraph(st.parents), RevokedIds(st.revocations), st.rows, root, now, out)
  {
    if ListOf(st.revocations, root) != [] {
      return Revoked(ListOf(st.revocations, root)[0]);
    }
    out := Search(st, root, now);
  }

  lemma {:induction false} SortedElems(s: seq<Hash>)
    ensures Elems(SortHashes(s)) == Elems(s) && (s == [] ==> SortHashes(s) == [] && Elems(s) == {})
  {
  }

  lemma {:induction false} FoundIsLifecycle(g: Graph, revoked: set<Hash>, rows: map<Hash, Row>, root: Hash,
      now: Instant, k: nat, a: Hash)
    requires Nearest(g, revoked, root, k + 1, a) && !Many(Within(g, {root}, k))
    ensures IsLifecycle(g, revoked, rows, root, now, AncestorRevoked(a))
  {
    hide Within, Nearest;
    assert Named(g, revoked, root, k + 1, a);
  }

  lemma {:induction false} LimitIsLifecycle(g: Graph, revoked: set<Hash>, rows: map<Hash, Row>, root: Hash,
      now: Instant, k: nat)
    requires Clean(g, revoked, root, k) && Many(Within(g, {root}, k))
    ensures IsLifecycle(g, revoked, rows, root, now, TooManyNodes)
  {
    assert Overfull(g, revoked, root, k);
  }

  lemma {:induction false} EndIsLifecycle(g: Graph, revoked: set<Hash>, rows: map<Hash, Row>, root: Hash, now: Instant,
      k: nat)
    requires Clean(g, revoked, root, k) && Reach(g, {root}) == Within(g, {root}, k)
    requires !Many(Within(g, {root}, k))
    ensures IsLifecycle(g, revoked, rows, root, now, ByDates(rows, Reach(g, {root}), now))
  {
    hide Reach, Within;
  }

  lemma FirstLevel(parents: map<Hash, seq<Hash>>, revoked: set<Hash>, root: Hash)
    ensures IsLevel(ParentGraph(parents), root, 0, Elems(SortHashes(ListOf(parents, root))))
    ensures Elems([root]) == {root} == Within(ParentGraph(parents), {root}, 0)
    ensures Clean(ParentGraph(parents), revoked, root, 0)
  {
    var g := ParentGraph(parents);
    ParentsOfList(parents, root);
    assert Elems(SortHashes(ListOf(parents, root))) == Parents(g, root);
    assert Up(g, {root}) == Parents(g, root);
    assert Within(g, {root}, 1) == {root} + Up(g, {root});
  }

  // ---- Loading ----

  /** The link rows of the frontier, in any order. */
  ghost predicate LinksFetched(g: Graph, frontier: set<Hash>, rows: seq<Ref>) {
    forall c, p :: Ref(c, p) in rows <==> c in frontier && p in Parents(g, c)
  }

  method FetchLinks(g: Graph, frontier: seq<Hash>) returns (rows: seq<Ref>)
    ensures LinksFetched(g, Elems(frontier), rows)
  {
    rows := [];
    for i := 0 to |frontier|
      invariant LinksFetched(g, Elems(frontier[..i]), rows)
    {
      var child := frontier[i];
      var todo, before := Parents(g, child), rows;
      while todo != {}
        invariant todo <= Parents(g, child)
        invariant forall c, p :: Ref(c, p) in rows <==>
                  Ref(c, p) in before || (c == child && p in Parents(g, child) - todo)
        decreases todo
      {
        var p :| p in todo;
        rows, todo := rows + [Ref(child, p)], todo - {p};
      }
      assert Elems(frontier[..i + 1]) == Elems(frontier[..i]) + {child};
    }
    assert frontier[..|frontier|] == frontier;
  }

  function ParentsIn(rows: seq<Ref>): set<Hash> {
    set l | l in rows :: l.id
  }

  /** Every row extends its child's list. */
  ghost predicate ListsExtend(lists: map<Hash, seq<Hash>>, rows: seq<Ref>, lists': map<Hash, seq<Hash>>) {
    && (forall c :: c in lists' <==> c in lists || exists p :: Ref(c, p) in rows)
    && (forall c, p :: p in ListOf(lists', c) <==> p in ListOf(lists, c) || Ref(c, p) in rows)
  }

  lemma ListExtended(lists: map<Hash, seq<Hash>>, rows: seq<Ref>, lists': map<Hash, seq<Hash>>, l: Ref)
    requires ListsExtend(lists, rows, lists')
    ensures ListsExtend(lists, rows + [l], lists'[l.of := ListOf(lists', l.of) + [l.id]])
  {
    var after := lists'[l.of := ListOf(lists', l.of) + [l.id]];
    assert forall x :: x in rows + [l] <==> x in rows || x == l;
    forall c, p ensures p in ListOf(after, c) <==> p in ListOf(lists, c) || Ref(c, p) in rows + [l] {
      if c != l.of {
        assert ListOf(after, c) == ListOf(lists', c);
      }
    }
    assert Ref(l.of, l.id) in rows + [l];
  }

  lemma ParentsExtended(rows: seq<Ref>, l: Ref)
    ensures ParentsIn(rows + [l]) == ParentsIn(rows) + {l.id}
  {
    assert forall x :: x in rows + [l] <==> x in rows || x == l;
    assert l in rows + [l];
    assert forall x :: x in rows ==> x in rows + [l];
  }

  /** A parent not met before goes on the next frontier, up to the limit. */
  method TakeLinks(rows: seq<Ref>, lists: map<Hash, seq<Hash>>, ids: set<Hash>)
    returns (ok: bool, lists': map<Hash, seq<Hash>>, ids': set<Hash>, next: seq<Hash>)
    ensures !ok ==> ids < ids' <= ids + ParentsIn(rows) && Many(ids')
    ensures ok ==> ids' == ids + ParentsIn(rows) && Elems(next) == ids' - ids && (ids' == ids || !Many(ids'))
    ensures ok ==> ListsExtend(lists, rows, lists')
  {
    hide ListsExtend, ListOf, ParentsIn, Many;
    ok, lists', ids', next := true, lists, ids, [];
    NothingExtended(lists);
    for i := 0 to |rows|
      invariant ids' == ids + ParentsIn(rows[..i]) && Elems(next) == ids' - ids
      invariant ids' == ids || !Many(ids')
      invariant ListsExtend(lists, rows[..i], lists')
    {
      var l := rows[i];
      assert rows[..i + 1] == rows[..i] + [l];
      ListExtended(lists, rows[..i], lists', l);
      ParentsExtended(rows[..i], l);
      lists' := lists'[l.of := ListOf(lists', l.of) + [l.id]];
      if l.id !in ids' {
        assert Elems(next + [l.id]) == Elems(next) + {l.id};
        ids', next := ids' + {l.id}, next + [l.id];
        if Many(ids') {
          ParentsPrefix(rows, i + 1);
          return false, lists', ids', next;
        }
      }
    }
    assert rows[..|rows|] == rows;
  }

  lemma ParentsPrefix(rows: seq<Ref>, i: nat)
    requires i <= |rows|
    ensures ParentsIn(rows[..i]) <= ParentsIn(rows)
  {
  }

  lemma NothingExtended(lists: map<Hash, seq<Hash>>)
    ensures ListsExtend(lists, [], lists) && ParentsIn([]) == {}
  {
  }

  // ---- Loading everything above the roots ----

  datatype Walked = Walked(lists: map<Hash, seq<Hash>>, ids: set<Hash>) | WalkedTooMany | WalkedTooDeep

  /** The ids whose links have been read before round `i`. */
  function Done(g: Graph, roots: set<Hash>, i: nat): set<Hash> {
    if i == 0 then {} else Within(g, roots, i - 1)
  }

  /** The lists hold the parents of exactly these ids, and none is empty. */
  ghost predicate ListsCover(g: Graph, ids: set<Hash>, lists: map<Hash, seq<Hash>>) {
    && lists.Keys <= ids && (forall c :: c in lists ==> lists[c] != [])
    && forall c :: c in ids ==> Elems(ListOf(lists, c)) == Parents(g, c)
  }

  lemma RoundIds(g: Graph, roots: set<Hash>, i: nat, rows: seq<Ref>)
    requires LinksFetched(g, Within(g, roots, i) - Done(g, roots, i), rows)
    ensures Within(g, roots, i + 1) == Within(g, roots, i) + ParentsIn(rows)
  {
    var w, done := Within(g, roots, i), Done(g, roots, i);
    assert Within(g, roots, i + 1) == w + Up(g, w);
    forall p | p in Up(g, w) ensures p in w + ParentsIn(rows) {
      var x :| x in w && p in Parents(g, x);
      if x in done {
        assert p in Up(g, done);
      } else {
        assert Ref(x, p) in rows;
      }
    }
    forall p | p in ParentsIn(rows) ensures p in Up(g, w) {
      var l :| l in rows && l.id == p;
      assert Ref(l.of, l.id) in rows;
    }
  }

  lemma RoundLists(g: Graph, done: set<Hash>, frontier: set<Hash>, rows: seq<Ref>, lists: map<Hash, seq<Hash>>,
      lists': map<Hash, seq<Hash>>)
    requires ListsCover(g, done, lists) && LinksFetched(g, frontier, rows) && ListsExtend(lists, rows, lists')
    requires done !! frontier
    ensures ListsCover(g, done + frontier, lists')
  {
    forall c | c in done + frontier ensures Elems(ListOf(lists', c)) == Parents(g, c) {
      if c in done {
        assert forall p :: Ref(c, p) !in rows;
        assert Elems(ListOf(lists, c)) == Parents(g, c);
      } else {
        assert c !in lists;
      }
    }
    forall c | c in lists' ensures lists'[c] != [] && c in done + frontier {
      if c in lists {
        assert lists[c][0] in ListOf(lists, c);
        assert lists[c][0] in ListOf(lists', c);
      } else {
        var p :| Ref(c, p) in rows;
        assert p in ListOf(lists', c);
      }
    }
  }

  lemma TooManyMeans(g: Graph, roots: set<Hash>, i: nat, ids: set<Hash>)
    requires i < MAX_CHAIN_TRAVERSAL_NODES && Many(ids) && Within(g, roots, i) < ids <= Within(g, roots, i + 1)
    ensures Many(Within(g, roots, MAX_CHAIN_TRAVERSAL_NODES)) && Within(g, roots, MAX_CHAIN_TRAVERSAL_NODES) != roots
  {
    WithinGrows(g, roots, i + 1, MAX_CHAIN_TRAVERSAL_NODES);
    WithinGrows(g, roots, 0, i);
    assert Within(g, roots, 0) == roots;
    hide Within;
    ManyGrows(ids, Within(g, roots, MAX_CHAIN_TRAVERSAL_NODES));
  }

  lemma DoneCloses(g: Graph, roots: set<Hash>, i: nat)
    requires Within(g, roots, i) <= Done(g, roots, i)
    ensures Closed(g, Within(g, roots, i)) && (i > 0 ==> Within(g, roots, i) == Within(g, roots, i - 1))
  {
    if i > 0 {
      var w := Within(g, roots, i - 1);
      assert Within(g, roots, i) == w + Up(g, w);
    }
  }

  lemma {:induction false} ReachesAll(g: Graph, roots: set<Hash>, i: nat, j: nat)
    requires Closed(g, Within(g, roots, i)) && i <= j
    ensures Within(g, roots, j) == Within(g, roots, i) == Reach(g, roots)
  {
    WithinGrows(g, roots, 0, i);
    WithinGrows(g, roots, i, j);
    ReachMember(g, roots, j);
    ReachLeast(g, roots, Within(g, roots, i));
  }

  lemma {:induction false} WalkEnds(g: Graph, roots: set<Hash>, i: nat)
    requires i <= MAX_CHAIN_TRAVERSAL_NODES && Within(g, roots, i) <= Done(g, roots, i)
    ensures Within(g, roots, i) == Reach(g, roots) == Within(g, roots, MAX_CHAIN_TRAVERSAL_NODES) ==
            Within(g, roots, MAX_CHAIN_TRAVERSAL_NODES - 1)
  {
    DoneCloses(g, roots, i);
    var k := if i > 0 then i - 1 else 0;
    assert Closed(g, Within(g, roots, i)) && Within(g, roots, i) == Within(g, roots, k);
    hide Within, Reach, Closed, Done;
    ReachesAll(g, roots, k, i);
    ReachesAll(g, roots, k, MAX_CHAIN_TRAVERSAL_NODES);
    ReachesAll(g, roots, k, MAX_CHAIN_TRAVERSAL_NODES - 1);
  }

  /** After `i` rounds: everything within `i` levels is known, with the links of all but the frontier. */
  ghost predicate Loaded(
    g: Graph, roots: set<Hash>, i: nat, ids: set<Hash>, frontier: seq<Hash>, lists: map<Hash, seq<Hash>>)
  {
    && ids == Within(g, roots, i) && Done(g, roots, i) <= ids && (ids == roots || !Many(ids))
    && Elems(frontier) == ids - Done(g, roots, i) && ListsCover(g, Done(g, roots, i), lists)
  }

  lemma LoadedStarts(g: Graph, roots: seq<Hash>)
    ensures Loaded(g, Elems(roots), 0, Elems(roots), roots, map[])
  {
    hide Many, Within, Done, ListsCover, Elems;
    WalkStarts(g, Elems(roots));
  }

  lemma {:induction false} LoadedNext(g: Graph, roots: set<Hash>, i: nat, ids: set<Hash>, frontier: seq<Hash>,
      lists: map<Hash, seq<Hash>>,
                   rows: seq<Ref>, lists': map<Hash, seq<Hash>>, next: seq<Hash>)
    requires Loaded(g, roots, i, ids, frontier, lists) && LinksFetched(g, Elems(frontier), rows)
    requires ListsExtend(lists, rows, lists')
    requires var ids' := ids + ParentsIn(rows); Elems(next) == ids' - ids && (ids' == ids || !Many(ids'))
    ensures Loaded(g, roots, i + 1, ids + ParentsIn(rows), SortHashes(next), lists')
  {
    hide Many, Within, Done, ListsCover, LinksFetched, ListsExtend, ParentsIn, Elems, SortHashes;
    RoundIds(g, roots, i, rows);
    RoundLists(g, Done(g, roots, i), Elems(frontier), rows, lists, lists');
    RoundDone(g, roots, i);
    assert Done(g, roots, i) + Elems(frontier) == ids;
    SortedElems(next);
  }

  /** A round that passes the limit. */
  lemma {:induction false} LoadedTooMany(g: Graph, roots: set<Hash>, i: nat, ids: set<Hash>, frontier: seq<Hash>,
                      lists: map<Hash, seq<Hash>>, rows: seq<Ref>, ids': set<Hash>)
    requires Loaded(g, roots, i, ids, frontier, lists) && LinksFetched(g, Elems(frontier), rows) && i < 64
    requires ids < ids' <= ids + ParentsIn(rows) && Many(ids')
    ensures |Within(g, roots, 64)| > 4096 && Within(g, roots, 64) != roots
  {
    hide Within, Done, ListsCover, LinksFetched, ParentsIn, Elems;
    RoundIds(g, roots, i, rows);
    TooManyMeans(g, roots, i, ids');
  }

  /** With an empty frontier everything has been met; with one left after 64 rounds, the last added something. */
  lemma {:induction false} LoadedEnds(g: Graph, roots: set<Hash>, i: nat, ids: set<Hash>, frontier: seq<Hash>,
      lists: map<Hash, seq<Hash>>)
    requires Loaded(g, roots, i, ids, frontier, lists) && i <= 64 && (frontier == [] || i == 64)
    ensures var full := Within(g, roots, 64);
            && (|full| <= 4096 || full == roots)
            && (frontier != [] ==> full != Within(g, roots, 63))
            && (frontier == [] ==> full == Within(g, roots, 63) && ids == full == Reach(g, roots))
            && (frontier == [] ==> ListsCover(g, ids, lists))
  {
    hide Within, Done, ListsCover, Reach;
    if frontier != [] {
      assert frontier[0] in Elems(frontier);
      RoundDone(g, roots, 63);
    } else {
      assert Elems(frontier) == {};
      assert forall x :: x in ids ==> x in Done(g, roots, i) || x in Elems(frontier);
      WalkEnds(g, roots, i);
      assert Done(g, roots, i) == ids;
    }
  }

  /** Either everything above the roots with its links, or the limit that was passed. */
  method WalkUp(g: Graph, roots: seq<Hash>) returns (r: Walked)
    ensures var full := Within(g, Elems(roots), 64);
            && (r.WalkedTooMany? <==> |full| > 4096 && full != Elems(roots))
            && (r.WalkedTooDeep? <==> !r.WalkedTooMany? && full != Within(g, Elems(roots), 63))
            && (r.Walked? ==> r.ids == full == Reach(g, Elems(roots)) && ListsCover(g, r.ids, r.lists))
  {
    hide Loaded, Many, Within, Elems, ListsCover, LinksFetched, ListsExtend, Reach, ParentsIn, SortHashes;
    var ids, frontier, lists := Elems(roots), roots, map[];
    var i := 0;
    LoadedStarts(g, roots);
    while i < MAX_CHAIN_TRAVERSAL_NODES && frontier != []
      invariant i <= MAX_CHAIN_TRAVERSAL_NODES && Loaded(g, Elems(roots), i, ids, frontier, lists)
    {
      var rows := FetchLinks(g, frontier);
      var ok, lists', ids', next := TakeLinks(rows, lists, ids);
      if !ok {
        LoadedTooMany(g, Elems(roots), i, ids, frontier, lists, rows, ids');
        return WalkedTooMany;
      }
      LoadedNext(g, Elems(roots), i, ids, frontier, lists, rows, lists', next);
      lists, ids, frontier, i := lists', ids', SortHashes(next), i + 1;
    }
    LoadedEnds(g, Elems(roots), i, ids, frontier, lists);
    r := if frontier != [] then WalkedTooDeep else Walked(lists, ids);
  }

  lemma {:induction false} WalkStarts(g: Graph, roots: set<Hash>)
    ensures Within(g, roots, 0) == roots && Done(g, roots, 0) == {} && ListsCover(g, {}, map[])
  {
  }

  lemma RoundDone(g: Graph, roots: set<Hash>, i: nat)
    ensures Done(g, roots, i + 1) == Within(g, roots, i) <= Within(g, roots, i + 1)
  {
  }

  // ---- The whole query ----

  datatype Answer = Answered(out: Outcome) | TooManyIds | TooDeep

  ghost function RevokedIn(db: Tables): set<Hash> {
    set r | r in db.revocations :: r.of
  }

  /** Groups the revocation rows of the loaded ids by the delegation they revoke. */
  method GroupRevocations(rows: seq<Ref>, ids: set<Hash>) returns (lists: map<Hash, seq<Hash>>)
    ensures lists.Keys <= ids && forall c :: c in lists ==> lists[c] != []
    ensures forall c, p :: p in ListOf(lists, c) <==> c in ids && Ref(c, p) in rows
  {
    lists := map[];
    for i := 0 to |rows|
      invariant lists.Keys <= ids && forall c :: c in lists ==> lists[c] != []
      invariant forall c, p :: p in ListOf(lists, c) <==> c in ids && Ref(c, p) in rows[..i]
    {
      var l := rows[i];
      assert forall x :: x in rows[..i + 1] <==> x in rows[..i] || x == l;
      if l.of in ids {
        ListGrows(lists, l);
        lists := lists[l.of := ListOf(lists, l.of) + [l.id]];
      }
    }
    assert rows[..|rows|] == rows;
  }

  lemma ListGrows(lists: map<Hash, seq<Hash>>, l: Ref)
    ensures var lists' := lists[l.of := ListOf(lists, l.of) + [l.id]];
            forall c, p :: p in ListOf(lists', c) <==> p in ListOf(lists, c) || Ref(c, p) == l
  {
  }

  function Sorted(lists: map<Hash, seq<Hash>>): map<Hash, seq<Hash>> {
    map x | x in lists :: SortHashes(lists[x])
  }

  lemma SortedLists(lists: map<Hash, seq<Hash>>, x: Hash)
    ensures Elems(ListOf(Sorted(lists), x)) == Elems(ListOf(lists, x)) && Ascending(ListOf(Sorted(lists), x))
  {
  }

  /** The loaded state agrees with the tables on these ids. */
  ghost predicate Agrees(db: Tables, ids: set<Hash>, st: AncestorState) {
    && st.rows == (map x | x in ids && x in db.rows :: db.rows[x])
    && (forall x :: x in ids ==> Parents(ParentGraph(st.parents), x) == Parents(db.links, x))
    && (forall x, r :: x in ids ==> (r in ListOf(st.revocations, x) <==> Ref(x, r) in db.revocations))
    && (forall x :: x in ids ==> Ascending(ListOf(st.revocations, x)))
  }

  lemma LoadedAgrees(db: Tables, ids: set<Hash>, lists: map<Hash, seq<Hash>>, revocations: map<Hash, seq<Hash>>)
    requires ListsCover(db.links, ids, lists)
    requires forall c, p :: p in ListOf(revocations, c) <==> c in ids && Ref(c, p) in db.revocations
    ensures var rows := map x | x in ids && x in db.rows :: db.rows[x];
            Agrees(db, ids, AncestorState(Sorted(lists), rows, Sorted(revocations)))
  {
    forall x | x in ids ensures Parents(ParentGraph(Sorted(lists)), x) == Parents(db.links, x) {
      SortedLists(lists, x);
      ParentsOfList(Sorted(lists), x);
    }
    forall x, r | x in ids ensures r in ListOf(Sorted(revocations), x) <==> Ref(x, r) in db.revocations {
      SortedLists(revocations, x);
      assert r in ListOf(Sorted(revocations), x) <==> r in Elems(ListOf(Sorted(revocations), x));
    }
    forall x | x in ids ensures Ascending(ListOf(Sorted(revocations), x)) {
      SortedLists(revocations, x);
    }
  }

  lemma {:induction false} SameWithin(g: Graph, g': Graph, s: set<Hash>, root: Hash, k: nat)
    requires Closed(g, s) && root in s && forall x :: x in s ==> Parents(g, x) == Parents(g', x)
    ensures Within(g, {root}, k) == Within(g', {root}, k) <= s
  {
    if k > 0 {
      SameWithin(g, g', s, root, k - 1);
      var w := Within(g, {root}, k - 1);
      assert Up(g, w) == Up(g', w);
    }
  }

  lemma SameReach(g: Graph, g': Graph, s: set<Hash>, root: Hash)
    requires Closed(g, s) && root in s && forall x :: x in s ==> Parents(g, x) == Parents(g', x)
    ensures Reach(g, {root}) == Reach(g', {root}) <= s
  {
    forall x | x in Reach(g, {root}) ensures x in Reach(g', {root}) && x in s {
      var k: nat :| x in Within(g, {root}, k);
      SameWithin(g, g', s, root, k);
      ReachMember(g', {root}, k);
    }
    forall x | x in Reach(g', {root}) ensures x in Reach(g, {root}) {
      var k: nat :| x in Within(g', {root}, k);
      SameWithin(g, g', s, root, k);
      ReachMember(g, {root}, k);
    }
  }

  /** A lifecycle depends on no more than what lies above the root. */
  lemma SameLifecycle(g: Graph, revoked: set<Hash>, rows: map<Hash, Row>,
                      g': Graph, revoked': set<Hash>, rows': map<Hash, Row>,
                      s: set<Hash>, root: Hash, now: Instant, out: Outcome)
    requires Closed(g, s) && root in s && forall x :: x in s ==> Parents(g, x) == Parents(g', x)
    requires forall x :: x in s ==> (x in revoked <==> x in revoked')
    requires rows' == map x | x in s && x in rows :: rows[x]
    requires IsLifecycle(g', revoked', rows', root, now, out)
    ensures IsLifecycle(g, revoked, rows, root, now, out)
  {
    SameReach(g, g', s, root);
    hide Reach, Many, Closed, Parents, Named, Overfull, Within;
    match out
    case AncestorRevoked(a) =>
      var k: nat :| Named(g', revoked', root, k, a);
      SameNamed(g, revoked, g', revoked', s, root, k, a);
    case TooManyNodes =>
      var k: nat :| Overfull(g', revoked', root, k);
      SameOverfull(g, revoked, g', revoked', s, root, k);
    case _ =>
  }

  lemma {:induction false} SameClean(g: Graph, revoked: set<Hash>, g': Graph, revoked': set<Hash>, s: set<Hash>,
      root: Hash, k: nat)
    requires Closed(g, s) && root in s && forall x :: x in s ==> Parents(g, x) == Parents(g', x)
    requires forall x :: x in s ==> (x in revoked <==> x in revoked')
    ensures Within(g, {root}, k) == Within(g', {root}, k) <= s
    ensures Clean(g, revoked, root, k) <==> Clean(g', revoked', root, k)
  {
    SameWithin(g, g', s, root, k);
    hide Within, Closed, Parents;
  }

  lemma SameNamed(g: Graph, revoked: set<Hash>, g': Graph, revoked': set<Hash>, s: set<Hash>, root: Hash, k: nat,
      a: Hash)
    requires Closed(g, s) && root in s && forall x :: x in s ==> Parents(g, x) == Parents(g', x)
    requires forall x :: x in s ==> (x in revoked <==> x in revoked')
    requires Named(g', revoked', root, k, a)
    ensures Named(g, revoked, root, k, a)
  {
    hide Within, Closed, Parents, Clean, Many;
    SameClean(g, revoked, g', revoked', s, root, k);
    SameClean(g, revoked, g', revoked', s, root, k - 1);
  }

  lemma SameOverfull(g: Graph, revoked: set<Hash>, g': Graph, revoked': set<Hash>, s: set<Hash>, root: Hash, k: nat)
    requires Closed(g, s) && root in s && forall x :: x in s ==> Parents(g, x) == Parents(g', x)
    requires forall x :: x in s ==> (x in revoked <==> x in revoked')
    requires Overfull(g', revoked', root, k)
    ensures Overfull(g, revoked, root, k)
  {
    hide Within, Closed, Parents, Clean, Many;
    SameClean(g, revoked, g', revoked', s, root, k);
  }

  /** An outcome by dates says that no proper ancestor is revoked and what the dates are. */
  lemma DatedLifecycle(g: Graph, revoked: set<Hash>, rows: map<Hash, Row>, root: Hash, now: Instant, out: Outcome)
    ensures IsLifecycle(g, revoked, rows, root, now, out) && (out == Expired || out == Pending || out == Active) ==>
              AllClean(g, revoked, root) && DatedAs(rows, Reach(g, {root}), now, out)
  {
    hide Reach, DatedAs, AllClean;
    DatesDecide(rows, Reach(g, {root}), now);
  }

  /**
   With the tables as they are, time moves an outcome one way only: what is not decided by dates stays,
   what has expired stays expired, and what is active is never pending again.
   */
  lemma LifecycleOverTime(g: Graph, revoked: set<Hash>, rows: map<Hash, Row>, root: Hash, now: Instant, out: Outcome,
                          later: Instant, next: Outcome)
    requires now <= later
    requires IsLifecycle(g, revoked, rows, root, now, out) && IsLifecycle(g, revoked, rows, root, later, next)
    ensures out == Expired ==> next == Expired
    ensures out == Active ==> next == Active || next == Expired
    ensures out == Pending ==> next == Pending || next == Active || next == Expired
    ensures out != Expired && out != Active && out != Pending ==> next == out
  {
    var above := Reach(g, {root});
    DatesDecide(rows, above, now);
    DatesDecide(rows, above, later);
    if out == Expired || out == Active || out == Pending {
      assert IsLifecycle(g, revoked, rows, root, later, ByDates(rows, above, later)) by {
        hide Reach, DatedAs, AllClean, Fits;
      }
      LifecycleIsUnique(g, revoked, rows, root, later, next, ByDates(rows, above, later));
    } else {
      assert IsLifecycle(g, revoked, rows, root, later, out) by {
        hide Reach, DatedAs, AllClean, Fits, Named, Overfull;
      }
      LifecycleIsUnique(g, revoked, rows, root, later, next, out);
    }
    hide Reach, IsLifecycle;
  }

  /** The state of one of the delegations asked for, from the tables. */
  method AccountStatus(db: Tables, roots: seq<Hash>, root: Hash, now: Instant) returns (r: Answer)
    requires root in roots
    ensures var full := Within(db.links, Elems(roots), 64);
            && (r.TooManyIds? <==> |full| > 4096 && full != Elems(roots))
            && (r.TooDeep? <==> !r.TooManyIds? && full != Within(db.links, Elems(roots), 63))
    ensures r.Answered? && root in RevokedIn(db) ==>
              r.out.Revoked? && Ref(root, r.out.revocation) in db.revocations
              && forall x :: Ref(root, x) in db.revocations ==> r.out.revocation <= x
    ensures r.Answered? && root !in RevokedIn(db) ==> IsLifecycle(db.links, RevokedIn(db), db.rows, root, now, r.out)
    ensures r.Answered? && (r.out == Expired || r.out == Pending || r.out == Active) ==>
              && root !in RevokedIn(db) && AllClean(db.links, RevokedIn(db), root)
              && DatedAs(db.rows, Reach(db.links, {root}), now, r.out)
    ensures r.Answered? && |Reach(db.links, Elems(roots))| <= 4096 ==> !r.out.TooManyNodes?
  {
    hide Many, Within, Reach, IsLifecycle, DatedAs, AllClean;
    var walked := WalkUp(db.links, roots);
    match walked
    case WalkedTooMany => return TooManyIds;
    case WalkedTooDeep => return TooDeep;
    case Walked(lists, ids) =>
      var revocations := GroupRevocations(db.revocations, ids);
      var st := AncestorState(Sorted(lists), map x | x in ids && x in db.rows :: db.rows[x], Sorted(revocations));
      LoadedAgrees(db, ids, lists, revocations);
      var out := Lifecycle(st, root, now);
      AnswerAgrees(db, roots, st, root, now, out);
      DatedLifecycle(db.links, RevokedIn(db), db.rows, root, now, out);
      return Answered(out);
  }

  lemma AnswerAgrees(db: Tables, roots: seq<Hash>, st: AncestorState, root: Hash, now: Instant, out: Outcome)
    requires root in roots && Agrees(db, Reach(db.links, Elems(roots)), st)
    requires ListOf(st.revocations, root) != [] ==> out == Revoked(ListOf(st.revocations, root)[0])
    requires ListOf(st.revocations, root) == [] ==>
               IsLifecycle(ParentGraph(st.parents), RevokedIds(st.revocations), st.rows, root, now, out)
    ensures root in RevokedIn(db) ==>
              out.Revoked? && Ref(root, out.revocation) in db.revocations
              && forall x :: Ref(root, x) in db.revocations ==> out.revocation <= x
    ensures root !in RevokedIn(db) ==> IsLifecycle(db.links, RevokedIn(db), db.rows, root, now, out)
    ensures |Reach(db.links, Elems(roots))| <= 4096 ==> !out.TooManyNodes?
  {
    var s := Reach(db.links, Elems(roots));
    ReachClosed(db.links, Elems(roots));
    RevokedAgree(db, s, st);
    hide Reach, IsLifecycle, Many, Parents, ParentGraph;
    if root in RevokedIn(db) {
      assert root in RevokedIds(st.revocations);
    } else {
      SameLifecycle(db.links, RevokedIn(db), db.rows, ParentGraph(st.parents), RevokedIds(st.revocations), st.rows, s,
        root, now, out);
      ManyMeans(s);
      if !Many(s) {
        SmallerReach(db.links, s, root);
        RevokedIffReachable(db.links, RevokedIn(db), db.rows, root, now, out);
      }
    }
  }

  lemma RevokedAgree(db: Tables, s: set<Hash>, st: AncestorState)
    requires Agrees(db, s, st)
    ensures forall x :: x in s ==> (x in RevokedIn(db) <==> x in RevokedIds(st.revocations))
  {
    forall x | x in s ensures x in RevokedIn(db) <==> x in RevokedIds(st.revocations) {
      if x in RevokedIn(db) {
        var r :| r in db.revocations && r.of == x;
        assert r.id in ListOf(st.revocations, x) by { assert Ref(x, r.id) == r; }
      }
      if x in RevokedIds(st.revocations) {
        assert ListOf(st.revocations, x)[0] in ListOf(st.revocations, x);
      }
    }
  }

  lemma SmallerReach(g: Graph, s: set<Hash>, root: Hash)
    requires Closed(g, s) && root in s && !Many(s)
    ensures |Reach(g, {root})| <= 4096
  {
    ReachLeast(g, {root}, s);
    ManyGrows(Reach(g, {root}), s);
  }
}
