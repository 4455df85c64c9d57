/** The bounded walk over a delegation's proof chain (tinycloud-core/src/models/revocation.rs). */
module ChainWalk {
  import opened Order
  import opened Graph

  const MAX_CHAIN_TRAVERSAL_NODES: nat := 64

  /** The stack of ids still to visit and the visited ids in order. */
  datatype Walk = Walk(frontier: seq<Hash>, visited: seq<Hash>)

  predicate Distinct<T(==)>(s: seq<T>) {
    forall i, j :: 0 <= i < j < |s| ==> s[i] != s[j]
  }

  function Elems<T>(s: seq<T>): set<T> {
    set x | x in s
  }

  /** How many rows the parent query may return after `visited` ids were visited. */
  function RowLimit(visited: nat): nat
    requires visited <= MAX_CHAIN_TRAVERSAL_NODES
  {
    MAX_CHAIN_TRAVERSAL_NODES - visited + 1
  }

  /** The rows a limited query for the parents of `x` may return: any of them, but no more than the limit. */
  predicate Fetched(g: Graph, x: Hash, limit: nat, rows: seq<Hash>) {
    && Distinct(rows) && Elems(rows) <= Parents(g, x)
    && |rows| == if |Parents(g, x)| <= limit then |Parents(g, x)| else limit
  }

  /** Pushes the parents not met before; fails when the node budget is spent. */
  function Push(w: Walk, rows: seq<Hash>): (r: Option<Walk>)
    ensures r.Some? ==> r.value.visited == w.visited
    decreases |rows|
  {
    if rows == [] then Some(w)
    else if rows[0] in w.visited || rows[0] in w.frontier then Push(w, rows[1..])
    else if |w.visited| + |w.frontier| >= MAX_CHAIN_TRAVERSAL_NODES then None
    else Push(w.(frontier := w.frontier + [rows[0]]), rows[1..])
  }

  /** Pops one id, visits it and pushes the fetched parents. */
  function Step(w: Walk, rows: seq<Hash>): Option<Walk>
    requires w.frontier != []
  {
    var current := w.frontier[|w.frontier| - 1];
    var rest := w.frontier[..|w.frontier| - 1];
    if current in w.visited then Some(w.(frontier := rest))
    else if |w.visited| + 1 > MAX_CHAIN_TRAVERSAL_NODES then None
    else Push(Walk(rest, w.visited + [current]), rows)
  }

  /** Everything met so far is distinct, lies in `scope`, fits the budget, and includes the roots. */
  ghost predicate Sound(roots: set<Hash>, scope: set<Hash>, w: Walk) {
    && Distinct(w.visited + w.frontier)
    && Elems(w.visited + w.frontier) <= scope
    && roots <= Elems(w.visited + w.frontier)
    && |w.visited| + |w.frontier| <= MAX_CHAIN_TRAVERSAL_NODES
  }

  /** Every parent of a visited id was met, but for those in `dropped`. */
  ghost predicate Complete(g: Graph, w: Walk, dropped: set<Hash>) {
    forall x, p :: x in w.visited && p in Parents(g, x) ==> p in w.visited || p in w.frontier || p in dropped
  }

  /** The query for the next id's parents returned them all. */
  predicate Uncut(g: Graph, w: Walk, rows: seq<Hash>)
    requires w.frontier != []
  {
    Parents(g, w.frontier[|w.frontier| - 1]) <= Elems(rows)
  }

  lemma {:induction false} DistinctSize<T>(s: seq<T>)
    requires Distinct(s)
    ensures |Elems(s)| == |s|
  {
    if s != [] {
      var last := |s| - 1;
      DistinctSize(s[..last]);
      assert Elems(s) == Elems(s[..last]) + {s[last]};
    }
  }

  lemma {:induction false} ElemsSize<T>(s: seq<T>)
    ensures |Elems(s)| <= |s|
  {
    if s != [] {
      var n := |s| - 1;
      ElemsSize(s[..n]);
      assert Elems(s) == Elems(s[..n]) + {s[n]};
    }
  }

  /** A list without repeats is one whose elements are as many. */
  lemma {:induction false} SizesDistinct<T>(s: seq<T>)
    requires |Elems(s)| == |s|
    ensures Distinct(s)
  {
    if s != [] {
      var n := |s| - 1;
      assert Elems(s) == Elems(s[..n]) + {s[n]};
      ElemsSize(s[..n]);
      SizesDistinct(s[..n]);
    }
  }

  lemma SubsetSize<T>(a: set<T>, b: set<T>)
    requires a <= b
    ensures |a| <= |b|
    ensures |a| == |b| ==> a == b
  {
    assert b == a + (b - a);
  }

  lemma {:induction false} PushKeeps(roots: set<Hash>, scope: set<Hash>, w: Walk, rows: seq<Hash>)
    requires Sound(roots, scope, w) && Elems(rows) <= scope
    ensures Push(w, rows).Some? ==>
              var w' := Push(w, rows).value;
              && Sound(roots, scope, w') && w'.visited == w.visited
              && (forall p :: p in w.frontier ==> p in w'.frontier)
              && forall p :: p in rows ==> p in w'.visited || p in w'.frontier
    ensures Push(w, rows).None? ==> |scope| > MAX_CHAIN_TRAVERSAL_NODES
    decreases |rows|
  {
    if rows != [] {
      assert forall p :: p in rows <==> p == rows[0] || p in rows[1..];
      if rows[0] in w.visited || rows[0] in w.frontier {
        PushKeeps(roots, scope, w, rows[1..]);
      } else {
        assert rows[0] in Elems(rows);
        var met := w.visited + w.frontier;
        var w1 := w.(frontier := w.frontier + [rows[0]]);
        assert w1.visited + w1.frontier == met + [rows[0]];
        if |met| >= MAX_CHAIN_TRAVERSAL_NODES {
          DistinctSize(met + [rows[0]]);
          SubsetSize(Elems(met + [rows[0]]), scope);
        } else {
          PushKeeps(roots, scope, w1, rows[1..]);
          assert forall p :: p in w.frontier ==> p in w1.frontier;
        }
      }
    }
  }

  lemma LastIsNew(w: Walk)
    requires Distinct(w.visited + w.frontier) && w.frontier != []
    ensures var current := w.frontier[|w.frontier| - 1];
            current !in w.visited && current in Elems(w.visited + w.frontier)
  {
    var met, n := w.visited + w.frontier, |w.frontier| - 1;
    assert met[|w.visited| + n] == w.frontier[n];
    assert forall i :: 0 <= i < |w.visited| ==> w.visited[i] == met[i];
  }

  /** A step keeps the walk sound; it fails only when the scope is over the budget. */
  lemma StepKeepsSound(g: Graph, roots: set<Hash>, scope: set<Hash>, w: Walk, rows: seq<Hash>)
    requires Sound(roots, scope, w) && w.frontier != [] && Closed(g, scope)
    requires |w.visited| < MAX_CHAIN_TRAVERSAL_NODES ==>
               Fetched(g, w.frontier[|w.frontier| - 1], RowLimit(|w.visited| + 1), rows)
    ensures Step(w, rows).Some? ==> Sound(roots, scope, Step(w, rows).value)
    ensures Step(w, rows).None? ==> |scope| > MAX_CHAIN_TRAVERSAL_NODES
  {
    var n := |w.frontier| - 1;
    var current := w.frontier[n];
    LastIsNew(w);
    var w1 := Walk(w.frontier[..n], w.visited + [current]);
    PopKeepsSound(roots, scope, w);
    PushKeeps(roots, scope, w1, rows);
  }

  /** Taking an element forward keeps a list's elements and their distinctness. */
  lemma MoveForward(a: seq<Hash>, b: seq<Hash>, x: Hash)
    requires Distinct(a + (b + [x]))
    ensures Distinct(a + [x] + b) && Elems(a + [x] + b) == Elems(a + (b + [x]))
  {
    var before, after := a + (b + [x]), a + [x] + b;
    var from := (i: int) => if i < |a| then i else if i == |a| then |a| + |b| else i - 1;
    assert forall i :: 0 <= i < |after| ==> 0 <= from(i) < |before| && after[i] == before[from(i)];
    assert forall y :: y in after <==> y in a || y == x || y in b;
    assert forall y :: y in before <==> y in a || y in b + [x];
    assert forall y :: y in b + [x] <==> y in b || y == x;
  }

  lemma PopKeepsSound(roots: set<Hash>, scope: set<Hash>, w: Walk)
    requires Sound(roots, scope, w) && w.frontier != []
    ensures var n := |w.frontier| - 1; Sound(roots, scope, Walk(w.frontier[..n], w.visited + [w.frontier[n]]))
  {
    var n := |w.frontier| - 1;
    assert w.frontier == w.frontier[..n] + [w.frontier[n]];
    MoveForward(w.visited, w.frontier[..n], w.frontier[n]);
  }

  /** A step leaves behind no parent of a visited id, but those its query dropped. */
  lemma StepKeepsComplete(g: Graph, roots: set<Hash>, scope: set<Hash>, w: Walk, rows: seq<Hash>, dropped: set<Hash>)
    requires Sound(roots, scope, w) && w.frontier != [] && Elems(rows) <= scope
    requires Complete(g, w, dropped)
    ensures Step(w, rows).Some? ==>
              Complete(g, Step(w, rows).value, dropped + (Parents(g, w.frontier[|w.frontier| - 1]) - Elems(rows)))
  {
    var n := |w.frontier| - 1;
    var current := w.frontier[n];
    LastIsNew(w);
    var w1 := Walk(w.frontier[..n], w.visited + [current]);
    PopKeepsSound(roots, scope, w);
    PushKeeps(roots, scope, w1, rows);
    assert forall p :: p in w.frontier ==> p in w.frontier[..n] || p == current;
    if Step(w, rows).Some? {
      var w' := Step(w, rows).value;
      assert w'.visited == w1.visited;
      forall x, p | x in w'.visited && p in Parents(g, x) && !(x == current && p !in Elems(rows))
        ensures p in w'.visited || p in w'.frontier || p in dropped
      {
        if x == current {
          assert p in rows;
        } else {
          assert x in w.visited;
          assert p in w.visited || p in w.frontier || p in dropped;
        }
      }
    }
  }

  lemma UncutKeepsComplete(g: Graph, roots: set<Hash>, scope: set<Hash>, w: Walk, rows: seq<Hash>)
    requires Sound(roots, scope, w) && w.frontier != [] && Elems(rows) <= scope
    requires Complete(g, w, {}) && Uncut(g, w, rows)
    ensures Step(w, rows).Some? ==> Complete(g, Step(w, rows).value, {})
  {
    StepKeepsComplete(g, roots, scope, w, rows, {});
    assert {} + (Parents(g, w.frontier[|w.frontier| - 1]) - Elems(rows)) == {};
  }

  /** In a scope of at most 33 ids no query can drop a row: what is left of the budget covers all parents. */
  lemma SmallIsUncut(g: Graph, roots: set<Hash>, scope: set<Hash>, w: Walk, rows: seq<Hash>)
    requires Sound(roots, scope, w) && w.frontier != [] && Closed(g, scope) && |scope| <= 33
    requires w.frontier[|w.frontier| - 1] !in Parents(g, w.frontier[|w.frontier| - 1])
    requires |w.visited| < 64 ==> Fetched(g, w.frontier[|w.frontier| - 1], RowLimit(|w.visited| + 1), rows)
    ensures Uncut(g, w, rows)
  {
    var met, current := w.visited + w.frontier, w.frontier[|w.frontier| - 1];
    DistinctSize(met);
    SubsetSize(Elems(met), scope);
    assert current in Elems(met);
    SubsetSize(Parents(g, current), scope - {current});
    DistinctSize(rows);
    SubsetSize(Elems(rows), Parents(g, current));
  }

  /** The link rows of each delegation, in the order the database returns them. */
  type Links = map<Hash, seq<Hash>>

  function GraphOf(links: Links): Graph {
    map x | x in links :: Elems(links[x])
  }

  function RowsOf(links: Links, x: Hash, limit: nat): seq<Hash> {
    if x !in links then [] else if |links[x]| <= limit then links[x] else links[x][..limit]
  }

  /** The sorted, distinct roots, unless they already exceed the budget. */
  function Start(roots: seq<Hash>): Option<Walk> {
    var frontier := SortHashes(roots);
    if |frontier| > MAX_CHAIN_TRAVERSAL_NODES then None else Some(Walk(frontier, []))
  }

  /** The walk over a database that does not change meanwhile. */
  function Run(links: Links, w: Walk): Option<seq<Hash>>
    requires |w.visited| <= MAX_CHAIN_TRAVERSAL_NODES
    decreases MAX_CHAIN_TRAVERSAL_NODES - |w.visited|, |w.frontier|
  {
    if w.frontier == [] then Some(w.visited)
    else
      var n := |w.frontier| - 1;
      if w.frontier[n] in w.visited then Run(links, w.(frontier := w.frontier[..n]))
      else if |w.visited| == MAX_CHAIN_TRAVERSAL_NODES then None
      else
        match Step(w, RowsOf(links, w.frontier[n], RowLimit(|w.visited| + 1)))
        case None => None
        case Some(next) => Run(links, next)
  }

  function AncestorChainIds(links: Links, roots: seq<Hash>): Option<seq<Hash>> {
    match Start(roots)
    case None => None
    case Some(w) => Run(links, w)
  }

  lemma RowsAreFetched(links: Links, x: Hash, limit: nat)
    requires forall y :: y in links ==> Distinct(links[y])
    ensures Fetched(GraphOf(links), x, limit, RowsOf(links, x, limit))
  {
    if x in links {
      DistinctSize(links[x]);
    }
  }

  lemma StartSound(g: Graph, roots: seq<Hash>)
    ensures Start(roots).Some? ==> Sound(Elems(roots), Reach(g, Elems(roots)), Start(roots).value)
    ensures Start(roots).None? ==> |Reach(g, Elems(roots))| > MAX_CHAIN_TRAVERSAL_NODES
  {
    ReachClosed(g, Elems(roots));
    var frontier := SortHashes(roots);
    assert [] + frontier == frontier;
    DistinctSize(frontier);
    SubsetSize(Elems(frontier), Reach(g, Elems(roots)));
  }

  /** The parents that the limits of the walk's queries leave out. */
  function Dropped(links: Links, w: Walk): set<Hash>
    requires |w.visited| <= MAX_CHAIN_TRAVERSAL_NODES
    decreases MAX_CHAIN_TRAVERSAL_NODES - |w.visited|, |w.frontier|
  {
    if w.frontier == [] then {}
    else
      var n := |w.frontier| - 1;
      if w.frontier[n] in w.visited then Dropped(links, w.(frontier := w.frontier[..n]))
      else if |w.visited| == MAX_CHAIN_TRAVERSAL_NODES then {}
      else
        var rows := RowsOf(links, w.frontier[n], RowLimit(|w.visited| + 1));
        Parents(GraphOf(links), w.frontier[n]) - Elems(rows) +
        match Step(w, rows)
        case None => {}
        case Some(next) => Dropped(links, next)
  }

  function ChainDropped(links: Links, roots: seq<Hash>): set<Hash> {
    match Start(roots)
    case None => {}
    case Some(w) => Dropped(links, w)
  }

  /** One step of the walk, as `Run` and `Dropped` see it. */
  lemma RunStep(links: Links, w: Walk)
    requires w.frontier != [] && |w.visited| < MAX_CHAIN_TRAVERSAL_NODES && w.frontier[|w.frontier| - 1] !in w.visited
    ensures var current := w.frontier[|w.frontier| - 1];
            var rows := RowsOf(links, current, RowLimit(|w.visited| + 1));
            var next, cut := Step(w, rows), Parents(GraphOf(links), current) - Elems(rows);
            && Run(links, w) == (if next.None? then None else Run(links, next.value))
            && Dropped(links, w) == cut + (if next.None? then {} else Dropped(links, next.value))
  {
  }

  lemma StepVisits(w: Walk, rows: seq<Hash>)
    requires w.frontier != [] && w.frontier[|w.frontier| - 1] !in w.visited && Step(w, rows).Some?
    ensures Step(w, rows).value.visited == w.visited + [w.frontier[|w.frontier| - 1]]
  {
  }

  lemma {:induction false} EndsRun(links: Links, w: Walk)
    requires w.frontier == [] && |w.visited| <= MAX_CHAIN_TRAVERSAL_NODES
    ensures Run(links, w) == Some(w.visited) && Dropped(links, w) == {}
  {
  }

  /** A finished walk met everything exactly when it met what its queries dropped. */
  lemma FinishedExact(g: Graph, roots: set<Hash>, w: Walk, dropped: set<Hash>)
    requires Sound(roots, Reach(g, roots), w) && w.frontier == [] && Complete(g, w, dropped)
    requires dropped <= Reach(g, roots)
    ensures Distinct(w.visited) && roots <= Elems(w.visited) <= Reach(g, roots)
    ensures Elems(w.visited) == Reach(g, roots) <==> dropped <= Elems(w.visited)
    ensures |Elems(w.visited)| <= MAX_CHAIN_TRAVERSAL_NODES
  {
    assert w.visited + w.frontier == w.visited;
    DistinctSize(w.visited);
    if dropped <= Elems(w.visited) {
      ReachLeast(g, roots, Elems(w.visited));
    }
  }

  /** The walk has come to `w`, where its queries have dropped `dropped`. */
  ghost predicate Tracks(links: Links, roots: seq<Hash>, w: Walk, dropped: set<Hash>) {
    var g := GraphOf(links);
    var all := Reach(g, Elems(roots));
    && Sound(Elems(roots), all, w) && Complete(g, w, dropped) && dropped <= all
    && Run(links, w) == AncestorChainIds(links, roots)
    && dropped + Dropped(links, w) == ChainDropped(links, roots)
  }

  lemma TracksStart(links: Links, roots: seq<Hash>)
    ensures Start(roots).Some? ==> Tracks(links, roots, Start(roots).value, {})
    ensures Start(roots).None? ==>
              && AncestorChainIds(links, roots) == None && ChainDropped(links, roots) == {}
              && |Reach(GraphOf(links), Elems(roots))| > MAX_CHAIN_TRAVERSAL_NODES
  {
    StartSound(GraphOf(links), roots);
    hide Reach, GraphOf, SortHashes;
  }

  lemma TracksStep(links: Links, roots: seq<Hash>, w: Walk, dropped: set<Hash>)
    requires forall x :: x in links ==> Distinct(links[x])
    requires Tracks(links, roots, w, dropped) && w.frontier != []
    ensures |w.visited| < MAX_CHAIN_TRAVERSAL_NODES
    ensures var current := w.frontier[|w.frontier| - 1];
            var rows := RowsOf(links, current, RowLimit(|w.visited| + 1));
            match Step(w, rows)
            case None =>
              && AncestorChainIds(links, roots) == None
              && |Reach(GraphOf(links), Elems(roots))| > MAX_CHAIN_TRAVERSAL_NODES
            case Some(next) =>
              && |next.visited| == |w.visited| + 1
              && Tracks(links, roots, next, dropped + (Parents(GraphOf(links), current) - Elems(rows)))
  {
    var g, reached := GraphOf(links), Elems(roots);
    var all := Reach(g, reached);
    var current, limit := w.frontier[|w.frontier| - 1], RowLimit(|w.visited| + 1);
    var rows := RowsOf(links, current, limit);
    LastIsNew(w);
    ReachClosed(g, reached);
    RowsAreFetched(links, current, limit);
    StepKeepsSound(g, reached, all, w, rows);
    StepKeepsComplete(g, reached, all, w, rows, dropped);
    RunStep(links, w);
    hide Reach, Run, Dropped, Step, RowsOf, GraphOf, Complete, Distinct, AncestorChainIds, ChainDropped, Start;
    if Step(w, rows).Some? {
      StepVisits(w, rows);
      var cut := Parents(g, current) - Elems(rows);
      assert dropped + Dropped(links, w) == dropped + cut + Dropped(links, Step(w, rows).value);
    }
  }

  lemma TracksEnd(links: Links, roots: seq<Hash>, w: Walk, dropped: set<Hash>)
    requires Tracks(links, roots, w, dropped) && w.frontier == []
    ensures AncestorChainIds(links, roots) == Some(w.visited)
    ensures var all := Reach(GraphOf(links), Elems(roots));
            && Distinct(w.visited) && |w.visited| <= MAX_CHAIN_TRAVERSAL_NODES &&
              Elems(roots) <= Elems(w.visited) <= all
            && (Elems(w.visited) == all <==> ChainDropped(links, roots) <= Elems(w.visited))
            && (ChainDropped(links, roots) == {} ==> |all| <= MAX_CHAIN_TRAVERSAL_NODES)
  {
    EndsRun(links, w);
    FinishedExact(GraphOf(links), Elems(roots), w, dropped);
    hide Reach, Run, Dropped, GraphOf, Complete, Distinct, AncestorChainIds, ChainDropped, Start;
    assert dropped + {} == dropped;
  }

  /**
   The chain walk as the node runs it. It returns distinct ids, the roots and some of their
   ancestors, and it returns them all exactly when every parent a query dropped was met another
   way. If none was dropped, it refuses the chain exactly when it holds more than 64.
   */
  method CollectChain(links: Links, roots: seq<Hash>) returns (ids: Option<seq<Hash>>)
    requires forall x :: x in links ==> Distinct(links[x])
    ensures ids == AncestorChainIds(links, roots)
    ensures var all, dropped := Reach(GraphOf(links), Elems(roots)), ChainDropped(links, roots);
            && (ids.None? ==> |all| > 64)
            && (ids.Some? ==> Distinct(ids.value) && |ids.value| <= 64 && Elems(roots) <= Elems(ids.value) <= all)
            && (ids.Some? ==> (Elems(ids.value) == all <==> dropped <= Elems(ids.value)))
            && (dropped == {} ==> (ids.Some? <==> |all| <= 64))
  {
    var start := Start(roots);
    TracksStart(links, roots);
    hide Tracks, Reach, Step, Start, RowsOf, GraphOf, AncestorChainIds, ChainDropped, Distinct;
    if start.None? {
      return None;
    }
    var w := start.value;
    ghost var dropped: set<Hash> := {};
    while w.frontier != []
      invariant Tracks(links, roots, w, dropped)
      decreases MAX_CHAIN_TRAVERSAL_NODES - |w.visited|
    {
      TracksStep(links, roots, w, dropped);
      var current := w.frontier[|w.frontier| - 1];
      var rows := RowsOf(links, current, RowLimit(|w.visited| + 1));
      var next := Step(w, rows);
      if next.None? {
        return None;
      }
      w, dropped := next.value, dropped + (Parents(GraphOf(links), current) - Elems(rows));
    }
    TracksEnd(links, roots, w, dropped);
    ids := Some(w.visited);
  }

  /** Sixty delegations in a line, the last of which cites five of the first ones and a stranger. */
  function LongLine(): Links {
    map i: Hash | i < 60 :: LineRows(i)
  }

  function LineRows(i: Hash): seq<Hash> {
    if i < 59 then [i + 1] else [0, 1, 2, 3, 4, 99]
  }

  function Upto(n: nat): seq<Hash> {
    seq(n, i => i)
  }

  lemma {:induction false} LineStep(k: nat)
    requires k < 59
    ensures Run(LongLine(), Walk([k], Upto(k))) == Run(LongLine(), Walk([k + 1], Upto(k + 1)))
  {
    var w, v := Walk([k], Upto(k)), Walk([], Upto(k + 1));
    assert LongLine()[k] == [k + 1];
    assert RowsOf(LongLine(), k, RowLimit(k + 1)) == [k + 1];
    assert w.frontier[..0] == [] && w.visited + [k] == Upto(k + 1);
    assert k !in Upto(k) && k + 1 !in Upto(k + 1);
    assert v.frontier + [k + 1] == [k + 1] && [k + 1][1..] == [];
    assert Push(v, [k + 1]) == Push(Walk([k + 1], Upto(k + 1)), [k + 1][1..]);
  }

  lemma {:induction false} PushKnown(w: Walk, rows: seq<Hash>)
    requires forall p :: p in rows ==> p in w.visited
    ensures Push(w, rows) == Some(w)
    decreases |rows|
  {
    if rows != [] {
      PushKnown(w, rows[1..]);
    }
  }

  lemma {:induction false} LinePrefix(k: nat)
    requires k <= 59
    ensures Run(LongLine(), Walk([0], [])) == Run(LongLine(), Walk([k], Upto(k)))
  {
    if k == 0 {
      assert Upto(0) == [];
    } else {
      LinePrefix(k - 1);
      LineStep(k - 1);
    }
  }

  lemma LineEnd()
    ensures Run(LongLine(), Walk([59], Upto(59))) == Some(Upto(60))
  {
    var w, v := Walk([59], Upto(59)), Walk([], Upto(60));
    assert LongLine()[59] == [0, 1, 2, 3, 4, 99];
    var rows := RowsOf(LongLine(), 59, RowLimit(60));
    assert rows == [0, 1, 2, 3, 4];
    assert w.frontier[..0] == [] && w.visited + [59] == Upto(60);
    assert forall p :: p in rows ==> p < 5 && Upto(60)[p] == p;
    PushKnown(v, rows);
    assert 59 !in Upto(59);
  }

  /** A query cut short loses an ancestor without an error. */
  lemma TruncatedWalkMissesAncestor()
    ensures AncestorChainIds(LongLine(), [0]) == Some(Upto(60))
    ensures 99 in Reach(GraphOf(LongLine()), {0}) && 99 !in Upto(60)
  {
    assert SortHashes([0]) == [0];
    LinePrefix(59);
    LineEnd();
    LineReaches(59);
    var g := GraphOf(LongLine());
    assert LongLine()[59][5] == 99;
    assert 99 in Parents(g, 59);
    ReachClosed(g, {0});
  }

  lemma {:induction false} LineReaches(k: nat)
    requires k <= 59
    ensures k in Reach(GraphOf(LongLine()), {0})
  {
    ReachClosed(GraphOf(LongLine()), {0});
    if k > 0 {
      LineReaches(k - 1);
      assert LongLine()[k - 1] == [k];
      assert k in Parents(GraphOf(LongLine()), k - 1);
    }
  }
}
