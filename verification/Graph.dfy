/** Parent links between delegations, and what lies above a set of roots. */
module Graph {
  import opened Order

  /** The parents each stored delegation cites, as the rows of `parent_delegation` give them. */
  type Graph = map<Hash, set<Hash>>

  function Parents(g: Graph, x: Hash): set<Hash> {
    if x in g then g[x] else {}
  }

  function Up(g: Graph, s: set<Hash>): set<Hash> {
    set x, p | x in s && p in Parents(g, x) :: p
  }

  /** The ids at most `k` links above the roots. */
  function Within(g: Graph, roots: set<Hash>, k: nat): set<Hash> {
    if k == 0 then roots else Within(g, roots, k - 1) + Up(g, Within(g, roots, k - 1))
  }

  ghost predicate IsAncestor(g: Graph, roots: set<Hash>, x: Hash) {
    exists k: nat :: x in Within(g, roots, k)
  }

  /** The roots and all their ancestors. */
  ghost function Reach(g: Graph, roots: set<Hash>): set<Hash> {
    set x | x in roots + Up(g, g.Keys) && IsAncestor(g, roots, x)
  }

  ghost predicate Closed(g: Graph, s: set<Hash>) {
    forall x, p :: x in s && p in Parents(g, x) ==> p in s
  }

  lemma {:induction false} WithinClosed(g: Graph, roots: set<Hash>, s: set<Hash>, k: nat)
    requires roots <= s && Closed(g, s)
    ensures Within(g, roots, k) <= s
  {
    if k > 0 {
      WithinClosed(g, roots, s, k - 1);
    }
  }

  /** The ancestors are the least closed set that holds the roots. */
  lemma ReachLeast(g: Graph, roots: set<Hash>, s: set<Hash>)
    requires roots <= s && Closed(g, s)
    ensures Reach(g, roots) <= s
  {
    forall x | x in Reach(g, roots) ensures x in s {
      var k: nat :| x in Within(g, roots, k);
      WithinClosed(g, roots, s, k);
    }
  }

  lemma ReachClosed(g: Graph, roots: set<Hash>)
    ensures roots <= Reach(g, roots) && Closed(g, Reach(g, roots))
  {
    forall x | x in roots ensures x in Reach(g, roots) {
      assert x in Within(g, roots, 0);
    }
    forall x, p | x in Reach(g, roots) && p in Parents(g, x) ensures p in Reach(g, roots) {
      var k: nat :| x in Within(g, roots, k);
      assert p in Within(g, roots, k + 1);
    }
  }

  lemma {:induction false} ReachMember(g: Graph, roots: set<Hash>, k: nat)
    ensures Within(g, roots, k) <= Reach(g, roots)
  {
    ReachClosed(g, roots);
    WithinClosed(g, roots, Reach(g, roots), k);
  }
}
