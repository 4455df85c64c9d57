/** The lock registries of the space database: mutexes found through weak pointers, taken in ascending key order. */
module LockTable {
  import opened Order

  type TaskId = nat
  type MutexId = nat

  /** A delegation of a chain, or a KV object. The two kinds live in separate registries. */
  datatype Key = Chain(id: Hash) | Object(space: string, path: string)

  /** Acquisition order: chain guards first, by digest; then object guards, by space and path. */
  predicate KeyLess(a: Key, b: Key) {
    match (a, b)
    case (Chain(x), Chain(y)) => x < y
    case (Chain(_), Object(_, _)) => true
    case (Object(_, _), Chain(_)) => false
    case (Object(s, p), Object(t, q)) => StringLess(s, t) || (s == t && StringLess(p, q))
  }

  lemma KeyOrder(a: Key, b: Key, c: Key)
    ensures !KeyLess(a, a)
    ensures KeyLess(a, b) && KeyLess(b, c) ==> KeyLess(a, c)
    ensures KeyLess(a, b) || a == b || KeyLess(b, a)
  {
    match a
    case Chain(_) =>
    case Object(s, p) =>
      StringOrder(s, s, s);
      StringOrder(p, p, p);
      if b.Object? {
        StringOrder(s, b.space, if c.Object? then c.space else s);
        StringOrder(p, b.path, if c.Object? then c.path else p);
      }
  }

  predicate Ascending(keys: seq<Key>) {
    forall i, j :: 0 <= i < j < |keys| ==> KeyLess(keys[i], keys[j])
  }

  /** Insertion into a strictly ascending list, dropping a repeated key. */
  function Insert(k: Key, keys: seq<Key>): (r: seq<Key>)
    requires Ascending(keys)
    ensures Ascending(r)
    ensures forall x :: x in r <==> x == k || x in keys
  {
    if keys == [] then [k]
    else if keys[0] == k then keys
    else
      KeyOrder(keys[0], k, k);
      if KeyLess(k, keys[0]) then
        assert forall i :: 0 <= i < |keys| ==> KeyLess(k, keys[i]) by {
          forall i | 0 <= i < |keys| ensures KeyLess(k, keys[i]) {
            KeyOrder(k, keys[0], keys[i]);
          }
        }
        [k] + keys
      else
        var rest := Insert(k, keys[1..]);
        assert forall x :: x in rest ==> KeyLess(keys[0], x);
        var r := [keys[0]] + rest;
        assert forall j :: 1 <= j < |r| ==> r[j] in rest;
        r
  }

  /** The sorted, duplicate-free list of the keys. */
  function SortDedup(keys: seq<Key>): (r: seq<Key>)
    ensures Ascending(r)
    ensures forall x :: x in r <==> x in keys
  {
    if keys == [] then [] else
      assert forall x :: x in keys <==> x == keys[0] || x in keys[1..];
      Insert(keys[0], SortDedup(keys[1..]))
  }

  /** The registry entries of the looked-up kind whose mutex nobody refers to are dropped. */
  function Retain(registry: map<Key, MutexId>, chain: bool, live: set<MutexId>): map<Key, MutexId> {
    map k | k in registry && (k.Chain? == chain ==> registry[k] in live) :: registry[k]
  }

  /** The registry after each key was upgraded or, when its weak pointer is dead or missing, given a new mutex. */
  function Lookup(registry: map<Key, MutexId>, live: set<MutexId>, keys: seq<Key>, next: MutexId)
    : (r: map<Key, MutexId>)
    ensures forall k :: k in keys ==> k in r
    ensures forall k :: k in registry ==> k in r
    decreases |keys|
  {
    if keys == [] then registry
    else if keys[0] in registry && registry[keys[0]] in live then Lookup(registry, live, keys[1..], next)
    else Lookup(registry[keys[0] := next], live + {next}, keys[1..], next + 1)
  }

  ghost predicate Injective(registry: map<Key, MutexId>) {
    forall a, b :: a in registry && b in registry && registry[a] == registry[b] ==> a == b
  }

  ghost predicate Below(registry: map<Key, MutexId>, next: MutexId) {
    forall k :: k in registry ==> registry[k] < next
  }

  /** A lookup keeps every live entry, adds no key but those asked for, and never gives one mutex to two keys. */
  lemma {:induction false} LookupKeeps(registry: map<Key, MutexId>, live: set<MutexId>, keys: seq<Key>, next: MutexId)
    requires Injective(registry) && Below(registry, next)
    ensures var r := Lookup(registry, live, keys, next);
            && Injective(r) && Below(r, next + |keys|)
            && (forall k :: k in registry && registry[k] in live ==> k in r && r[k] == registry[k])
            && (forall k :: k in r ==> k in registry || k in keys)
    decreases |keys|
  {
    if keys != [] {
      assert forall x :: x in keys <==> x == keys[0] || x in keys[1..];
      if keys[0] in registry && registry[keys[0]] in live {
        LookupKeeps(registry, live, keys[1..], next);
      } else {
        LookupKeeps(registry[keys[0] := next], live + {next}, keys[1..], next + 1);
      }
    }
  }

  /** What a task keeps alive: mutexes still to be locked, in order, and guards it owns. */
  datatype Holder = Holder(pending: seq<Key>, holds: set<Key>, mutexes: map<Key, MutexId>)

  datatype Locks = Locks(registry: map<Key, MutexId>, next: MutexId, holders: map<TaskId, Holder>)

  /** The mutexes with a strong reference. */
  function Live(l: Locks): set<MutexId> {
    set t, k | t in l.holders && k in l.holders[t].mutexes :: l.holders[t].mutexes[k]
  }

  /** Nobody owns the guard of this mutex. */
  ghost predicate Free(l: Locks, m: MutexId) {
    forall t, k :: t in l.holders && k in l.holders[t].holds && k in l.holders[t].mutexes ==>
      l.holders[t].mutexes[k] != m
  }

  function Enter(l: Locks, t: TaskId): Locks {
    l.(holders := l.holders[t := Holder([], {}, map[])])
  }

  /** One pass under the registry mutex: prune, then look every key up in ascending order. */
  function LookupStep(l: Locks, t: TaskId, keys: seq<Key>): Locks
    requires t in l.holders
  {
    var sorted := SortDedup(keys);
    var chain := sorted != [] && sorted[0].Chain?;
    var kept := if sorted == [] then l.registry else Retain(l.registry, chain, Live(l));
    var registry := Lookup(kept, Live(l), sorted, l.next);
    var h := l.holders[t];
    var mutexes := h.mutexes + map k | k in sorted :: registry[k];
    Locks(registry, l.next + |sorted|, l.holders[t := Holder(h.pending + sorted, h.holds, mutexes)])
  }

  /** The first pending mutex is free and becomes a guard. */
  ghost predicate CanLock(l: Locks, t: TaskId) {
    && t in l.holders
    && var h := l.holders[t];
    && h.pending != [] && h.pending[0] in h.mutexes
    && Free(l, h.mutexes[h.pending[0]])
  }

  function LockStep(l: Locks, t: TaskId): Locks
    requires t in l.holders && l.holders[t].pending != []
  {
    var h := l.holders[t];
    l.(holders := l.holders[t := h.(pending := h.pending[1..], holds := h.holds + {h.pending[0]})])
  }

  /** A guard is dropped: its mutex is unlocked and loses this reference. */
  function DropStep(l: Locks, t: TaskId, k: Key): Locks
    requires t in l.holders
  {
    var h := l.holders[t];
    l.(holders := l.holders[t := h.(holds := h.holds - {k}, mutexes := h.mutexes - {k})])
  }

  /** A cancelled acquisition forgets the mutexes it has not locked. */
  function ForgetStep(l: Locks, t: TaskId): Locks
    requires t in l.holders
  {
    var h := l.holders[t];
    l.(holders := l.holders[t := Holder([], h.holds, map k | k in h.mutexes && k in h.holds :: h.mutexes[k])])
  }

  ghost predicate HolderInv(registry: map<Key, MutexId>, h: Holder) {
    && Ascending(h.pending)
    && (forall k :: k in h.mutexes <==> k in h.pending || k in h.holds)
    && (forall k :: k in h.mutexes ==> k in registry && registry[k] == h.mutexes[k])
    && (forall a, b :: a in h.holds && b in h.pending ==> KeyLess(a, b))
  }

  /** One live mutex per key, distinct keys never share one, and a key has at most one guard. */
  ghost predicate Inv(l: Locks) {
    && Injective(l.registry) && Below(l.registry, l.next)
    && (forall t :: t in l.holders ==> HolderInv(l.registry, l.holders[t]))
    && Exclusive(l.holders)
  }

  /** No key is guarded by two tasks. */
  ghost predicate Exclusive(holders: map<TaskId, Holder>) {
    forall t, u, k :: t in holders && u in holders && k in holders[t].holds && k in holders[u].holds ==> t == u
  }

  lemma EnterKeepsInv(l: Locks, t: TaskId)
    requires Inv(l) && t !in l.holders
    ensures Inv(Enter(l, t))
  {
  }

  lemma LookupKeepsInv(l: Locks, t: TaskId, keys: seq<Key>)
    requires Inv(l) && t in l.holders && l.holders[t].pending == []
    requires forall a, b :: a in keys && b in keys ==> a.Chain? == b.Chain?
    requires forall a, b :: a in l.holders[t].holds && b in keys ==> KeyLess(a, b)
    ensures Inv(LookupStep(l, t, keys))
  {
    var sorted := SortDedup(keys);
    var chain := sorted != [] && sorted[0].Chain?;
    var kept := if sorted == [] then l.registry else Retain(l.registry, chain, Live(l));
    LookupKeeps(kept, Live(l), sorted, l.next);
    var l' := LookupStep(l, t, keys);
    assert l'.registry == Lookup(kept, Live(l), sorted, l.next);
    forall u | u in l'.holders ensures HolderInv(l'.registry, l'.holders[u]) {
      var h := l.holders[u];
      forall k | k in h.mutexes ensures k in l'.registry && l'.registry[k] == h.mutexes[k] {
        assert l.holders[u].mutexes[k] in Live(l);
        assert k in kept && kept[k] == l.registry[k];
      }
    }
  }

  /**
   A lookup leaves only live entries of its kind in the registry and those of the other kind as they
   were, and gives the task a mutex for exactly the keys it asked for.
   */
  lemma LookupPrunes(l: Locks, t: TaskId, keys: seq<Key>, k: Key)
    requires Inv(l) && t in l.holders && keys != [] && forall a, b :: a in keys && b in keys ==> a.Chain? == b.Chain?
    ensures var l' := LookupStep(l, t, keys);
            && (k.Chain? == keys[0].Chain? ==> (k in l'.registry ==> l'.registry[k] in Live(l')))
            && (k.Chain? != keys[0].Chain? ==> (k in l'.registry <==> k in l.registry))
            && (k.Chain? != keys[0].Chain? && k in l.registry ==> l'.registry[k] == l.registry[k])
            && (k in keys ==> k in l'.holders[t].mutexes)
            && (k in keys ==> k in l'.registry && l'.holders[t].mutexes[k] == l'.registry[k])
  {
    var l', sorted := LookupStep(l, t, keys), SortDedup(keys);
    assert keys[0] in sorted && sorted[0] in keys;
    var kept := Retain(l.registry, sorted[0].Chain?, Live(l));
    if k in keys {
      assert l'.holders[t].mutexes[k] in Live(l');
    } else {
      LookupOnly(kept, Live(l), sorted, l.next, k);
      if k in kept && kept[k] in Live(l) {
        StaysLive(l, t, keys, k);
      }
    }
  }

  /** A live mutex of a key that is not asked for stays live. */
  lemma StaysLive(l: Locks, t: TaskId, keys: seq<Key>, k: Key)
    requires Inv(l) && t in l.holders && k in l.registry && l.registry[k] in Live(l) && k !in keys
    ensures l.registry[k] in Live(LookupStep(l, t, keys))
  {
    var u, x :| u in l.holders && x in l.holders[u].mutexes && l.holders[u].mutexes[x] == l.registry[k];
    assert HolderInv(l.registry, l.holders[u]);
    var l' := LookupStep(l, t, keys);
    assert x == k && k in l'.holders[u].mutexes && l'.holders[u].mutexes[k] == l.holders[u].mutexes[k];
  }

  /** Keys that are not asked for keep their entries. */
  lemma {:induction false} LookupOnly(registry: map<Key, MutexId>, live: set<MutexId>, keys: seq<Key>, next: MutexId,
                                      k: Key)
    requires k !in keys
    ensures var r := Lookup(registry, live, keys, next);
            (k in r <==> k in registry) && (k in r ==> r[k] == registry[k])
    decreases |keys|
  {
    if keys != [] {
      if keys[0] in registry && registry[keys[0]] in live {
        LookupOnly(registry, live, keys[1..], next, k);
      } else {
        LookupOnly(registry[keys[0] := next], live + {next}, keys[1..], next + 1, k);
      }
    }
  }

  lemma LockKeepsInv(l: Locks, t: TaskId)
    requires Inv(l) && CanLock(l, t)
    ensures Inv(LockStep(l, t))
  {
    assert HolderInv(l.registry, l.holders[t]);
    LockedHolder(l.registry, l.holders[t]);
    LockExcludes(l, t);
    hide HolderInv, Exclusive, Injective, Below;
  }

  lemma LockedHolder(registry: map<Key, MutexId>, h: Holder)
    requires HolderInv(registry, h) && h.pending != []
    ensures HolderInv(registry, h.(pending := h.pending[1..], holds := h.holds + {h.pending[0]}))
  {
    assert forall k :: k in h.pending <==> k == h.pending[0] || k in h.pending[1..];
  }

  /** A mutex nobody owns belongs to a key nobody guards. */
  lemma LockExcludes(l: Locks, t: TaskId)
    requires Inv(l) && CanLock(l, t)
    ensures Exclusive(LockStep(l, t).holders)
  {
    var k := l.holders[t].pending[0];
    forall u | u in l.holders ensures k !in l.holders[u].holds {
      assert HolderInv(l.registry, l.holders[u]) && HolderInv(l.registry, l.holders[t]);
    }
  }

  lemma DropKeepsInv(l: Locks, t: TaskId, k: Key)
    requires Inv(l) && t in l.holders && l.holders[t].pending == []
    ensures Inv(DropStep(l, t, k))
  {
  }

  lemma ForgetKeepsInv(l: Locks, t: TaskId)
    requires Inv(l) && t in l.holders
    ensures Inv(ForgetStep(l, t))
  {
  }

  /** Tasks that wait for a mutex, and among them one whose awaited key is greatest. */
  lemma {:induction false} GreatestAwaited(l: Locks, waiting: set<TaskId>) returns (t: TaskId)
    requires waiting != {} && forall u :: u in waiting ==> u in l.holders && l.holders[u].pending != []
    ensures t in waiting
    ensures forall u :: u in waiting ==> !KeyLess(l.holders[t].pending[0], l.holders[u].pending[0])
    decreases waiting
  {
    hide KeyLess;
    var first :| first in waiting;
    var rest := waiting - {first};
    var mine := l.holders[first].pending[0];
    t := first;
    if rest != {} {
      var best := GreatestAwaited(l, rest);
      if KeyLess(mine, l.holders[best].pending[0]) {
        t := best;
      }
      forall u | u in waiting ensures !KeyLess(l.holders[t].pending[0], l.holders[u].pending[0]) {
        var key := l.holders[u].pending[0];
        NotBelow(l.holders[t].pending[0], mine, key);
        NotBelow(mine, l.holders[best].pending[0], key);
        assert u == first || u in rest;
      }
    } else {
      NotBelow(mine, mine, mine);
      assert forall u :: u in waiting ==> u == first || u in rest;
    }
  }

  lemma NotBelow(a: Key, b: Key, c: Key)
    ensures !KeyLess(a, a)
    ensures KeyLess(b, a) ==> !KeyLess(a, b)
    ensures !KeyLess(a, b) && !KeyLess(b, c) ==> !KeyLess(a, c)
  {
    KeyOrder(a, b, a);
    KeyOrder(b, a, c);
    KeyOrder(b, c, b);
    KeyOrder(a, c, b);
    KeyOrder(a, a, a);
  }

  /** No deadlock: while some task waits, a task can lock its next mutex, or one holds guards and waits for nothing. */
  lemma NoDeadlock(l: Locks, waiter: TaskId)
    requires Inv(l) && waiter in l.holders && l.holders[waiter].pending != []
    ensures exists t :: t in l.holders && (CanLock(l, t) || (l.holders[t].pending == [] && l.holders[t].holds != {}))
  {
    var waiting := set t | t in l.holders && l.holders[t].pending != [];
    assert waiter in waiting;
    var t := GreatestAwaited(l, waiting);
    var awaited := l.holders[t].pending[0];
    if !CanLock(l, t) {
      var u, k :| u in l.holders && k in l.holders[u].holds && k in l.holders[u].mutexes
        && l.holders[u].mutexes[k] == l.holders[t].mutexes[awaited];
      assert k == awaited;
      assert u !in waiting;
    }
  }

  /** One of the two registries, as the map of weak pointers kept under its mutex. */
  class Registry {
    var entries: map<Key, MutexId>
    var next: MutexId

    constructor ()
      ensures entries == map[] && next == 0
    {
      entries, next := map[], 0;
    }

    /** Prunes dead entries, then upgrades or creates the mutex of each key, in the order given. */
    method FindOrCreate(keys: seq<Key>, live: set<MutexId>) returns (locks: seq<MutexId>)
      requires forall i, j :: 0 <= i < j < |keys| ==> keys[i] != keys[j]
      modifies this
      ensures var kept := map k | k in old(entries) && old(entries)[k] in live :: old(entries)[k];
              entries == Lookup(kept, live, keys, old(next))
      ensures |locks| == |keys| && forall i :: 0 <= i < |keys| ==> keys[i] in entries && locks[i] == entries[keys[i]]
    {
      entries := map k | k in entries && entries[k] in live :: entries[k];
      locks := [];
      ghost var pruned, first := entries, next;
      var alive := live;
      var i := 0;
      while i < |keys|
        invariant 0 <= i <= |keys| && |locks| == i
        invariant forall j :: 0 <= j < i ==> keys[j] in entries && locks[j] == entries[keys[j]]
        invariant Lookup(entries, alive, keys[i..], next) == Lookup(pruned, live, keys, first)
      {
        assert keys[i..][1..] == keys[i + 1..];
        if keys[i] in entries && entries[keys[i]] in alive {
          locks := locks + [entries[keys[i]]];
        } else {
          entries := entries[keys[i] := next];
          locks := locks + [next];
          alive := alive + {next};
          next := next + 1;
        }
        i := i + 1;
      }
    }
  }
}
