/** A call that is not settled can outrun a revocation further up. */
module RevocationRace {
  import opened Order
  import opened Graph
  import opened ChainWalk
  import opened LockTable
  import opened SpaceTables
  import opened SpaceProtocol
  import opened GuardSafety
  import opened RevocationSteps
  import opened RevocationSafety
  import opened Runs
  import opened Calls

  /** Task `v` may commit a delegation on the strength of `x`, though `p` above it is revoked. */
  ghost predicate Outran(s: State, v: TaskId, x: Hash, p: Hash) {
    && v in s.tasks && Enabled(s, Act(v, Commit))
    && s.tasks[v].request.kind == Delegate && s.tasks[v].request.dependent
    && x in s.tasks[v].request.cites && GrantTo(s.db, x, s.tasks[v].request.actor)
    && p in Reach(LinksOf(s.db), {x}) && p in s.db.revoked
  }

  /** Task `v` waits for guards that leave out `p`, a parent of the delegation `x` it rests on. */
  ghost predicate Poised(s: State, v: TaskId, x: Hash, cs: seq<Hash>, p: Hash) {
    && GuardInv(s) && Unguarded(s) && s.db.revoked == {} && s.db.events == {}
    && v in s.tasks && s.tasks[v].pc == ChainLocking && p !in s.tasks[v].guarded
    && s.tasks[v].request.kind == Delegate && Simple(s.db, s.tasks[v].request)
    && ReliedOn(s.db, s.tasks[v].request) == Some({x})
    && Parents(LinksOf(s.db), x) == Elems(cs) && Parentless(s.db, cs)
    && Distinct(cs) && x !in cs && |cs| < MAX_CHAIN_TRAVERSAL_NODES
    && p in cs && p in s.db.delegations
  }

  lemma PoisedTakes(s: State, v: TaskId, x: Hash, cs: seq<Hash>, p: Hash) returns (s': State)
    requires Poised(s, v, x, cs, p)
    ensures Goes(s, s', v) && GuardInv(s') && s'.db == s.db && s'.tasks == s.tasks
    ensures v in s'.locks.holders && s'.locks.holders[v].pending == [] && NobodyHolds(s', {p})
  {
    hide GuardInv, ReliedOn, Elems, Parentless, Distinct, LinksOf, Parents, Simple, Leads;
    s' := TakeGuards(s, v);
    GoesHas(s, s', v);
  }

  /** While it validates, nothing keeps the revocation of `p` from committing. */
  lemma Outrun(s: State, v: TaskId, x: Hash, cs: seq<Hash>, p: Hash, u: TaskId, id: Hash, owner: Did)
      returns (s': State)
    requires Poised(s, v, x, cs, p) && u !in s.tasks
    ensures Leads(s, s') && Outran(s', v, x, p)
    ensures SameScope(s'.tasks[v], s.tasks[v])
  {
    var s1 := PoisedTakes(s, v, x, cs, p);
    var s2 := Proved(s, s1, v, x, cs, p);
    var s3 := Revoked(s, s1, s2, v, x, cs, p, u, id, owner);
    s' := s3;
    hide Poised, GuardInv, Saved, Goes, NobodyHolds, Outran;
    GoesLeads(s, s1, v);
    SavedLeads(s1, s2, v);
    LeadsOn(s, s1, s2);
    LeadsOn(s, s2, s3);
  }

  lemma SavedLeads(s: State, s': State, t: TaskId)
    requires Saved(s, s', t)
    ensures Leads(s, s')
  {
  }

  lemma Proved(s: State, s1: State, v: TaskId, x: Hash, cs: seq<Hash>, p: Hash) returns (s2: State)
    requires Poised(s, v, x, cs, p) && GuardInv(s1) && s1.db == s.db && s1.tasks == s.tasks
    requires v in s1.locks.holders && s1.locks.holders[v].pending == []
    ensures Saved(s1, s2, v)
  {
    hide GuardInv, ReliedOn, Elems, Parentless, Distinct, LinksOf, Parents, Simple, Saved;
    s2 := ProvedSave(s1, v, x, cs);
  }

  lemma Revoked(s: State, s1: State, s2: State, v: TaskId, x: Hash, cs: seq<Hash>, p: Hash, u: TaskId, id: Hash,
      owner: Did)
    returns (s3: State)
    requires Poised(s, v, x, cs, p) && u !in s.tasks && GuardInv(s1) && s1.db == s.db && s1.tasks == s.tasks
    requires v in s1.locks.holders && NobodyHolds(s1, {p}) && Saved(s1, s2, v)
    ensures Leads(s2, s3) && Outran(s3, v, x, p)
    ensures SameScope(s3.tasks[v], s.tasks[v])
  {
    hide Poised, ReliedOn, Reach, Leads, GuardInv, LinksOf, Parents, NobodyHolds, Outran, Goes, Bare;
    PoisedFacts(s, v, x, cs, p);
    SavedStays(s1, s2, v, {p});
    s3 := RevokeFree(s2, u, id, owner, p);
    GuardKeys(s2);
    GoesKeeps(s2, s3, u, v);
    GoesLeads(s2, s3, u);
    MayCommit(s3, v, x, p);
  }

  lemma PoisedFacts(s: State, v: TaskId, x: Hash, cs: seq<Hash>, p: Hash)
    requires Poised(s, v, x, cs, p)
    ensures s.tasks[v].request.kind == Delegate
    ensures p in s.db.delegations && Parents(LinksOf(s.db), p) == {} && s.db.events == {}
    ensures var db := s.db.(revoked := s.db.revoked + {p});
            ReliedOn(db, s.tasks[v].request) == Some({x}) && p in Reach(LinksOf(db), {x})
  {
    RevokingKeeps(s.db, s.db.(revoked := s.db.revoked + {p}), s.tasks[v].request, x, cs, p);
    hide GuardInv, ReliedOn, Reach, LinksOf, Simple, Elems, Distinct;
  }

  lemma SavedStays(s1: State, s2: State, v: TaskId, ids: set<Hash>)
    requires GuardInv(s1) && Saved(s1, s2, v) && NobodyHolds(s1, ids)
    ensures GuardInv(s2) && NobodyHolds(s2, ids) && s2.tasks.Keys == s1.tasks.Keys
  {
    hide GuardInv, Leads;
    LeadsGuarded(s1, s2);
  }

  lemma MayCommit(s: State, v: TaskId, x: Hash, p: Hash)
    requires v in s.tasks && v in s.locks.holders && s.tasks[v].pc == Committing && Bare(s.tasks[v])
    requires s.tasks[v].request.kind == Delegate && ReliedOn(s.db, s.tasks[v].request) == Some({x})
    requires p in Reach(LinksOf(s.db), {x}) && p in s.db.revoked
    ensures Outran(s, v, x, p)
  {
    assert x in CitedGrants(s.db, s.tasks[v].request);
    hide Reach, ReliedOn, Ready, LinksOf;
    CommitsRows(s.db, s.tasks[v]);
    LockActions(s.db, s.tasks[v], s.locks.holders[v]);
  }

  lemma RevokingKeeps(db: Db, db': Db, r: Request, x: Hash, cs: seq<Hash>, p: Hash)
    requires db' == db.(revoked := db.revoked + {p}) && r.kind == Delegate && ReliedOn(db, r) == Some({x})
    requires Parents(LinksOf(db), x) == Elems(cs) && p in cs
    ensures ReliedOn(db', r) == Some({x}) && p in Reach(LinksOf(db'), {x})
  {
    assert CitedGrants(db', r) == CitedGrants(db, r);
    assert LinksOf(db') == LinksOf(db);
    ReachClosed(LinksOf(db), {x});
    assert p in Elems(cs) && x in {x};
    hide Reach, LinksOf;
  }

  // ---- A root stored too late ----

  lemma PairLinks(db: Db, p: Hash, holder: Did, d: Hash, user: Did)
    requires p != d && db.delegations == map[p := Delegation(holder, {}), d := Delegation(user, {p})]
    ensures Parents(LinksOf(db), d) == {p} == Elems([p]) && Parentless(db, [p])
  {
    SingleElems(p);
  }

  /** Task 1 waits for the guard of `d` alone while task 2 stores `d` under `p`. */
  lemma StoredTooLate(p: Hash, d: Hash, e: Hash, owner: Did, holder: Did, user: Did, other: Did) returns (s: State)
    requires p != d
    ensures Leads(INIT, s) && Poised(s, 1, d, [p], p) && 3 !in s.tasks
    ensures s.tasks[1].request == DelegateRequest(e, user, other, [d], true) && !s.tasks[1].stored && s.tasks[1].uncut
  {
    hide GuardInv, Leads, Elems, Unguarded, Goes, Parentless, Poised;
    var s1 := StoreFirst(p, owner, holder);
    var r := DelegateRequest(e, user, other, [d], true);
    var s2 := WaitForLate(s1, p, holder, d, r);
    StorePair(s2.db, p, holder, d);
    s := Store(s2, 2, d, holder, user, [p]);
    GuardKeys(s2);
    GoesKeeps(s2, s, 2, 1);
    GoesLeads(s2, s, 2);
    LeadsOn(INIT, s1, s2);
    LeadsOn(INIT, s2, s);
    PairPoised(s, r, p, holder, d, user);
  }

  /** The root delegation `p` is stored. */
  lemma StoreFirst(p: Hash, owner: Did, holder: Did) returns (s: State)
    ensures GuardInv(s) && Unguarded(s) && Leads(INIT, s) && s.tasks.Keys == {0}
    ensures s.db == EMPTY_DB.(delegations := map[p := Delegation(holder, {})])
  {
    InitGuards();
    NoElems();
    hide GuardInv, Leads, Elems;
    s := Store(INIT, 0, p, owner, holder, []);
  }

  lemma WaitForLate(s: State, p: Hash, holder: Did, d: Hash, r: Request) returns (s': State)
    requires GuardInv(s) && Unguarded(s) && s.tasks.Keys == {0} && p != d
    requires s.db == EMPTY_DB.(delegations := map[p := Delegation(holder, {})])
    requires r.kind == Delegate && r.cites == [d] && ValidRequest(r)
    ensures Leads(s, s') && GuardInv(s') && Unguarded(s') && s'.db == s.db && s'.tasks.Keys == {0, 1}
    ensures s'.tasks[1].request == r && s'.tasks[1].pc == ChainLocking && s'.tasks[1].guarded == {d}
    ensures !s'.tasks[1].stored && s'.tasks[1].uncut
  {
    hide GuardInv, Elems, LinksOf, Parents, Unguarded, ValidRequest, Roots, Goes, Parentless;
    LateFacts(s.db, p, holder, d, r);
    s' := WaitForGuards(s, 1, r);
    StillUnguarded(s, s', 1);
    GoesLeads(s, s', 1);
    GoesKeys(s, s', 1);
  }

  lemma LateFacts(db: Db, p: Hash, holder: Did, d: Hash, r: Request)
    requires p != d && db == EMPTY_DB.(delegations := map[p := Delegation(holder, {})])
    requires r.kind == Delegate && r.cites == [d]
    ensures Roots(r) == [d] && Elems([d]) == {d} && Parentless(db, [d]) && d !in db.delegations
  {
    SingleElems(d);
  }

  lemma StorePair(db: Db, p: Hash, holder: Did, d: Hash)
    requires p != d && db == EMPTY_DB.(delegations := map[p := Delegation(holder, {})])
    ensures d !in db.delegations && Parentless(db, [p]) && Elems([p]) == {p} <= db.delegations.Keys
  {
    SingleElems(p);
  }

  lemma PairPoised(s: State, r: Request, p: Hash, holder: Did, d: Hash, user: Did)
    requires p != d && GuardInv(s) && Unguarded(s) && 1 in s.tasks && s.tasks[1].request == r
    requires s.tasks[1].pc == ChainLocking && s.tasks[1].guarded == {d}
    requires s.db == EMPTY_DB.(delegations := map[p := Delegation(holder, {}), d := Delegation(user, {p})])
    requires r.kind == Delegate && r.dependent && r.cites == [d] && r.actor == user && r.ops == [] && r.spaces == {}
    ensures Poised(s, 1, d, [p], p)
  {
    hide GuardInv, Unguarded;
    PairLinks(s.db, p, holder, d, user);
    SingleElems(d);
    assert CitedGrants(s.db, r) == {d};
    hide Elems, LinksOf, Parents;
  }

  /**
   For any two delegations there is a run in which a call that rests on `d` may commit although
   `p`, the parent of `d`, was revoked before: the call cited `d` before `d` was stored, so it
   guards `d` alone. Its walks drop no row.
   */
  lemma UnstoredRootOutrunsRevocation(p: Hash, d: Hash, e: Hash, id: Hash, owner: Did, holder: Did, user: Did,
      other: Did)
    returns (states: seq<State>, events: seq<Event>)
    requires p != d
    ensures IsRun(states, events) && Outran(states[|events|], 1, d, p)
    ensures !states[|events|].tasks[1].stored && states[|events|].tasks[1].uncut
  {
    hide Poised, Outran, IsRun;
    var m := StoredTooLate(p, d, e, owner, holder, user, other);
    var s := Outrun(m, 1, d, [p], p, 3, id, owner);
    LeadsOn(INIT, m, s);
    states, events := RunTo(s);
  }

  lemma RunTo(s: State) returns (states: seq<State>, events: seq<Event>)
    requires Leads(INIT, s)
    ensures IsRun(states, events) && states[|events|] == s
  {
    hide Enabled, Apply;
    events :| After(INIT, events) == Some(s);
    states := RunOf(INIT, events);
  }

  // ---- A query cut short ----

  /** Delegations of the owner to one holder. */
  function RootRows(cs: seq<Hash>, holder: Did): map<Hash, Delegation> {
    map c | c in cs :: Delegation(holder, {})
  }

  /** Such delegations and, under all of them, `x`. */
  function FanDb(cs: seq<Hash>, holder: Did, x: Hash, user: Did): Db {
    EMPTY_DB.(delegations := RootRows(cs, holder)[x := Delegation(user, Elems(cs))])
  }

  lemma {:induction false} StoreRoots(cs: seq<Hash>, owner: Did, holder: Did) returns (s: State)
    requires Distinct(cs)
    ensures GuardInv(s) && Unguarded(s) && Leads(INIT, s) && forall t :: t in s.tasks ==> t < |cs|
    ensures s.db == EMPTY_DB.(delegations := RootRows(cs, holder))
    decreases |cs|
  {
    if cs == [] {
      InitGuards();
      s := INIT;
      assert After(INIT, []) == Some(INIT) && RootRows(cs, holder) == map[];
    } else {
      var n := |cs| - 1;
      var rest := cs[..n];
      LastOff(cs);
      var m := StoreRoots(rest, owner, holder);
      NoElems();
      RootRowsSnoc(rest, cs[n], holder);
      hide GuardInv, Leads, Elems, Unguarded, RootRows, Goes, Distinct;
      s := Store(m, n, cs[n], owner, holder, []);
      GoesLeads(m, s, n);
      GoesKeys(m, s, n);
      LeadsOn(INIT, m, s);
    }
  }

  lemma RootRowsSnoc(cs: seq<Hash>, c: Hash, holder: Did)
    requires c !in cs
    ensures c !in RootRows(cs, holder)
    ensures RootRows(cs + [c], holder) == RootRows(cs, holder)[c := Delegation(holder, {})]
  {
  }

  lemma FanLinks(cs: seq<Hash>, holder: Did, x: Hash, user: Did)
    requires x !in cs
    ensures var db := FanDb(cs, holder, x, user);
            && Parents(LinksOf(db), x) == Elems(cs) && Parentless(db, cs) && Elems(cs) + {x} <= db.delegations.Keys
            && db.revoked == {} && db.events == {}
  {
  }

  lemma RootLinks(cs: seq<Hash>, holder: Did, x: Hash)
    requires x !in cs
    ensures var db := EMPTY_DB.(delegations := RootRows(cs, holder));
            Parentless(db, cs) && Elems(cs) <= db.delegations.Keys && x !in db.delegations
  {
  }

  /** The delegations `cs` are stored, and `x` under them all. */
  lemma StoreFan(cs: seq<Hash>, owner: Did, holder: Did, x: Hash, user: Did) returns (s: State)
    requires Distinct(cs) && x !in cs && |cs| <= MAX_CHAIN_TRAVERSAL_NODES
    ensures GuardInv(s) && Unguarded(s) && Leads(INIT, s) && forall t :: t in s.tasks ==> t <= |cs|
    ensures s.db == FanDb(cs, holder, x, user)
  {
    hide GuardInv, Leads, Elems, Unguarded, Goes, Distinct, RootRows;
    var m := StoreRoots(cs, owner, holder);
    RootLinks(cs, holder, x);
    s := Store(m, |cs|, x, owner, user, cs);
    GoesLeads(m, s, |cs|);
    GoesKeys(m, s, |cs|);
    LeadsOn(INIT, m, s);
  }

  /** The 33rd query of a walk returns 32 rows at most: of 33 parents it may drop the one not met before. */
  lemma CutStep(db: Db, x: Hash, bs: seq<Hash>, p: Hash, seen: seq<Hash>)
    requires Parents(LinksOf(db), x) == Elems(bs) + {p} && Distinct(bs) && |bs| == |seen| == 32
    requires Elems(seen) == Elems(bs) && x !in bs && p !in bs
    ensures var w := Walk([x], seen);
            && MayFetch(db, w, bs) && !Uncut(LinksOf(db), w, bs) && Step(w, bs) == Some(Walk([], seen + [x]))
  {
    var w := Walk([x], seen);
    ElemsHas(bs, x);
    ElemsHas(seen, x);
    ElemsHas(bs, p);
    DistinctSize(bs);
    assert |Elems(bs) + {p}| == 33;
    assert w.frontier[..0] == [];
    forall y | y in bs ensures y in seen {
      ElemsHas(bs, y);
      ElemsHas(seen, y);
    }
    PushKnown(Walk([], seen + [x]), bs);
    hide Parents, LinksOf, Push;
  }

  lemma CutQuery(s: State, t: TaskId, task: Task, x: Hash, bs: seq<Hash>, p: Hash, seen: seq<Hash>)
    requires t in s.tasks && t in s.locks.holders && Goes(s, With(s, t, task), t) && task.pc == Walking(Walk([x], seen))
    requires Parents(LinksOf(s.db), x) == Elems(bs) + {p} && Distinct(bs) && |bs| == |seen| == 32
    requires Elems(seen) == Elems(bs) && x !in bs && p !in bs
    ensures Goes(s, With(s, t, task.(pc := Walking(Walk([], seen + [x])), uncut := false)), t)
  {
    CutStep(s.db, x, bs, p, seen);
    hide Goes, MayFetch, Uncut, Step, Elems, Parents, LinksOf, Distinct;
    ThenQuiet(s, t, task, WalkChain(bs));
    assert Advance(s.db, task, s.locks.holders[t], WalkChain(bs))
        == task.(pc := Walking(Walk([], seen + [x])), uncut := false);
  }

  /** A call that cites `x` and all its parents but `p` guards just what it cites. */
  lemma WaitCut(s: State, t: TaskId, r: Request, x: Hash, bs: seq<Hash>, p: Hash) returns (s': State)
    requires GuardInv(s) && t !in s.tasks && ValidRequest(r) && Roots(r) == [x] + bs && Order.Ascending([x] + bs)
    requires |bs| == 32 && p !in bs && Parents(LinksOf(s.db), x) == Elems(bs) + {p} && Parentless(s.db, bs)
    requires Elems(bs) + {x} <= s.db.delegations.Keys
    ensures Goes(s, s', t) && GuardInv(s') && s'.db == s.db
    ensures t in s'.tasks && s'.tasks[t].request == r && s'.tasks[t].pc == ChainLocking
    ensures s'.tasks[t].guarded == Elems(bs) + {x} && s'.tasks[t].stored && !s'.tasks[t].uncut
    ensures s'.tasks[t].scope == Reach(LinksOf(s.db), Elems([x] + bs))
    ensures t in s'.locks.holders && s'.locks.holders[t].holds == {}
  {
    CitedOnce(x, bs);
    hide GuardInv, BeginTask, Elems, Distinct, Parents, LinksOf, SortHashes, Goes, ValidRequest, Roots, Parentless;
    hide Order.Ascending;
    hide Reach;
    Begun(s.db, r);
    var s1 := Opened(s, t, r);
    GoesHas(s, s1, t);
    var seen, s2 := WalkToCut(s1, t, x, bs, p);
    s' := FinishWalk(s, s1, s2, t, seen);
  }

  lemma WalkToCut(s: State, t: TaskId, x: Hash, bs: seq<Hash>, p: Hash) returns (seen: seq<Hash>, s': State)
    requires t in s.tasks && t in s.locks.holders && s.tasks[t].pc == Walking(Walk([x] + bs, []))
    requires Parents(LinksOf(s.db), x) == Elems(bs) + {p} && Parentless(s.db, bs)
    requires Distinct(bs) && |bs| == 32 && x !in bs && p !in bs
    ensures Goes(s, s', t) && s'.db == s.db && s'.locks == s.locks && Elems(seen) == Elems(bs) + {x}
    ensures t in s'.tasks && s'.tasks[t] == s.tasks[t].(pc := Walking(Walk([], seen)), uncut := false)
  {
    hide Elems, Distinct, Walks, Parents, LinksOf, Goes, Parentless;
    NoElems();
    var met := PopAll(s.db, [x], bs, []);
    Stays(s, t);
    GuardWalk(s, t, s.tasks[t], Walk([x] + bs, []), Walk([x], met), |bs|);
    var task := s.tasks[t].(pc := Walking(Walk([x], met)));
    CutQuery(s, t, task, x, bs, p, met);
    ElemsSnoc(met, x);
    seen := met + [x];
    s' := With(s, t, task.(pc := Walking(Walk([], seen)), uncut := false));
  }

  lemma {:induction false} CitedOnce(x: Hash, bs: seq<Hash>)
    requires Order.Ascending([x] + bs)
    ensures SortHashes([x] + bs) == [x] + bs && Distinct(bs) && x !in bs && Elems([x] + bs) == Elems(bs) + {x}
  {
    SortedAlready([x] + bs);
    hide SortHashes;
    var s := [x] + bs;
    assert forall i :: 0 <= i < |bs| ==> s[i + 1] == bs[i];
  }

  lemma FanPoised(s: State, v: TaskId, r: Request, bs: seq<Hash>, p: Hash, x: Hash, holder: Did, user: Did)
    requires GuardInv(s) && Unguarded(s) && v in s.tasks && s.tasks[v].request == r && s.tasks[v].pc == ChainLocking
    requires Distinct(bs + [p]) && x !in bs + [p] && |bs| == 32 && holder != user
    requires s.tasks[v].guarded == Elems(bs) + {x} && s.db == FanDb(bs + [p], holder, x, user)
    requires r.kind == Delegate && r.dependent && r.cites == [x] + bs && r.actor == user && r.ops == []
    requires r.spaces == {}
    ensures Poised(s, v, x, bs + [p], p)
  {
    hide GuardInv, Unguarded;
    var cs := bs + [p];
    LastOff(cs);
    assert cs[..32] == bs && cs[32] == p;
    FanLinks(cs, holder, x, user);
    assert CitedGrants(s.db, r) == {x};
    assert Elems([x] + bs) <= s.db.delegations.Keys;
    hide LinksOf, Parents;
  }

  /** Task 34 cites `x` and 32 of its 33 parents, and its walk drops `p`, the last of them. */
  lemma CutShort(bs: seq<Hash>, p: Hash, x: Hash, e: Hash, owner: Did, holder: Did, user: Did, other: Did)
      returns (s: State)
    requires Order.Ascending([x] + bs) && |bs| == 32 && p != x && p !in bs && holder != user
    ensures Leads(INIT, s) && Poised(s, 34, x, bs + [p], p) && 35 !in s.tasks
    ensures s.tasks[34].request == DelegateRequest(e, user, other, [x] + bs, true)
    ensures s.tasks[34].stored && !s.tasks[34].uncut && |s.tasks[34].scope| <= 34
  {
    hide GuardInv, Leads, Elems, Unguarded, Goes, Distinct, FanDb, LinksOf, Parents, Parentless, Poised;
    hide Order.Ascending;
    var cs, r := bs + [p], DelegateRequest(e, user, other, [x] + bs, true);
    FanReady(bs, p, x, holder, user);
    var m := StoreFan(cs, owner, holder, x, user);
    s := WaitCut(m, 34, r, x, bs, p);
    StillUnguarded(m, s, 34);
    GoesLeads(m, s, 34);
    GoesKeys(m, s, 34);
    LeadsOn(INIT, m, s);
    FanPoised(s, 34, r, bs, p, x, holder, user);
    FanScope(bs, p, x, holder, user);
  }

  /** Above `x` and the others lie no more than these 33 and `p`. */
  lemma FanScope(bs: seq<Hash>, p: Hash, x: Hash, holder: Did, user: Did)
    requires x !in bs + [p] && |bs| == 32
    ensures |Reach(LinksOf(FanDb(bs + [p], holder, x, user)), Elems([x] + bs))| <= 34
  {
    var cs := bs + [p];
    var g, all := LinksOf(FanDb(cs, holder, x, user)), Elems([x] + cs);
    FanLinks(cs, holder, x, user);
    ElemsSize([x] + cs);
    FanClosed(cs, x, FanDb(cs, holder, x, user));
    ReachLeast(g, Elems([x] + bs), all);
    SubsetSize(Reach(g, Elems([x] + bs)), all);
  }

  lemma FanClosed(cs: seq<Hash>, x: Hash, db: Db)
    requires Parents(LinksOf(db), x) == Elems(cs) && Parentless(db, cs)
    ensures Closed(LinksOf(db), Elems([x] + cs))
  {
    hide LinksOf, Parents;
  }

  lemma FanReady(bs: seq<Hash>, p: Hash, x: Hash, holder: Did, user: Did)
    requires Order.Ascending([x] + bs) && p != x && p !in bs
    ensures Distinct(bs + [p]) && x !in bs + [p]
    ensures var db := FanDb(bs + [p], holder, x, user);
            && Parents(LinksOf(db), x) == Elems(bs) + {p} && Parentless(db, bs)
            && Elems(bs) + {x} <= db.delegations.Keys
  {
    CitedOnce(x, bs);
    ElemsSnoc(bs, p);
    FanLinks(bs + [p], holder, x, user);
    hide LinksOf, Parents, FanDb;
  }

  /**
   For any 32 delegations and two more there is a run in which a call that rests on the stored `x`
   may commit although `p`, a parent of `x`, was revoked before: the walk that collects its guards
   reaches `x` with 32 rows left to ask for, of 33.
   */
  lemma CutWalkOutrunsRevocation(bs: seq<Hash>, p: Hash, x: Hash, e: Hash, id: Hash,
                                 owner: Did, holder: Did, user: Did, other: Did)
    returns (states: seq<State>, events: seq<Event>)
    requires Order.Ascending([x] + bs) && |bs| == 32 && p != x && p !in bs && holder != user
    ensures IsRun(states, events) && Outran(states[|events|], 34, x, p)
    ensures states[|events|].tasks[34].stored && !states[|events|].tasks[34].uncut
    ensures |states[|events|].tasks[34].scope| <= 34
  {
    hide Poised, Outran, IsRun;
    var m := CutShort(bs, p, x, e, owner, holder, user, other);
    var s := Outrun(m, 34, x, bs + [p], p, 35, id, owner);
    LeadsOn(INIT, m, s);
    states, events := RunTo(s);
  }

  // ---- Both conditions are needed ----

  ghost predicate CommitsAt(states: seq<State>, events: seq<Event>, i: nat, t: TaskId) {
    IsRun(states, events) && i < |events| < |states| && events[i] == Act(t, Commit) && t in states[i].tasks
  }

  /** Every commit of a task that meets the conditions asked for rests on live grants. */
  ghost predicate AlwaysLive(stored: bool, uncut: bool) {
    forall states: seq<State>, events: seq<Event>, i: nat, t: TaskId ::
      CommitsAt(states, events, i, t)
      && (stored ==> states[i].tasks[t].stored) && (uncut ==> states[i].tasks[t].uncut)
      ==> RestsOnLiveGrants(states[i].db, states[i].tasks[t].request)
  }

  lemma OutranCommits(before: seq<State>, sofar: seq<Event>, v: TaskId, x: Hash, p: Hash)
    returns (states: seq<State>, events: seq<Event>)
    requires IsRun(before, sofar) && Outran(before[|sofar|], v, x, p)
    ensures CommitsAt(states, events, |sofar|, v) && states[|sofar|] == before[|sofar|]
    ensures !RestsOnLiveGrants(states[|sofar|].db, states[|sofar|].tasks[v].request)
  {
    hide Enabled, Reach, ReliedOn, LinksOf, Apply;
    ExtendRun(before, sofar, Act(v, Commit));
    states, events := before + [Apply(before[|sofar|], Act(v, Commit))], sofar + [Act(v, Commit)];
  }

  lemma NotLiveUnstored(uncut: bool)
    ensures !AlwaysLive(false, uncut)
  {
    hide Outran, IsRun, RestsOnLiveGrants;
    var before, sofar := UnstoredRootOutrunsRevocation(1, 2, 3, 4, "owner", "holder", "user", "other");
    var states, events := OutranCommits(before, sofar, 1, 2, 1);
  }

  lemma NotLiveCut()
    ensures !AlwaysLive(true, false)
  {
    hide Outran, IsRun, RestsOnLiveGrants;
    var bs := seq(32, i => i + 1);
    assert forall i :: 0 <= i < 33 ==> ([0] + bs)[i] == i;
    var before, sofar := CutWalkOutrunsRevocation(bs, 33, 0, 34, 35, "owner", "holder", "user", "other");
    var states, events := OutranCommits(before, sofar, 34, 0, 33);
  }

  /** A call whose roots were stored when it began, with at most `n` delegations from them upwards. */
  ghost predicate BeganWithin(states: seq<State>, events: seq<Event>, b: nat, t: TaskId, r: Request, n: nat) {
    && b < |events| < |states| && events[b] == Begin(t, r)
    && Elems(Roots(r)) <= states[b].db.delegations.Keys
    && |Reach(LinksOf(states[b].db), Elems(Roots(r)))| <= n
  }

  /** Whatever runs meanwhile, every commit of such a call rests on live grants. */
  ghost predicate LiveUpTo(n: nat) {
    forall states: seq<State>, events: seq<Event>, b: nat, i: nat, t: TaskId, r: Request ::
      CommitsAt(states, events, i, t) && BeganWithin(states, events, b, t, r, n) && b < i
      ==> states[i].tasks[t].request == r && RestsOnLiveGrants(states[i].db, r)
  }

  lemma CutAt34(n: nat)
    requires n >= 34
    ensures !LiveUpTo(n)
  {
    hide Outran, IsRun, RestsOnLiveGrants, Reach, LinksOf, Roots, Elems;
    var bs := seq(32, i => i + 1);
    assert forall i :: 0 <= i < 33 ==> ([0] + bs)[i] == i;
    var before, sofar := CutWalkOutrunsRevocation(bs, 33, 0, 34, 35, "owner", "holder", "user", "other");
    var states, events := OutranCommits(before, sofar, 34, 0, 33);
    var b := CallBegan(states, events, |sofar|, 34);
    var r := states[|sofar|].tasks[34].request;
    RunSizes(states, events);
    CallKeeps(states, events, b, |sofar|, 34, r);
    assert BeganWithin(states, events, b, 34, r, n);
  }

  lemma RunSizes(states: seq<State>, events: seq<Event>)
    requires IsRun(states, events)
    ensures |states| == |events| + 1
  {
  }

  /**
   The bound is exact: with everything stored, 33 delegations from the roots upwards are always
   safe, whatever else runs; with 34 there is a run in which a revocation is outrun.
   */
  lemma LiveUpToIff(n: nat)
    ensures LiveUpTo(n) <==> n <= 33
  {
    if n <= 33 {
      forall states: seq<State>, events: seq<Event>, b: nat, i: nat, t: TaskId, r: Request
        | CommitsAt(states, events, i, t) && BeganWithin(states, events, b, t, r, n) && b < i
        ensures states[i].tasks[t].request == r && RestsOnLiveGrants(states[i].db, r)
      {
        hide IsRun, RestsOnLiveGrants, Reach, LinksOf, Roots, Elems;
        SmallChainsCommitLive(states, events, b, i, t, r);
      }
    } else {
      CutAt34(n);
    }
  }

  /** Commits rest on live grants when both conditions are asked for, and neither can be left out. */
  lemma LiveIffSettled(stored: bool, uncut: bool)
    ensures AlwaysLive(stored, uncut) <==> stored && uncut
  {
    if stored && uncut {
      forall states: seq<State>, events: seq<Event>, i: nat, t: TaskId
        | CommitsAt(states, events, i, t) && states[i].tasks[t].stored && states[i].tasks[t].uncut
        ensures RestsOnLiveGrants(states[i].db, states[i].tasks[t].request)
      {
        hide IsRun, RestsOnLiveGrants;
        CommitsUnderLiveGrants(states, events, i, t);
      }
    } else if !stored {
      NotLiveUnstored(uncut);
    } else {
      NotLiveCut();
    }
  }
}

/** Whole calls, from their first step to their commit. */
module Calls {
  import opened Order
  import opened Graph
  import opened ChainWalk
  import opened LockTable
  import opened SpaceTables
  import opened SpaceProtocol
  import opened GuardSafety
  import opened Runs

  const NO_TARGET: Hash := 0

  function DelegateRequest(id: Hash, from: Did, to: Did, cites: seq<Hash>, dependent: bool): Request {
    Request(Delegate, id, from, to, cites, NO_TARGET, dependent, {}, [], map[])
  }

  function RevokeRequest(id: Hash, revoker: Did, target: Hash): Request {
    Request(Revoke, id, revoker, revoker, [], target, false, {}, [], map[])
  }

  /** A delegation or revocation without rows of its own, whose cited parents are stored. */
  ghost predicate Simple(db: Db, r: Request) {
    && (r.kind == Delegate || r.kind == Revoke) && r.ops == []
    && SpacesOf(db, r) == {} && Elems(r.cites) <= db.delegations.Keys
  }

  predicate Bare(task: Task) {
    task.staged.events == {} && task.staged.writes == {} && task.staged.deletes == {}
  }

  /** The task holds its guards and reads what its authority rests on. */
  lemma ReadAuthority(s: State, t: TaskId, relied: set<Hash>)
    requires t in s.tasks && t in s.locks.holders && s.tasks[t].pc.ChainLocking? && s.locks.holders[t].pending == []
    requires Simple(s.db, s.tasks[t].request) && ReliedOn(s.db, s.tasks[t].request) == Some(relied)
    ensures Goes(s, With(s, t, s.tasks[t].(pc := Validating(relied, IDLE, []), seqs := map[], relied := relied)), t)
  {
    hide Goes, ReliedOn, Elems;
    var db, h, task := s.db, s.locks.holders[t], s.tasks[t];
    OrderingNext(s, t);
    assert (map sp | sp in SpacesOf(db, task.request) :: NextSeq(db.events, sp)) == map[];
    hide SpacesOf;
    var task1 := task.(pc := Ordering);
    ThenQuiet(s, t, task1, ReadSeqs);
    var task2 := task.(pc := Authorizing, seqs := map[]);
    assert Advance(db, task1, h, ReadSeqs) == task2;
    ThenQuiet(s, t, task2, ReadParents);
  }

  lemma OrderingNext(s: State, t: TaskId)
    requires t in s.tasks && t in s.locks.holders && s.tasks[t].pc.ChainLocking? && s.locks.holders[t].pending == []
    requires s.tasks[t].request.kind == Delegate || s.tasks[t].request.kind == Revoke
    ensures Goes(s, With(s, t, s.tasks[t].(pc := Ordering)), t)
  {
    hide Leads;
    OneEvent(s, Act(t, FindObjectLocks));
  }

  /** What the steps of a proof's validation do, one by one. */
  lemma ProofSteps(db: Db, task: Task, h: Holder)
    requires task.pc.Validating?
    ensures task.pc == Validating({}, IDLE, []) ==>
              Ready(db, task, h, Validated) && Advance(db, task, h, Validated) == task.(pc := Saving)
    ensures task.pc.proof.frontier == [] && task.pc.proof.visited != [] && task.pc.found == [] ==>
              && Ready(db, task, h, CollectProof)
              && Advance(db, task, h, CollectProof) ==
                task.(pc := task.pc.(proof := IDLE, found := task.pc.proof.visited))
    ensures task.pc.proof == IDLE && task.pc.found != [] && task.pc.found[0] !in db.revoked ==>
              && Ready(db, task, h, CheckRevoked)
              && Advance(db, task, h, CheckRevoked)
                   == task.(pc := task.pc.(found := task.pc.found[1..]), checked := task.checked + {task.pc.found[0]})
    ensures task.pc.proof == IDLE && task.pc.found == [] ==> forall id :: id in task.pc.proofs ==>
              && Ready(db, task, h, NextProof(id))
              && Advance(db, task, h, NextProof(id)) ==
                task.(pc := Validating(task.pc.proofs - {id}, Walk([id], []), []))
  {
  }

  lemma {:induction false} CheckAll(s: State, t: TaskId, task: Task, found: seq<Hash>) returns (checked: set<Hash>)
    requires t in s.tasks && t in s.locks.holders && s.db.revoked == {} && task.pc == Validating({}, IDLE, found)
    requires Goes(s, With(s, t, task), t)
    ensures Goes(s, With(s, t, task.(pc := Validating({}, IDLE, []), checked := checked)), t)
    decreases |found|
  {
    hide Goes, Ready, Advance;
    if found == [] {
      checked := task.checked;
      assert task.(pc := Validating({}, IDLE, []), checked := checked) == task;
    } else {
      ProofSteps(s.db, task, s.locks.holders[t]);
      ThenQuiet(s, t, task, CheckRevoked);
      var next := task.(pc := Validating({}, IDLE, found[1..]), checked := task.checked + {found[0]});
      checked := CheckAll(s, t, next, found[1..]);
    }
  }

  /** The proof of one parent is walked and checked. */
  lemma ProveOne(s: State, t: TaskId, task: Task, x: Hash, ids: seq<Hash>, k: nat) returns (checked: set<Hash>)
    requires t in s.tasks && t in s.locks.holders && s.db.revoked == {} && task.pc == Validating({x}, IDLE, [])
    requires Goes(s, With(s, t, task), t) && Walks(s.db, Walk([x], []), Walk([], ids), k) && ids != []
    ensures Goes(s, With(s, t, task.(pc := Validating({}, IDLE, []), checked := checked)), t)
  {
    hide Goes, Ready, Advance, Walks;
    var db, h := s.db, s.locks.holders[t];
    ProofSteps(db, task, h);
    ThenQuiet(s, t, task, NextProof(x));
    assert {x} - {x} == {};
    ProofWalk(s, t, task, Walk([x], []), Walk([], ids), k);
    var task1 := task.(pc := Validating({}, Walk([], ids), []));
    ProofSteps(db, task1, h);
    ThenQuiet(s, t, task1, CollectProof);
    checked := CheckAll(s, t, task.(pc := Validating({}, IDLE, ids)), ids);
  }

  /** From a finished validation to the saved rows. */
  lemma SaveRowsNow(s: State, t: TaskId, task: Task)
    requires t in s.tasks && t in s.locks.holders && Goes(s, With(s, t, task), t)
    requires task.pc == Validating({}, IDLE, []) && task.seqs == map[] && Simple(s.db, task.request)
    ensures var rows := Staged(task.request.id !in s.db.invocations, {}, {}, {});
            Goes(s, With(s, t, task.(pc := Committing, staged := rows)), t)
  {
    hide Goes, Ready, Advance;
    ProofSteps(s.db, task, s.locks.holders[t]);
    ThenQuiet(s, t, task, Validated);
    var task1 := task.(pc := Saving);
    SaveNothing(s.db, task1, s.locks.holders[t]);
    ThenQuiet(s, t, task1, Save(map[]));
  }

  lemma SaveNothing(db: Db, task: Task, h: Holder)
    requires task.pc == Saving && task.seqs == map[] && Simple(db, task.request)
    ensures Ready(db, task, h, Save(map[]))
    ensures Advance(db, task, h, Save(map[]))
              == task.(pc := Committing, staged := Staged(task.request.id !in db.invocations, {}, {}, {}))
  {
    assert forall p :: p in task.request.cites ==> p in Elems(task.request.cites);
  }

  predicate SameScope(a: Task, b: Task) {
    a.stored == b.stored && a.uncut == b.uncut && a.scope == b.scope
  }

  /** What a task has done when its rows are saved: nothing but to wait for its commit. */
  ghost predicate Saved(s: State, s': State, t: TaskId) {
    && Goes(s, s', t) && s'.db == s.db && s'.locks == s.locks
    && t in s.tasks && t in s'.tasks && s'.tasks[t].pc == Committing && Bare(s'.tasks[t])
    && s'.tasks[t].request == s.tasks[t].request
    && SameScope(s'.tasks[t], s.tasks[t])
  }

  /** A call that needs no proof goes from its guards to its saved rows. */
  lemma UnprovedSave(s: State, t: TaskId) returns (s': State)
    requires t in s.tasks && t in s.locks.holders && s.tasks[t].pc.ChainLocking? && s.locks.holders[t].pending == []
    requires Simple(s.db, s.tasks[t].request) && ReliedOn(s.db, s.tasks[t].request) == Some({})
    ensures Saved(s, s', t)
  {
    hide Goes, Simple, ReliedOn;
    ReadAuthority(s, t, {});
    var task := s.tasks[t].(pc := Validating({}, IDLE, []), seqs := map[], relied := {});
    SaveRowsNow(s, t, task);
    s' := With(s, t, task.(pc := Committing, staged := Staged(task.request.id !in s.db.invocations, {}, {}, {})));
  }

  /** A call that rests on `x` walks and checks its chain before it saves. */
  lemma ProvedSave(s: State, t: TaskId, x: Hash, cs: seq<Hash>) returns (s': State)
    requires t in s.tasks && t in s.locks.holders && s.tasks[t].pc.ChainLocking? && s.locks.holders[t].pending == []
    requires Simple(s.db, s.tasks[t].request) && ReliedOn(s.db, s.tasks[t].request) == Some({x}) && s.db.revoked == {}
    requires Parents(LinksOf(s.db), x) == Elems(cs) && Parentless(s.db, cs)
    requires Distinct(cs) && x !in cs && |cs| < MAX_CHAIN_TRAVERSAL_NODES
    ensures Saved(s, s', t)
  {
    hide Goes, Simple, ReliedOn, Parents, LinksOf, Elems, Distinct, Parentless, Walks;
    ReadAuthority(s, t, {x});
    var ids := ProofFrom(s.db, x, cs);
    assert ids != [] by { SomeElems(ids, x); }
    var task := s.tasks[t].(pc := Validating({x}, IDLE, []), seqs := map[], relied := {x});
    var checked := ProveOne(s, t, task, x, ids, |cs| + 1);
    var task1 := task.(pc := Validating({}, IDLE, []), checked := checked);
    SaveRowsNow(s, t, task1);
    s' := With(s, t, task1.(pc := Committing, staged := Staged(task.request.id !in s.db.invocations, {}, {}, {})));
  }

  lemma SomeElems(ids: seq<Hash>, x: Hash)
    requires x in Elems(ids)
    ensures ids != []
  {
  }

  /** The rows of a committed delegation or revocation. */
  function Committed(db: Db, r: Request): Db {
    db.(delegations :=
          if r.kind == Delegate && r.id !in db.delegations then
            db.delegations[r.id := Delegation(r.audience, Elems(r.cites))]
          else db.delegations,
        revoked := db.revoked + if r.kind == Revoke then {r.target} else {})
  }

  lemma CommitsRows(db: Db, task: Task)
    requires Bare(task) && task.request.kind != Invoke
    ensures CommitRows(db, task) == Committed(db, task.request) && NoConflict(db, task)
  {
    assert (set p | p in task.request.cites) == Elems(task.request.cites);
    assert db.events + {} == db.events && db.writes + {} == db.writes && db.deletes + {} == db.deletes;
    assert db.invocations + {} == db.invocations;
  }

  lemma CommitNow(s: State, t: TaskId) returns (s': State)
    requires t in s.tasks && t in s.locks.holders && s.tasks[t].pc == Committing && s.tasks[t].request.kind != Invoke
    requires Bare(s.tasks[t])
    ensures Goes(s, s', t) && s'.locks == s.locks && s'.db == Committed(s.db, s.tasks[t].request)
    ensures t in s'.tasks && s'.tasks[t].pc == Releasing(true)
  {
    CommitsRows(s.db, s.tasks[t]);
    hide Leads, Ready, Advance, NoConflict, CommitRows, Committed, StoreAfter;
    LockActions(s.db, s.tasks[t], s.locks.holders[t]);
    OneEvent(s, Act(t, Commit));
    s' := Apply(s, Act(t, Commit));
  }

  lemma Begun(db: Db, r: Request)
    requires |SortHashes(Roots(r))| <= MAX_CHAIN_TRAVERSAL_NODES
    ensures var task := BeginTask(db, r);
            && task.request == r && task.pc == Walking(Walk(SortHashes(Roots(r)), []))
            && (task.stored <==> Elems(Roots(r)) <= db.delegations.Keys) && task.uncut
            && task.scope == Reach(LinksOf(db), Elems(Roots(r)))
  {
    hide Reach, Roots, SortHashes, LinksOf;
  }

  /** Sorting keeps the elements, without repeats. */
  lemma {:induction false} SortedRoots(roots: seq<Hash>)
    ensures var ids := SortHashes(roots); |ids| <= |roots| && Distinct(ids) && Elems(ids) == Elems(roots)
  {
    SortedSize(roots);
    hide SortHashes;
  }

  /** A new call whose roots have no parents comes to wait for its guards. */
  lemma WaitForGuards(s: State, t: TaskId, r: Request) returns (s': State)
    requires GuardInv(s) && t !in s.tasks && ValidRequest(r)
    requires |Roots(r)| <= MAX_CHAIN_TRAVERSAL_NODES && Parentless(s.db, Roots(r))
    ensures Goes(s, s', t) && GuardInv(s') && s'.db == s.db
    ensures t in s'.tasks && s'.tasks[t].request == r && s'.tasks[t].pc == ChainLocking
    ensures s'.tasks[t].guarded == Elems(Roots(r))
    ensures (s'.tasks[t].stored <==> Elems(Roots(r)) <= s.db.delegations.Keys) && s'.tasks[t].uncut
    ensures t in s'.locks.holders && s'.locks.holders[t].holds == {}
  {
    hide GuardInv, BeginTask, Elems, Distinct, Walks, Parents, LinksOf, SortHashes, Goes, ValidRequest, Roots;
    var ids := SortHashes(Roots(r));
    SortedRoots(Roots(r));
    Begun(s.db, r);
    var s1 := Opened(s, t, r);
    GuardKeys(s1);
    GoesHas(s, s1, t);
    assert Parentless(s.db, ids);
    assert Elems<Hash>([]) == {} by { NoElems(); }
    var seen := PopAll(s.db, [], ids, []);
    assert [] + ids == ids;
    Stays(s1, t);
    GuardWalk(s1, t, s1.tasks[t], Walk(ids, []), Walk([], seen), |ids|);
    var s2 := With(s1, t, s1.tasks[t].(pc := Walking(Walk([], seen))));
    s' := FinishWalk(s, s1, s2, t, seen);
  }

  lemma NoElems()
    ensures Elems<Hash>([]) == {}
  {
  }

  lemma GoesKeys(s: State, s': State, t: TaskId)
    requires Goes(s, s', t)
    ensures s'.tasks.Keys == s.tasks.Keys + {t}
  {
  }

  lemma GoesHas(s: State, s': State, t: TaskId)
    requires Goes(s, s', t)
    ensures t in s'.tasks && t in s'.locks.holders
  {
  }

  /** The end of the guard walk. */
  lemma FinishWalk(s: State, s1: State, s2: State, t: TaskId, seen: seq<Hash>) returns (s': State)
    requires GuardInv(s1) && Goes(s, s1, t) && Goes(s1, s2, t) && t in s2.tasks && t in s2.locks.holders
    requires s2.tasks[t].pc == Walking(Walk([], seen)) && s2.locks.holders[t] == Holder([], {}, map[])
    ensures Goes(s, s', t) && GuardInv(s') && s'.db == s2.db
    ensures t in s'.tasks && s'.tasks[t] == s2.tasks[t].(pc := ChainLocking, guarded := Elems(seen))
    ensures t in s'.locks.holders && s'.locks.holders[t].holds == {}
  {
    hide GuardInv, Leads, Elems;
    LeadsGuarded(s1, s2);
    s' := AskGuards(s2, t, seen);
    hide Goes;
    GoesOn(s, s1, s2, t);
    GoesOn(s, s2, s', t);
    GoesHas(s, s', t);
  }

  /** A new call that needs no proof runs until it has committed. */
  lemma RunFree(s: State, t: TaskId, r: Request) returns (s': State)
    requires GuardInv(s) && t !in s.tasks && ValidRequest(r) && NobodyHolds(s, Elems(Roots(r)))
    requires |Roots(r)| <= MAX_CHAIN_TRAVERSAL_NODES && Parentless(s.db, Roots(r))
    requires Simple(s.db, r) && ReliedOn(s.db, r) == Some({})
    ensures Goes(s, s', t) && GuardInv(s') && s'.db == Committed(s.db, r)
    ensures t in s'.tasks && s'.tasks[t].pc == Releasing(true)
  {
    hide GuardInv, ValidRequest, Parentless, Roots, Elems, ReliedOn, SpacesOf, Committed, Leads;
    var s1 := WaitForGuards(s, t, r);
    NobodyStill(s, s1, t, Elems(Roots(r)));
    hide NobodyHolds;
    var s2 := TakeGuards(s1, t);
    GoesHas(s1, s2, t);
    hide Goes;
    var s3 := UnprovedSave(s2, t);
    GoesHas(s2, s3, t);
    s' := CommitNow(s3, t);
    GoesOn(s, s1, s2, t);
    GoesOn(s, s2, s3, t);
    GoesOn(s, s3, s', t);
    GoesLeads(s, s', t);
    LeadsGuarded(s, s');
  }

  lemma GoesLeads(s: State, s': State, t: TaskId)
    requires Goes(s, s', t)
    ensures Leads(s, s')
  {
  }

  /** What the others did stays as it was. */
  lemma GoesKeeps(s: State, s': State, t: TaskId, v: TaskId)
    requires Goes(s, s', t) && v != t && v in s.tasks && v in s.locks.holders
    ensures v in s'.tasks && s'.tasks[v] == s.tasks[v] && v in s'.locks.holders
    ensures s'.locks.holders[v] == s.locks.holders[v]
    ensures s'.tasks.Keys == s.tasks.Keys + {t}
  {
  }

  lemma NobodyStill(s: State, s': State, t: TaskId, ids: set<Hash>)
    requires NobodyHolds(s, ids) && Goes(s, s', t) && s'.locks.holders[t].holds == {}
    ensures NobodyHolds(s', ids)
  {
    hide Leads;
  }

  /** Nobody holds any guard. */
  ghost predicate Unguarded(s: State) {
    forall u :: u in s.locks.holders ==> s.locks.holders[u].holds == {}
  }

  lemma StillUnguarded(s: State, s': State, t: TaskId)
    requires Unguarded(s) && Goes(s, s', t) && s'.locks.holders[t].holds == {}
    ensures Unguarded(s')
  {
    hide Leads;
  }

  /** A delegation by an owner, under stored parents that have none themselves, is stored. */
  lemma Store(s: State, t: TaskId, id: Hash, from: Did, to: Did, cites: seq<Hash>) returns (s': State)
    requires GuardInv(s) && t !in s.tasks && Unguarded(s) && id !in s.db.delegations
    requires |cites| <= MAX_CHAIN_TRAVERSAL_NODES && Parentless(s.db, cites) && Elems(cites) <= s.db.delegations.Keys
    ensures Goes(s, s', t) && GuardInv(s') && Unguarded(s')
    ensures s'.db == s.db.(delegations := s.db.delegations[id := Delegation(to, Elems(cites))])
  {
    hide GuardInv, Elems, Leads, Parentless;
    var r := DelegateRequest(id, from, to, cites, false);
    var s1 := RunFree(s, t, r);
    GoesHas(s, s1, t);
    s' := DropGuards(s1, t);
    GoesOn(s, s1, s', t);
    assert s.db.revoked + {} == s.db.revoked;
  }

  /** A stored delegation without parents is revoked by its owner. */
  lemma RevokeFree(s: State, t: TaskId, id: Hash, revoker: Did, target: Hash) returns (s': State)
    requires GuardInv(s) && t !in s.tasks && NobodyHolds(s, {target})
    requires target in s.db.delegations && Parents(LinksOf(s.db), target) == {} && s.db.events == {}
    ensures Goes(s, s', t) && s'.db == s.db.(revoked := s.db.revoked + {target})
  {
    hide GuardInv, Leads, Parents, LinksOf, NobodyHolds, Goes;
    var r := RevokeRequest(id, revoker, target);
    assert Roots(r) == [target] && Elems([target]) == {target} by { SingleElems(target); }
    NoElems();
    assert ReliedOn(s.db, r) == Some({});
    s' := RunFree(s, t, r);
  }
}

/** Building runs of the protocol step by step. */
module Runs {
  import opened Order
  import opened Graph
  import opened ChainWalk
  import opened LockTable
  import opened SpaceTables
  import opened SpaceProtocol
  import opened GuardSafety

  /** The state a list of events leads to, if each is enabled in turn. */
  ghost function After(s: State, events: seq<Event>): Option<State>
    decreases |events|
  {
    if events == [] then Some(s)
    else if Enabled(s, events[0]) then After(Apply(s, events[0]), events[1..])
    else None
  }

  ghost predicate Leads(s: State, s': State) {
    exists events :: After(s, events) == Some(s')
  }

  /** Task `t` goes from one state to the other while the other tasks and their guards stay as they are. */
  ghost predicate Goes(s: State, s': State, t: TaskId) {
    && Leads(s, s')
    && s'.tasks.Keys == s.tasks.Keys + {t} && s'.locks.holders.Keys == s.locks.holders.Keys + {t}
    && (forall u :: u in s.tasks && u != t ==> s'.tasks[u] == s.tasks[u])
    && (forall u :: u in s.locks.holders && u != t ==> s'.locks.holders[u] == s.locks.holders[u])
  }

  lemma {:induction false} AfterConcat(s: State, a: seq<Event>, b: seq<Event>)
    requires After(s, a).Some?
    ensures After(s, a + b) == After(After(s, a).value, b)
    decreases |a|
  {
    hide Enabled, Apply;
    if a == [] {
      assert a + b == b;
    } else {
      assert (a + b)[1..] == a[1..] + b;
      AfterConcat(Apply(s, a[0]), a[1..], b);
    }
  }

  lemma LeadsOn(s: State, m: State, s': State)
    requires Leads(s, m) && Leads(m, s')
    ensures Leads(s, s')
  {
    hide Enabled, Apply;
    var a :| After(s, a) == Some(m);
    var b :| After(m, b) == Some(s');
    AfterConcat(s, a, b);
  }

  lemma GoesOn(s: State, m: State, s': State, t: TaskId)
    requires Goes(s, m, t) && Goes(m, s', t)
    ensures Goes(s, s', t)
  {
    hide Leads;
    LeadsOn(s, m, s');
  }

  lemma OneEvent(s: State, e: Event)
    requires Enabled(s, e)
    ensures Leads(s, Apply(s, e))
  {
    hide Enabled, Apply;
    assert [e][1..] == [];
    assert After(Apply(s, e), []) == Some(Apply(s, e));
    assert After(s, [e]) == Some(Apply(s, e));
  }

  lemma {:induction false} AfterKeepsGuards(s: State, events: seq<Event>)
    requires GuardInv(s) && After(s, events).Some?
    ensures GuardInv(After(s, events).value)
    decreases |events|
  {
    hide GuardInv, Enabled, Apply;
    if events != [] {
      EventKeepsGuards(s, events[0]);
      AfterKeepsGuards(Apply(s, events[0]), events[1..]);
    }
  }

  lemma LeadsGuarded(s: State, s': State)
    requires GuardInv(s) && Leads(s, s')
    ensures GuardInv(s')
  {
    hide GuardInv, After;
    var events :| After(s, events) == Some(s');
    AfterKeepsGuards(s, events);
  }

  lemma GuardKeys(s: State)
    requires GuardInv(s)
    ensures s.tasks.Keys == s.locks.holders.Keys
  {
  }

  lemma {:induction false} RunOf(s: State, events: seq<Event>) returns (states: seq<State>)
    requires After(s, events).Some?
    ensures |states| == |events| + 1 && states[0] == s && states[|events|] == After(s, events).value
    ensures forall i :: 0 <= i < |events| ==>
            Enabled(states[i], events[i]) && states[i + 1] == Apply(states[i], events[i])
    decreases |events|
  {
    hide Enabled, Apply;
    if events == [] {
      states := [s];
    } else {
      var rest := RunOf(Apply(s, events[0]), events[1..]);
      states := [s] + rest;
      forall i | 0 <= i < |events|
        ensures Enabled(states[i], events[i]) && states[i + 1] == Apply(states[i], events[i])
      {
        if i > 0 {
          assert states[i] == rest[i - 1] && events[i] == events[1..][i - 1];
        }
      }
    }
  }

  lemma ExtendRun(states: seq<State>, events: seq<Event>, e: Event)
    requires IsRun(states, events) && Enabled(states[|events|], e)
    ensures IsRun(states + [Apply(states[|events|], e)], events + [e])
  {
    hide Enabled, Apply;
  }

  // ---- Actions that leave locks and database alone ----

  function With(s: State, t: TaskId, task: Task): State {
    s.(tasks := s.tasks[t := task])
  }

  lemma Stays(s: State, t: TaskId)
    requires t in s.tasks && t in s.locks.holders
    ensures Goes(s, s, t) && With(s, t, s.tasks[t]) == s
  {
    assert After(s, []) == Some(s);
  }

  /** One such action after others. */
  lemma ThenQuiet(s: State, t: TaskId, task: Task, a: Action)
    requires t in s.tasks && t in s.locks.holders && Goes(s, With(s, t, task), t)
    requires Ready(s.db, task, s.locks.holders[t], a) && !TouchesLocks(a) && !a.Commit?
    ensures Goes(s, With(s, t, Advance(s.db, task, s.locks.holders[t], a)), t)
  {
    hide Ready, Advance, Leads;
    var m, s' := With(s, t, task), With(s, t, Advance(s.db, task, s.locks.holders[t], a));
    OneEvent(m, Act(t, a));
    assert m.tasks[t := s'.tasks[t]] == s'.tasks;
    LeadsOn(s, m, s');
  }

  // ---- Walks ----

  /** A step of a walk whose query drops nothing. */
  ghost predicate Advances(db: Db, w: Walk, rows: seq<Hash>, w': Walk) {
    MayFetch(db, w, rows) && Uncut(LinksOf(db), w, rows) && Step(w, rows) == Some(w')
  }

  ghost predicate Walks(db: Db, w: Walk, w': Walk, k: nat)
    decreases k
  {
    if k == 0 then w == w' else exists rows, m :: Advances(db, w, rows, m) && Walks(db, m, w', k - 1)
  }

  lemma {:induction false} GuardWalk(s: State, t: TaskId, task: Task, w: Walk, w': Walk, k: nat)
    requires t in s.tasks && t in s.locks.holders && Walks(s.db, w, w', k)
    requires Goes(s, With(s, t, task.(pc := Walking(w))), t)
    ensures Goes(s, With(s, t, task.(pc := Walking(w'))), t)
    decreases k
  {
    hide Goes, Step, MayFetch, Uncut;
    if k > 0 {
      var rows, m :| Advances(s.db, w, rows, m) && Walks(s.db, m, w', k - 1);
      var task1 := task.(pc := Walking(w));
      ThenQuiet(s, t, task1, WalkChain(rows));
      assert Advance(s.db, task1, s.locks.holders[t], WalkChain(rows)) == task.(pc := Walking(m));
      GuardWalk(s, t, task, m, w', k - 1);
    }
  }

  lemma {:induction false} ProofWalk(s: State, t: TaskId, task: Task, w: Walk, w': Walk, k: nat)
    requires t in s.tasks && t in s.locks.holders && Walks(s.db, w, w', k)
    requires Goes(s, With(s, t, task.(pc := Validating({}, w, []))), t)
    ensures Goes(s, With(s, t, task.(pc := Validating({}, w', []))), t)
    decreases k
  {
    hide Goes, Step, MayFetch, Uncut;
    if k > 0 {
      var rows, m :| Advances(s.db, w, rows, m) && Walks(s.db, m, w', k - 1);
      var task1 := task.(pc := Validating({}, w, []));
      ThenQuiet(s, t, task1, WalkProof(rows));
      assert Advance(s.db, task1, s.locks.holders[t], WalkProof(rows)) == task.(pc := Validating({}, m, []));
      ProofWalk(s, t, task, m, w', k - 1);
    }
  }

  lemma StepFirst(db: Db, w: Walk, rows: seq<Hash>, m: Walk, w': Walk, k: nat)
    requires Advances(db, w, rows, m) && Walks(db, m, w', k)
    ensures Walks(db, w, w', k + 1)
  {
    hide Advances;
  }

  /** Delegations without parents. */
  predicate Parentless(db: Db, ids: seq<Hash>) {
    forall x :: x in ids ==> Parents(LinksOf(db), x) == {}
  }

  lemma PopOne(db: Db, front: seq<Hash>, x: Hash, seen: seq<Hash>)
    requires Parents(LinksOf(db), x) == {} && x !in seen && |seen| < MAX_CHAIN_TRAVERSAL_NODES
    ensures Advances(db, Walk(front + [x], seen), [], Walk(front, seen + [x]))
  {
    var w := Walk(front + [x], seen);
    assert w.frontier[|w.frontier| - 1] == x && w.frontier[..|w.frontier| - 1] == front;
    assert Elems<Hash>([]) == {};
  }

  lemma LastOff(s: seq<Hash>)
    requires Distinct(s) && s != []
    ensures var rest, x := s[..|s| - 1], s[|s| - 1];
            s == rest + [x] && x !in rest && Distinct(rest) && Elems(s) == Elems(rest) + {x}
  {
    var rest, x := s[..|s| - 1], s[|s| - 1];
    assert s == rest + [x];
  }

  lemma ElemsSnoc(s: seq<Hash>, x: Hash)
    ensures Elems(s + [x]) == Elems(s) + {x}
  {
  }

  /** The ids on top of the stack that have no parents are visited one by one. */
  lemma {:induction false} PopAll(db: Db, front: seq<Hash>, tail: seq<Hash>, seen: seq<Hash>) returns (seen': seq<Hash>)
    requires Parentless(db, tail) && Distinct(tail) && |seen| + |tail| <= MAX_CHAIN_TRAVERSAL_NODES
    requires Elems(tail) !! Elems(seen)
    ensures Walks(db, Walk(front + tail, seen), Walk(front, seen'), |tail|)
    ensures Elems(seen') == Elems(seen) + Elems(tail) && |seen'| == |seen| + |tail|
    decreases |tail|
  {
    hide Walks, Advances, Elems, Distinct, Parents, LinksOf;
    if tail == [] {
      seen' := seen;
      NoSteps(db, front, tail, seen);
    } else {
      var n := |tail| - 1;
      var x, rest := tail[n], tail[..n];
      LastOff(tail);
      ElemsSnoc(seen, x);
      ElemsHas(seen, x);
      ElemsHas(tail, x);
      ElemsHas(rest, x);
      assert x in tail && Parentless(db, rest);
      PopOne(db, front + rest, x, seen);
      assert front + tail == (front + rest) + [x];
      seen' := PopAll(db, front, rest, seen + [x]);
      StepFirst(db, Walk(front + tail, seen), [], Walk(front + rest, seen + [x]), Walk(front, seen'), n);
    }
  }

  lemma {:induction false} NoSteps(db: Db, front: seq<Hash>, tail: seq<Hash>, seen: seq<Hash>)
    requires tail == []
    ensures Walks(db, Walk(front + tail, seen), Walk(front, seen), 0) && Elems(tail) == {}
  {
    assert front + tail == front;
  }

  lemma ElemsHas(s: seq<Hash>, x: Hash)
    ensures x in Elems(s) <==> x in s
  {
  }

  lemma {:induction false} PushNew(w: Walk, rows: seq<Hash>)
    requires Distinct(rows) && |w.visited| + |w.frontier| + |rows| <= MAX_CHAIN_TRAVERSAL_NODES
    requires forall x :: x in rows ==> x !in w.visited && x !in w.frontier
    ensures Push(w, rows) == Some(w.(frontier := w.frontier + rows))
    decreases |rows|
  {
    if rows == [] {
      assert w.frontier + rows == w.frontier;
    } else {
      assert rows[0] in rows && rows == [rows[0]] + rows[1..];
      PushNew(w.(frontier := w.frontier + [rows[0]]), rows[1..]);
      assert w.frontier + [rows[0]] + rows[1..] == w.frontier + rows;
    }
  }

  lemma FetchAll(db: Db, x: Hash, cs: seq<Hash>)
    requires Parents(LinksOf(db), x) == Elems(cs) && Distinct(cs) && x !in cs && |cs| < MAX_CHAIN_TRAVERSAL_NODES
    ensures Advances(db, Walk([x], []), cs, Walk(cs, [x]))
  {
    var w := Walk([x], []);
    assert w.frontier[..0] == [] && [] + [x] == [x] && [] + cs == cs;
    DistinctSize(cs);
    PushNew(Walk([], [x]), cs);
    hide Parents, LinksOf, Push;
  }

  /** The proof walk from a delegation whose parents have none. */
  lemma ProofFrom(db: Db, x: Hash, cs: seq<Hash>) returns (ids: seq<Hash>)
    requires Parents(LinksOf(db), x) == Elems(cs) && Parentless(db, cs)
    requires Distinct(cs) && x !in cs && |cs| < MAX_CHAIN_TRAVERSAL_NODES
    ensures Walks(db, Walk([x], []), Walk([], ids), |cs| + 1)
    ensures Elems(ids) == {x} + Elems(cs)
  {
    hide Walks, Advances, Elems, Distinct, Parents, LinksOf, Parentless;
    FetchAll(db, x, cs);
    ElemsHas(cs, x);
    assert Elems([x]) == {x} by { SingleElems(x); }
    assert [] + cs == cs;
    ids := PopAll(db, [], cs, [x]);
    StepFirst(db, Walk([x], []), cs, Walk(cs, [x]), Walk([], ids), |cs|);
  }

  lemma SingleElems(x: Hash)
    ensures Elems([x]) == {x}
  {
  }

  lemma {:induction false} SortedSize(s: seq<Hash>)
    ensures |SortHashes(s)| <= |s|
  {
    if s != [] {
      SortedSize(s[1..]);
      InsertSize(s[0], SortHashes(s[1..]));
    }
  }

  lemma {:induction false} InsertSize(h: Hash, s: seq<Hash>)
    requires Order.Ascending(s)
    ensures |InsertHash(h, s)| <= |s| + 1
  {
    if s != [] && h > s[0] {
      InsertSize(h, s[1..]);
    }
  }

  lemma {:induction false} SortedAlready(s: seq<Hash>)
    requires Order.Ascending(s)
    ensures SortHashes(s) == s
  {
    if s != [] {
      SortedAlready(s[1..]);
      assert s == [s[0]] + s[1..];
    }
  }

  // ---- Guards ----

  ghost predicate NobodyHolds(s: State, ids: set<Hash>) {
    forall u, x :: u in s.locks.holders && x in ids ==> Chain(x) !in s.locks.holders[u].holds
  }

  lemma Opened(s: State, t: TaskId, r: Request) returns (s': State)
    requires GuardInv(s) && t !in s.tasks && ValidRequest(r)
    ensures Goes(s, s', t) && GuardInv(s') && s'.db == s.db
    ensures s'.tasks[t] == BeginTask(s.db, r) && s'.locks.holders[t] == Holder([], {}, map[])
  {
    hide GuardInv, BeginTask, Leads;
    OneEvent(s, Begin(t, r));
    s' := Apply(s, Begin(t, r));
    LeadsGuarded(s, s');
  }

  /** The task asks for the guards of the ids it has visited. */
  lemma AskGuards(s: State, t: TaskId, ids: seq<Hash>) returns (s': State)
    requires GuardInv(s) && t in s.tasks && t in s.locks.holders && s.locks.holders[t] == Holder([], {}, map[])
    requires s.tasks[t].pc == Walking(Walk([], ids))
    ensures Goes(s, s', t) && GuardInv(s') && s'.db == s.db
    ensures s'.tasks[t] == s.tasks[t].(pc := ChainLocking, guarded := Elems(ids))
    ensures t in s'.locks.holders && s'.locks.holders[t].holds == {}
  {
    hide GuardInv, Leads, LookupStep, Ready, Advance, ChainKeys, Elems;
    LockActions(s.db, s.tasks[t], s.locks.holders[t]);
    LookupEffect(s.locks, t, ChainKeys(ids));
    OneEvent(s, Act(t, FindChainLocks));
    s' := Apply(s, Act(t, FindChainLocks));
    LeadsGuarded(s, s');
  }

  lemma LockActions(db: Db, task: Task, h: Holder)
    ensures task.pc.Walking? && task.pc.walk.frontier == [] ==>
              && Ready(db, task, h, FindChainLocks)
              && Advance(db, task, h, FindChainLocks) ==
                task.(pc := ChainLocking, guarded := Elems(task.pc.walk.visited))
    ensures task.pc.ChainLocking? && h.pending != [] ==>
              Ready(db, task, h, LockNext) && Advance(db, task, h, LockNext) == task
    ensures task.pc.Committing? && NoConflict(db, task) ==>
              Ready(db, task, h, Commit) && Advance(db, task, h, Commit) == task.(pc := Releasing(true))
    ensures forall key :: task.pc.Releasing? && key in h.holds ==>
              Ready(db, task, h, DropGuard(key)) && Advance(db, task, h, DropGuard(key)) == task
  {
  }

  lemma FreeKey(l: Locks, t: TaskId)
    requires LockTable.Inv(l) && t in l.holders && l.holders[t].pending != []
    requires forall u :: u in l.holders ==> l.holders[t].pending[0] !in l.holders[u].holds
    ensures CanLock(l, t)
  {
    var h := l.holders[t];
    assert HolderInv(l.registry, h) && h.pending[0] in h.pending;
    forall u, k | u in l.holders && k in l.holders[u].holds && k in l.holders[u].mutexes
      ensures l.holders[u].mutexes[k] != h.mutexes[h.pending[0]]
    {
      assert HolderInv(l.registry, l.holders[u]);
    }
  }

  lemma TakeOne(s: State, t: TaskId) returns (s': State)
    requires GuardInv(s) && t in s.tasks && s.tasks[t].pc.ChainLocking? && s.locks.holders[t].pending != []
    requires forall u :: u in s.locks.holders ==> s.locks.holders[t].pending[0] !in s.locks.holders[u].holds
    ensures Goes(s, s', t) && GuardInv(s') && s'.db == s.db && s'.tasks == s.tasks
    ensures s'.locks.holders[t].pending == s.locks.holders[t].pending[1..]
    ensures s'.locks.holders[t].holds == s.locks.holders[t].holds + {s.locks.holders[t].pending[0]}
  {
    hide LockTable.Inv;
    hide Leads, GuardsOwned, PcFits, CanLock, Ready, Advance;
    FreeKey(s.locks, t);
    LockActions(s.db, s.tasks[t], s.locks.holders[t]);
    OneEvent(s, Act(t, LockNext));
    s' := Apply(s, Act(t, LockNext));
    hide GuardInv;
    LeadsGuarded(s, s');
  }

  /** The task takes the guards it waits for, one after the other. */
  lemma {:induction false} TakeAll(s: State, t: TaskId) returns (s': State)
    requires GuardInv(s) && t in s.tasks && s.tasks[t].pc.ChainLocking? && Clear(s, t)
    ensures Goes(s, s', t) && GuardInv(s') && s'.db == s.db && s'.tasks == s.tasks
    ensures s'.locks.holders[t].pending == []
    decreases |s.locks.holders[t].pending|
  {
    GuardKeys(s);
    if s.locks.holders[t].pending == [] {
      Stays(s, t);
      s' := s;
    } else {
      PendingOnce(s, t);
      hide GuardInv;
      var m := TakeOne(s, t);
      ClearStays(s, m, t);
      hide Clear, Goes;
      s' := TakeAll(m, t);
      GoesOn(s, m, s', t);
    }
  }

  /** Nobody holds a guard the task waits for. */
  ghost predicate Clear(s: State, t: TaskId)
    requires t in s.locks.holders
  {
    forall u, k :: u in s.locks.holders && k in s.locks.holders[t].pending ==> k !in s.locks.holders[u].holds
  }

  lemma ClearStays(s: State, m: State, t: TaskId)
    requires t in s.locks.holders && Clear(s, t) && Goes(s, m, t)
    requires var h, h' := s.locks.holders[t], m.locks.holders[t];
             && h.pending != [] && h.pending[0] !in h.pending[1..]
             && h'.pending == h.pending[1..] && h'.holds == h.holds + {h.pending[0]}
    ensures Clear(m, t)
  {
    hide Leads;
    var pending := s.locks.holders[t].pending;
    forall u, k | u in m.locks.holders && k in m.locks.holders[t].pending ensures k !in m.locks.holders[u].holds {
      assert k in pending;
    }
  }

  lemma PendingOnce(s: State, t: TaskId)
    requires GuardInv(s) && t in s.locks.holders && s.locks.holders[t].pending != []
    ensures var pending := s.locks.holders[t].pending; pending[0] !in pending[1..]
  {
    var h := s.locks.holders[t];
    assert HolderInv(s.locks.registry, h);
    KeyOrder(h.pending[0], h.pending[0], h.pending[0]);
  }

  /** The guards of a task that waits for nothing are those of its chain. */
  lemma TakeGuards(s: State, t: TaskId) returns (s': State)
    requires GuardInv(s) && t in s.tasks && s.tasks[t].pc.ChainLocking? && NobodyHolds(s, s.tasks[t].guarded)
    ensures Goes(s, s', t) && GuardInv(s') && s'.db == s.db && s'.tasks == s.tasks
    ensures s'.locks.holders[t].pending == []
    ensures forall k :: k in s'.locks.holders[t].holds <==> k.Chain? && k.id in s.tasks[t].guarded
  {
    assert GuardsOwned(s.tasks[t], s.locks.holders[t]);
    s' := TakeAll(s, t);
    assert GuardsOwned(s'.tasks[t], s'.locks.holders[t]);
  }

  lemma DropOne(s: State, t: TaskId, key: Key) returns (s': State)
    requires GuardInv(s) && t in s.tasks && t in s.locks.holders && s.tasks[t].pc.Releasing?
    requires key in s.locks.holders[t].holds
    ensures Goes(s, s', t) && GuardInv(s') && s'.db == s.db && s'.tasks == s.tasks
    ensures s'.locks.holders[t].holds == s.locks.holders[t].holds - {key}
  {
    hide GuardInv, Leads, Ready, Advance;
    LockActions(s.db, s.tasks[t], s.locks.holders[t]);
    OneEvent(s, Act(t, DropGuard(key)));
    s' := Apply(s, Act(t, DropGuard(key)));
    LeadsGuarded(s, s');
  }

  lemma {:induction false} DropGuards(s: State, t: TaskId) returns (s': State)
    requires GuardInv(s) && t in s.tasks && t in s.locks.holders && s.tasks[t].pc.Releasing?
    ensures Goes(s, s', t) && GuardInv(s') && s'.db == s.db && s'.tasks == s.tasks
    ensures t in s'.locks.holders && s'.locks.holders[t].holds == {}
    decreases |s.locks.holders[t].holds|
  {
    hide GuardInv, Leads;
    if s.locks.holders[t].holds == {} {
      Stays(s, t);
      s' := s;
    } else {
      var key :| key in s.locks.holders[t].holds;
      var m := DropOne(s, t, key);
      s' := DropGuards(m, t);
      GoesOn(s, m, s', t);
    }
  }
}
