/** After a revocation commits, nothing that rests on the revoked delegation is accepted. */
module RevocationSafety {
  import opened Order
  import opened Graph
  import opened ChainWalk
  import opened LockTable
  import opened SpaceTables
  import opened SpaceProtocol
  import opened GuardSafety
  import opened RevocationSteps

  lemma EventKeepsRevocationInv(s: State, e: Event)
    requires GuardInv(s) && RevocationInv(s) && Enabled(s, e)
    ensures RevocationInv(Apply(s, e))
  {
    hide LockTable.Inv;
    hide GuardsOwned, PcFits, TaskInv, Ready, Advance, BeginTask, LinksStored, LocksAfter, CommitRows;
    match e
    case Begin(t, r) => NewTaskInv(s.db, r);
    case Act(t, a) =>
      ActionKeeps(s.db, s.tasks[t], s.locks.holders[t], a);
      if a.Commit? {
        CommitKeepsAll(s, t);
      }
  }

  lemma CommitKeepsAll(s: State, t: TaskId)
    requires GuardInv(s) && RevocationInv(s) && Enabled(s, Act(t, Commit))
    ensures var s' := Apply(s, Act(t, Commit)); RevocationInv(s') && Grows(s.db, s'.db)
  {
    hide LockTable.Inv;
    hide GuardsOwned, PcFits, LinksStored, CommitRows, Grows, Elems, Advance, SettledInv;
    var s', task := Apply(s, Act(t, Commit)), s.tasks[t];
    assert task.pc.Committing? && TaskInv(s.db, task);
    CommitGrows(s.db, task);
    forall u | u in s'.tasks ensures TaskInv(s'.db, s'.tasks[u]) {
      if u == t {
        ActionKeeps(s.db, task, s.locks.holders[t], Commit);
        CommittedTask(s.db, task, s.locks.holders[t]);
        CommitKeepsTask(s.db, s'.db, s'.tasks[t]);
      } else {
        if InTransaction(s.tasks[u].pc) {
          RevokedIsGuarded(s, t, u);
        }
        CommitKeepsTask(s.db, s'.db, s.tasks[u]);
      }
    }
  }

  lemma CommittedTask(db: Db, task: Task, h: Holder)
    requires Ready(db, task, h, Commit)
    ensures Advance(db, task, h, Commit).pc == Releasing(true)
  {
  }

  /** The target of a committing revocation is outside every other open transaction's guarded chain. */
  lemma RevokedIsGuarded(s: State, t: TaskId, u: TaskId)
    requires GuardInv(s) && RevocationInv(s) && t in s.tasks && u in s.tasks && t != u
    requires s.tasks[t].pc.Committing? && InTransaction(s.tasks[u].pc)
    ensures s.tasks[u].guarded !! if s.tasks[t].request.kind == Revoke then {s.tasks[t].request.target} else {}
  {
    TransactionHolds(s, t);
    TransactionHolds(s, u);
    hide GuardsOwned, PcFits, SettledInv, HolderInv, LinksStored;
    var task := s.tasks[t];
    assert TaskInv(s.db, task);
    if task.request.kind == Revoke {
      assert task.request.target in Roots(task.request);
      assert task.request.target in task.guarded;
      assert Chain(task.request.target) in s.locks.holders[t].holds;
    }
  }

  lemma {:induction false} RunKeepsRevocationInv(states: seq<State>, events: seq<Event>, i: nat)
    requires IsRun(states, events) && i < |states|
    ensures GuardInv(states[i]) && RevocationInv(states[i])
  {
    hide Enabled, Apply, GuardInv, RevocationInv;
    RunKeepsGuards(states, events, i);
    if i > 0 {
      RunKeepsRevocationInv(states, events, i - 1);
      EventKeepsRevocationInv(states[i - 1], events[i - 1]);
    } else {
      InitRevocationInv();
    }
  }

  lemma InitRevocationInv()
    ensures RevocationInv(INIT)
  {
  }

  // ----- what this gives

  /**
   Whatever commits with its roots stored beforehand and its walks uncut rests on parents that, at
   the very moment of the commit, are unrevoked together with all their ancestors.
   */
  lemma CommitsUnderLiveChain(states: seq<State>, events: seq<Event>, i: nat, t: TaskId)
    requires IsRun(states, events) && i < |events| && events[i] == Act(t, Commit)
    requires t in states[i].tasks && Settled(states[i].tasks[t])
    ensures ReliedOn(states[i].db, states[i].tasks[t].request).Some?
    ensures var db, r := states[i].db, states[i].tasks[t].request;
            Reach(LinksOf(db), ReliedOn(db, r).value) !! db.revoked
  {
    RunKeepsRevocationInv(states, events, i);
    var s, task := states[i], states[i].tasks[t];
    assert Enabled(s, events[i]);
    hide IsRun, Apply, GuardInv, LinksStored, Sound, Complete, Advance, LinksOf, ReliedOn, NoConflict, Fetched;
    assert task.pc.Committing? && TaskInv(s.db, task);
    ReachLeast(LinksOf(s.db), task.relied, task.checked);
  }

  // ----- the same on the request and the tables alone

  /** A stored delegation made to the actor. */
  predicate GrantTo(db: Db, p: Hash, actor: Did) {
    p in db.delegations && db.delegations[p].delegatee == actor
  }

  /** The delegation and all its ancestors are unrevoked. */
  ghost predicate Live(db: Db, p: Hash) {
    Reach(LinksOf(db), {p}) !! db.revoked
  }

  /**
   What a call may commit on. An invocation that needs authority names at least one delegation, and all
   it names are live grants to the invoker; a delegation names such a grant, and all grants to the
   delegator that it names are live; a revocation is of a stored delegation, and what it cites as
   proof is one live grant to the revoker.
   */
  ghost predicate RestsOnLiveGrants(db: Db, r: Request) {
    match r.kind
    case Invoke =>
      r.dependent ==> r.cites != [] && forall p :: p in r.cites ==> GrantTo(db, p, r.actor) && Live(db, p)
    case Delegate =>
      r.dependent ==>
        && (exists p :: p in r.cites && GrantTo(db, p, r.actor))
        && (forall p :: p in r.cites && GrantTo(db, p, r.actor) ==> Live(db, p))
    case Revoke =>
      && r.target in db.delegations && |r.cites| <= 1
      && (forall p :: p in r.cites ==> GrantTo(db, p, r.actor) && Live(db, p))
    case Status => false
  }

  lemma LivesUnder(db: Db, relied: set<Hash>, p: Hash)
    requires p in relied && Reach(LinksOf(db), relied) !! db.revoked
    ensures Live(db, p)
  {
    ReachClosed(LinksOf(db), relied);
    ReachLeast(LinksOf(db), {p}, Reach(LinksOf(db), relied));
  }

  /** An invocation relies on all it names, or on none of it. */
  lemma InvokeRelies(db: Db, r: Request, p: Hash)
    requires r.kind == Invoke && r.dependent && ReliedOn(db, r).Some? && p in r.cites
    ensures p in ReliedOn(db, r).value && GrantTo(db, p, r.actor)
  {
    var named := CitedGrants(db, r);
    ElemsSize(r.cites);
    assert named <= Elems(r.cites);
    SubsetSize(named, Elems(r.cites));
    assert p in Elems(r.cites);
  }

  /** When the cited delegations support a call, before anything is asked about revocation. */
  predicate Supported(db: Db, r: Request) {
    match r.kind
    case Invoke =>
      r.dependent ==> r.cites != [] && Distinct(r.cites) && forall p :: p in r.cites ==> GrantTo(db, p, r.actor)
    case Delegate => r.dependent ==> exists p :: p in r.cites && GrantTo(db, p, r.actor)
    case Revoke =>
      r.target in db.delegations && |r.cites| <= 1 && forall p :: p in r.cites ==> GrantTo(db, p, r.actor)
    case Status => false
  }

  /** Exactly the supported calls go on, and what they go on with is the grants they name. */
  lemma ReliedIff(db: Db, r: Request)
    ensures ReliedOn(db, r).Some? <==> Supported(db, r)
    ensures Supported(db, r) && (r.dependent || r.kind == Revoke) ==>
            ReliedOn(db, r).value == set p | p in r.cites && GrantTo(db, p, r.actor)
    ensures Supported(db, r) && !r.dependent && r.kind != Revoke ==> ReliedOn(db, r) == Some({})
  {
    var named := CitedGrants(db, r);
    assert named == set p | p in r.cites && GrantTo(db, p, r.actor);
    assert forall p :: p in r.cites && GrantTo(db, p, r.actor) ==> p in named;
    assert r.cites != [] ==> r.cites[0] in r.cites;
    if r.kind == Invoke && r.dependent {
      if ReliedOn(db, r).Some? {
        forall p | p in r.cites ensures GrantTo(db, p, r.actor) {
          InvokeRelies(db, r, p);
        }
        NamedAre(db, r);
        SizesDistinct(r.cites);
      } else if Supported(db, r) {
        NamedAre(db, r);
        DistinctSize(r.cites);
      }
    } else if r.kind == Delegate && r.dependent && named != {} {
      var p :| p in named;
      assert p in r.cites && GrantTo(db, p, r.actor);
    } else if r.kind == Revoke && |r.cites| == 1 {
      var p := r.cites[0];
      assert (forall x :: x in r.cites ==> x == p) && (p in named <==> GrantTo(db, p, r.actor));
      assert named == {} || p in named;
    }
  }

  lemma NamedAre(db: Db, r: Request)
    requires forall p :: p in r.cites ==> GrantTo(db, p, r.actor)
    ensures CitedGrants(db, r) == Elems(r.cites)
  {
  }

  lemma ReliedIsLive(db: Db, r: Request)
    requires ReliedOn(db, r).Some? && Reach(LinksOf(db), ReliedOn(db, r).value) !! db.revoked
    ensures RestsOnLiveGrants(db, r)
  {
    hide Live, Reach, LinksOf;
    var relied := ReliedOn(db, r).value;
    forall p | p in relied ensures Live(db, p) {
      LivesUnder(db, relied, p);
    }
    if r.kind == Invoke && r.dependent {
      forall p | p in r.cites ensures GrantTo(db, p, r.actor) && Live(db, p) {
        InvokeRelies(db, r, p);
      }
    } else if r.kind == Delegate && r.dependent {
      var p :| p in relied;
      assert p in r.cites && GrantTo(db, p, r.actor);
    } else if r.kind == Revoke && r.cites != [] {
      var p :| p in relied;
      assert forall x :: x in r.cites ==> x == r.cites[0] == p;
    }
  }

  /** In every run, what a settled call commits rests on live grants, whatever its kind. */
  lemma CommitsUnderLiveGrants(states: seq<State>, events: seq<Event>, i: nat, t: TaskId)
    requires IsRun(states, events) && i < |events| && events[i] == Act(t, Commit)
    requires t in states[i].tasks && Settled(states[i].tasks[t])
    ensures RestsOnLiveGrants(states[i].db, states[i].tasks[t].request)
  {
    hide RestsOnLiveGrants;
    CommitsUnderLiveChain(states, events, i, t);
    ReliedIsLive(states[i].db, states[i].tasks[t].request);
  }

  // ----- a condition a caller can check

  /** A call whose roots were stored and that had at most 33 ids above it has dropped no row. */
  predicate SmallUncut(task: Task) {
    task.stored && |task.scope| <= 33 ==> task.uncut
  }

  lemma NoSelfLink(db: Db, x: Hash)
    requires LinksStored(db)
    ensures x !in Parents(LinksOf(db), x)
  {
  }

  lemma WalkStaysUncut(db: Db, task: Task, roots: set<Hash>, w: Walk, rows: seq<Hash>)
    requires task.stored && |task.scope| <= 33 && ScopeSettled(db, task) && LinksStored(db)
    requires Sound(roots, task.scope, w) && MayFetch(db, w, rows)
    ensures Uncut(LinksOf(db), w, rows)
  {
    NoSelfLink(db, w.frontier[|w.frontier| - 1]);
    hide Sound, Reach, LinksOf, Fetched, LinksStored;
    ReachClosed(LinksOf(db), RootsOf(task.request));
    SmallIsUncut(LinksOf(db), roots, task.scope, w, rows);
  }

  lemma ActionKeepsSmall(db: Db, task: Task, h: Holder, a: Action)
    requires LinksStored(db) && TaskInv(db, task) && SmallUncut(task) && Ready(db, task, h, a)
    ensures SmallUncut(Advance(db, task, h, a))
    ensures var next := Advance(db, task, h, a);
            next.request == task.request && next.stored == task.stored && next.scope == task.scope
  {
    hide ReliedOn, LinksOf, Sound, Complete, Fetched, Reach, Step, SaveRows, ScopeSettled, NextSeq, GetKv, Uncut;
    hide LinksStored;
    if task.stored && |task.scope| <= 33 && a.WalkChain? {
      WalkStaysUncut(db, task, RootsOf(task.request), task.pc.walk, a.rows);
    } else if task.stored && |task.scope| <= 33 && a.WalkProof? {
      WalkStaysUncut(db, task, {}, task.pc.proof, a.rows);
    }
  }

  ghost predicate AllSmallUncut(s: State) {
    forall t :: t in s.tasks ==> SmallUncut(s.tasks[t])
  }

  lemma EventKeepsSmall(s: State, e: Event)
    requires RevocationInv(s) && AllSmallUncut(s) && Enabled(s, e)
    ensures AllSmallUncut(Apply(s, e))
  {
    hide Advance, Ready, TaskInv, LinksStored, LocksAfter, CommitRows, StoreAfter;
    if e.Act? {
      ActionKeepsSmall(s.db, s.tasks[e.t], s.locks.holders[e.t], e.action);
      hide SmallUncut;
    }
  }

  lemma {:induction false} RunKeepsSmall(states: seq<State>, events: seq<Event>, i: nat)
    requires IsRun(states, events) && i < |states|
    ensures AllSmallUncut(states[i])
  {
    hide Enabled, Apply, RevocationInv, GuardInv, SmallUncut;
    if i > 0 {
      RunKeepsSmall(states, events, i - 1);
      RunKeepsRevocationInv(states, events, i - 1);
      EventKeepsSmall(states[i - 1], events[i - 1]);
    }
  }

  /** A call keeps its request, and what was seen of its roots when it began. */
  lemma {:induction false} CallKeeps(states: seq<State>, events: seq<Event>, b: nat, j: nat, t: TaskId, r: Request)
    requires IsRun(states, events) && b < j < |states| && events[b] == Begin(t, r)
    ensures t in states[j].tasks && states[j].tasks[t].request == r
    ensures states[j].tasks[t].stored <==> RootsOf(r) <= states[b].db.delegations.Keys
    ensures states[j].tasks[t].scope == Reach(LinksOf(states[b].db), RootsOf(r))
    decreases j
  {
    hide Apply, Enabled, RevocationInv, GuardInv, Reach, LinksOf, RootsOf, AllSmallUncut;
    assert Enabled(states[j - 1], events[j - 1]) && states[j] == Apply(states[j - 1], events[j - 1]);
    if b + 1 < j {
      CallKeeps(states, events, b, j - 1, t, r);
      RunKeepsRevocationInv(states, events, j - 1);
      RunKeepsSmall(states, events, j - 1);
      StepKeepsCall(states[j - 1], events[j - 1], t);
    } else {
      CallBegins(states[b], t, r);
    }
  }

  lemma CallBegins(s: State, t: TaskId, r: Request)
    requires Enabled(s, Begin(t, r))
    ensures var s' := Apply(s, Begin(t, r));
            && t in s'.tasks && s'.tasks[t].request == r
            && (s'.tasks[t].stored <==> RootsOf(r) <= s.db.delegations.Keys)
            && s'.tasks[t].scope == Reach(LinksOf(s.db), RootsOf(r))
  {
    hide Reach, LinksOf;
  }

  lemma StepKeepsCall(s: State, e: Event, t: TaskId)
    requires RevocationInv(s) && AllSmallUncut(s) && Enabled(s, e) && t in s.tasks
    ensures var s' := Apply(s, e);
            && t in s'.tasks && s'.tasks[t].request == s.tasks[t].request
            && s'.tasks[t].stored == s.tasks[t].stored && s'.tasks[t].scope == s.tasks[t].scope
  {
    hide Advance, Ready, TaskInv, LinksStored, LocksAfter, CommitRows, StoreAfter;
    if e.Act? {
      ActionKeepsSmall(s.db, s.tasks[e.t], s.locks.holders[e.t], e.action);
    }
  }

  /**
   A condition on the tables when the call begins: everything it names is stored, with at most 33
   delegations above and including it. Whatever else runs meanwhile, the call commits on live grants only.
   */
  lemma SmallChainsCommitLive(states: seq<State>, events: seq<Event>, b: nat, i: nat, t: TaskId, r: Request)
    requires IsRun(states, events) && b < i < |events| && events[b] == Begin(t, r) && events[i] == Act(t, Commit)
    requires Elems(Roots(r)) <= states[b].db.delegations.Keys
    requires |Reach(LinksOf(states[b].db), Elems(Roots(r)))| <= 33
    ensures t in states[i].tasks && states[i].tasks[t].request == r && RestsOnLiveGrants(states[i].db, r)
  {
    hide RestsOnLiveGrants, Reach, LinksOf, Roots, Apply, Enabled;
    CallKeeps(states, events, b, i, t, r);
    RunKeepsSmall(states, events, i);
    CommitsUnderLiveGrants(states, events, i, t);
  }

  /** Every task of a run was begun in it. */
  lemma {:induction false} CallBegan(states: seq<State>, events: seq<Event>, j: nat, t: TaskId) returns (b: nat)
    requires IsRun(states, events) && j < |states| && t in states[j].tasks
    ensures b < j && events[b] == Begin(t, states[j].tasks[t].request)
  {
    assert Enabled(states[j - 1], events[j - 1]) && states[j] == Apply(states[j - 1], events[j - 1]);
    if t in states[j - 1].tasks {
      b := CallBegan(states, events, j - 1, t);
      RunKeepsRevocationInv(states, events, j - 1);
      RunKeepsSmall(states, events, j - 1);
      StepKeepsCall(states[j - 1], events[j - 1], t);
    } else {
      b := j - 1;
      NewTask(states[j - 1], events[j - 1], t);
    }
  }

  lemma NewTask(s: State, e: Event, t: TaskId)
    requires Enabled(s, e) && t !in s.tasks && t in Apply(s, e).tasks
    ensures e == Begin(t, Apply(s, e).tasks[t].request)
  {
    hide Advance, Ready, LocksAfter, CommitRows, StoreAfter;
  }

  lemma {:induction false} RevokedStays(states: seq<State>, events: seq<Event>, i: nat, j: nat)
    requires IsRun(states, events) && i <= j < |states|
    ensures states[i].db.revoked <= states[j].db.revoked
    decreases j
  {
    if i < j {
      RevokedStays(states, events, i, j - 1);
      assert Enabled(states[j - 1], events[j - 1]) && states[j] == Apply(states[j - 1], events[j - 1]);
      RevokedOnlyGrows(states[j - 1], events[j - 1]);
    }
  }

  lemma RevokedOnlyGrows(s: State, e: Event)
    requires Enabled(s, e)
    ensures s.db.revoked <= Apply(s, e).db.revoked
  {
    hide Advance, LocksAfter, Ready, BeginTask;
  }

  /** The delegation that a call cites has the revoked one neither as itself nor among its ancestors. */
  ghost predicate ClearOf(db: Db, p: Hash, revoked: Hash) {
    revoked !in Reach(LinksOf(db), {p})
  }

  /**
   Once a revocation has committed, no later commit rests on the revoked delegation or on anything
   below it: not an invocation or a revocation that cites it, nor a delegation that cites it as a grant.
   */
  lemma RevocationIsFinal(states: seq<State>, events: seq<Event>, i: nat, j: nat, revoker: TaskId, t: TaskId)
    requires IsRun(states, events) && i < j < |events|
    requires events[i] == Act(revoker, Commit) && events[j] == Act(t, Commit)
    requires revoker in states[i].tasks && states[i].tasks[revoker].request.kind == Revoke
    requires t in states[j].tasks && Settled(states[j].tasks[t])
    ensures var db, r, revoked := states[j].db, states[j].tasks[t].request, states[i].tasks[revoker].request.target;
            && (r.kind == Invoke && r.dependent ==>
                  r.cites != [] && forall p :: p in r.cites ==> ClearOf(db, p, revoked))
            && (r.kind == Delegate && r.dependent ==>
                  && (exists p :: p in r.cites && GrantTo(db, p, r.actor))
                  && (forall p :: p in r.cites && GrantTo(db, p, r.actor) ==> ClearOf(db, p, revoked)))
            && (r.kind == Revoke ==> forall p :: p in r.cites ==> ClearOf(db, p, revoked))
  {
    CommitsUnderLiveGrants(states, events, j, t);
    RevokedStays(states, events, i + 1, j);
    assert states[i + 1] == Apply(states[i], events[i]);
    assert states[i].tasks[revoker].request.target in states[j].db.revoked by {
      hide IsRun, Reach, Advance, LocksAfter, Ready, Enabled, RestsOnLiveGrants;
    }
    hide IsRun, Reach, LinksOf, Apply, Settled;
  }
}

/** What a task knows about its chain, and how its own steps and other tasks' commits keep it. */
module RevocationSteps {
  import opened Order
  import opened Graph
  import opened ChainWalk
  import opened LockTable
  import opened SpaceTables
  import opened SpaceProtocol
  import opened GuardSafety

  /** Link rows name other stored delegations only: the foreign key of `parent_delegation`. */
  ghost predicate LinksStored(db: Db) {
    forall d, p :: d in db.delegations && p in db.delegations[d].parents ==> p in db.delegations && p != d
  }

  /** Stored delegations and revocations are never changed or removed. */
  ghost predicate Grows(db: Db, db': Db) {
    && (forall d :: d in db.delegations ==> d in db'.delegations && db'.delegations[d] == db.delegations[d])
    && db.revoked <= db'.revoked
  }

  function RootsOf(r: Request): set<Hash> {
    Elems(Roots(r))
  }

  /** Its roots were stored when it began, and no query of its walks dropped a row. */
  predicate Settled(task: Task) {
    task.stored && task.uncut
  }

  /** What lay above the task's roots when it began is all that will ever lie above them. */
  ghost predicate ScopeSettled(db: Db, task: Task) {
    && RootsOf(task.request) <= task.scope <= db.delegations.Keys
    && task.scope == Reach(LinksOf(db), RootsOf(task.request))
  }

  predicate ChainKnown(pc: Pc) {
    pc.ChainLocking? || pc.ObjectLocking? || InTransaction(pc)
  }

  predicate BeforeValidation(pc: Pc) {
    pc.Walking? || pc.ChainLocking? || pc.ObjectLocking? || pc.Reading? || pc.Ordering? || pc.Authorizing?
  }

  /** Every id the validation met so far lies in scope, and what it has finished with is closed under parents. */
  ghost predicate ProofsCovered(db: Db, task: Task)
    requires task.pc.Validating?
  {
    var done := task.checked + Elems(task.pc.found);
    && Closed(LinksOf(db), done) && done <= task.scope
    && Sound({}, task.scope, task.pc.proof) && Complete(LinksOf(db), task.pc.proof, {})
    && task.pc.proofs <= task.relied
    && task.relied - task.pc.proofs <= done + Elems(task.pc.proof.visited + task.pc.proof.frontier)
  }

  ghost predicate SettledInv(db: Db, task: Task) {
    && ScopeSettled(db, task)
    && (task.pc.Walking? ==>
          Sound(RootsOf(task.request), task.scope, task.pc.walk) && Complete(LinksOf(db), task.pc.walk, {}))
    && (ChainKnown(task.pc) ==> task.guarded == task.scope)
    && (task.pc.Validating? || task.pc.Saving? || task.pc.Committing? ==>
          ReliedOn(db, task.request) == Some(task.relied))
    && (task.pc.Validating? ==> ProofsCovered(db, task))
    && (task.pc.Saving? || task.pc.Committing? ==>
          task.relied <= task.checked && Closed(LinksOf(db), task.checked) && task.checked <= task.scope)
  }

  ghost predicate TaskInv(db: Db, task: Task) {
    && (Settled(task) ==> SettledInv(db, task))
    && (task.pc.Walking? ==> RootsOf(task.request) <= Elems(task.pc.walk.visited + task.pc.walk.frontier))
    && (ChainKnown(task.pc) ==> RootsOf(task.request) <= task.guarded)
    && (InTransaction(task.pc) ==> task.checked * task.guarded !! db.revoked)
    && (task.pc.Committing? ==> Elems(task.request.cites) <= db.delegations.Keys)
    && (BeforeValidation(task.pc) ==> task.checked == {})
  }

  ghost predicate RevocationInv(s: State) {
    && LinksStored(s.db)
    && forall t :: t in s.tasks ==> TaskInv(s.db, s.tasks[t])
  }

  // ----- a task's own actions

  lemma NewTaskInv(db: Db, r: Request)
    requires LinksStored(db)
    ensures TaskInv(db, BeginTask(db, r))
  {
    var g, roots, task := LinksOf(db), RootsOf(r), BeginTask(db, r);
    StartSound(g, Roots(r));
    if Settled(task) {
      ReachClosed(g, roots);
      ReachLeast(g, roots, db.delegations.Keys);
    }
    if task.pc.Walking? {
      assert forall x :: x in Roots(r) ==> x in task.pc.walk.frontier;
    }
  }

  lemma StepKeepsRoots(roots: set<Hash>, w: Walk, rows: seq<Hash>)
    requires roots <= Elems(w.visited + w.frontier) && w.frontier != []
    ensures Step(w, rows).Some? ==> roots <= Elems(Step(w, rows).value.visited + Step(w, rows).value.frontier)
  {
    var n := |w.frontier| - 1;
    var w1 := Walk(w.frontier[..n], w.visited + [w.frontier[n]]);
    PushOnlyAdds(w1, rows);
    forall x | x in roots && Step(w, rows).Some?
      ensures x in Step(w, rows).value.visited + Step(w, rows).value.frontier
    {
      assert x in w.visited + w.frontier;
      assert w.frontier == w.frontier[..n] + [w.frontier[n]];
    }
  }

  lemma {:induction false} PushOnlyAdds(w: Walk, rows: seq<Hash>)
    ensures Push(w, rows).Some? ==> forall x :: x in w.frontier ==> x in Push(w, rows).value.frontier
    decreases |rows|
  {
    if rows != [] {
      if rows[0] in w.visited || rows[0] in w.frontier {
        PushOnlyAdds(w, rows[1..]);
      } else if |w.visited| + |w.frontier| < MAX_CHAIN_TRAVERSAL_NODES {
        PushOnlyAdds(w.(frontier := w.frontier + [rows[0]]), rows[1..]);
      }
    }
  }

  /** An uncut step stays in scope and leaves no parent behind. */
  lemma StepCovers(db: Db, roots: set<Hash>, scope: set<Hash>, w: Walk, rows: seq<Hash>)
    requires Sound(roots, scope, w) && Complete(LinksOf(db), w, {}) && Closed(LinksOf(db), scope)
    requires MayFetch(db, w, rows) && Uncut(LinksOf(db), w, rows)
    ensures Step(w, rows).Some? ==>
              Sound(roots, scope, Step(w, rows).value) && Complete(LinksOf(db), Step(w, rows).value, {})
  {
    LastIsNew(w);
    StepKeepsSound(LinksOf(db), roots, scope, w, rows);
    UncutKeepsComplete(LinksOf(db), roots, scope, w, rows);
    hide Step, LinksOf, Complete;
  }

  lemma WalkChainKeeps(db: Db, task: Task, h: Holder, rows: seq<Hash>)
    requires TaskInv(db, task) && Ready(db, task, h, WalkChain(rows))
    ensures TaskInv(db, Advance(db, task, h, WalkChain(rows)))
  {
    var w := task.pc.walk;
    StepKeepsRoots(RootsOf(task.request), w, rows);
    if Settled(task) && Uncut(LinksOf(db), w, rows) {
      ReachClosed(LinksOf(db), RootsOf(task.request));
      StepCovers(db, RootsOf(task.request), task.scope, w, rows);
    }
    hide Step, Reach, Sound, Complete, Fetched, Elems;
  }

  lemma FindChainLocksKeeps(db: Db, task: Task, h: Holder)
    requires TaskInv(db, task) && Ready(db, task, h, FindChainLocks)
    ensures TaskInv(db, Advance(db, task, h, FindChainLocks))
  {
    var w := task.pc.walk;
    assert w.visited + w.frontier == w.visited;
    if Settled(task) {
      FinishedExact(LinksOf(db), RootsOf(task.request), w, {});
    }
    hide Reach, Sound, Complete, Elems;
  }

  /** Actions that neither read the graph nor touch what was checked. */
  predicate Plain(a: Action) {
    a.LockNext? || a.FindObjectLocks? || a.OpenTransaction? || a.ReadObject? || a.ReadSeqs? || a.Fail?
    || a.DropGuard? || a.Finish? || a.Commit?
  }

  lemma PlainKeeps(db: Db, task: Task, h: Holder, a: Action)
    requires TaskInv(db, task) && Ready(db, task, h, a) && Plain(a)
    ensures TaskInv(db, Advance(db, task, h, a))
  {
    hide Reach, Sound, Complete, Elems, ReliedOn, NextSeq, GetKv, ProofsCovered, Closed, NoConflict, LinksOf;
  }

  lemma ReliedCited(db: Db, r: Request)
    ensures ReliedOn(db, r).Some? ==> ReliedOn(db, r).value <= RootsOf(r)
  {
  }

  lemma ReadParentsKeeps(db: Db, task: Task, h: Holder)
    requires TaskInv(db, task) && Ready(db, task, h, ReadParents)
    ensures TaskInv(db, Advance(db, task, h, ReadParents))
  {
    hide Reach, ReliedOn;
    assert IDLE.visited + IDLE.frontier == [];
  }

  lemma NextProofKeeps(db: Db, task: Task, h: Holder, id: Hash)
    requires TaskInv(db, task) && Ready(db, task, h, NextProof(id))
    ensures TaskInv(db, Advance(db, task, h, NextProof(id)))
  {
    if Settled(task) {
      ReliedCited(db, task.request);
      assert id in task.scope;
      assert Walk([id], []).visited + Walk([id], []).frontier == [id];
      assert IDLE.visited + IDLE.frontier == [];
    }
    hide Reach, ReliedOn;
  }

  lemma WalkProofKeeps(db: Db, task: Task, h: Holder, rows: seq<Hash>)
    requires TaskInv(db, task) && Ready(db, task, h, WalkProof(rows))
    ensures TaskInv(db, Advance(db, task, h, WalkProof(rows)))
  {
    hide Step, Reach, Sound, Complete, Fetched, Elems, ReliedOn, Closed, LinksOf;
    var w := task.pc.proof;
    if Settled(task) && Uncut(LinksOf(db), w, rows) && Step(w, rows).Some? {
      ReachClosed(LinksOf(db), RootsOf(task.request));
      StepKeepsRoots(Elems(w.visited + w.frontier), w, rows);
      StepCovers(db, {}, task.scope, w, rows);
    }
  }

  lemma CollectProofKeeps(db: Db, task: Task, h: Holder)
    requires TaskInv(db, task) && Ready(db, task, h, CollectProof)
    ensures TaskInv(db, Advance(db, task, h, CollectProof))
  {
    var w := task.pc.proof;
    assert w.visited + w.frontier == w.visited;
    assert IDLE.visited + IDLE.frontier == [];
    hide Reach, ReliedOn, LinksOf;
    if Settled(task) {
      var done, done' := task.checked + Elems(task.pc.found), task.checked + Elems(w.visited);
      assert Elems(task.pc.found) == {};
      assert ProofsCovered(db, Advance(db, task, h, CollectProof));
    }
  }

  lemma CheckRevokedKeeps(db: Db, task: Task, h: Holder)
    requires TaskInv(db, task) && Ready(db, task, h, CheckRevoked)
    ensures TaskInv(db, Advance(db, task, h, CheckRevoked))
  {
    hide Reach, ReliedOn, LinksOf, Sound, Complete;
    var found := task.pc.found;
    assert task.checked + Elems(found) == task.checked + {found[0]} + Elems(found[1..]);
  }

  lemma ValidatedKeeps(db: Db, task: Task, h: Holder)
    requires TaskInv(db, task) && Ready(db, task, h, Validated)
    ensures TaskInv(db, Advance(db, task, h, Validated))
  {
    hide Reach, ReliedOn, LinksOf;
    assert IDLE.visited + IDLE.frontier == [];
    assert Settled(task) ==> task.checked + Elems(task.pc.found) == task.checked;
  }

  lemma SaveKeeps(db: Db, task: Task, h: Holder, epochs: map<Space, Hash>)
    requires TaskInv(db, task) && Ready(db, task, h, Save(epochs))
    ensures TaskInv(db, Advance(db, task, h, Save(epochs)))
  {
    hide Reach, ReliedOn, LinksOf, Sound, Complete, StageOps, Closed;
  }

  lemma ActionKeeps(db: Db, task: Task, h: Holder, a: Action)
    requires TaskInv(db, task) && Ready(db, task, h, a)
    ensures TaskInv(db, Advance(db, task, h, a))
  {
    hide TaskInv, Ready, Advance;
    match a
    case WalkChain(rows) => WalkChainKeeps(db, task, h, rows);
    case FindChainLocks => FindChainLocksKeeps(db, task, h);
    case ReadParents => ReadParentsKeeps(db, task, h);
    case NextProof(id) => NextProofKeeps(db, task, h, id);
    case WalkProof(rows) => WalkProofKeeps(db, task, h, rows);
    case CollectProof => CollectProofKeeps(db, task, h);
    case CheckRevoked => CheckRevokedKeeps(db, task, h);
    case Validated => ValidatedKeeps(db, task, h);
    case Save(epochs) => SaveKeeps(db, task, h, epochs);
    case _ => PlainKeeps(db, task, h, a);
  }

  // ----- another task's commit

  lemma ScopeStays(db: Db, db': Db, task: Task)
    requires Grows(db, db') && ScopeSettled(db, task)
    ensures ScopeSettled(db', task)
    ensures forall x :: x in task.scope ==> Parents(LinksOf(db'), x) == Parents(LinksOf(db), x)
  {
    var g, g', roots := LinksOf(db), LinksOf(db'), RootsOf(task.request);
    assert forall x :: x in task.scope ==> x in db.delegations && Parents(g', x) == Parents(g, x);
    ReachClosed(g, roots);
    ReachLeast(g', roots, task.scope);
    ReachClosed(g', roots);
    ReachLeast(g, roots, Reach(g', roots));
  }

  lemma ReliedStays(db: Db, db': Db, task: Task)
    requires Grows(db, db') && ScopeSettled(db, task) && ReliedOn(db, task.request).Some?
    ensures ReliedOn(db', task.request) == ReliedOn(db, task.request)
  {
    var r := task.request;
    assert forall p :: p in r.cites ==> p in Roots(r) && p in RootsOf(r);
    assert forall p :: p in r.cites ==> p in db.delegations;
    assert CitedGrants(db', r) == CitedGrants(db, r);
    hide CitedGrants, Elems;
  }

  lemma CommitKeepsSettled(db: Db, db': Db, task: Task)
    requires Grows(db, db') && SettledInv(db, task)
    ensures SettledInv(db', task)
  {
    ScopeStays(db, db', task);
    if task.pc.Validating? || task.pc.Saving? || task.pc.Committing? {
      ReliedStays(db, db', task);
    }
    hide ScopeSettled, ReliedOn, LinksOf, Reach, Grows;
    var g, g' := LinksOf(db), LinksOf(db');
    if task.pc.Walking? {
      CompleteStays(g, g', task.scope, RootsOf(task.request), task.pc.walk);
    }
    if task.pc.Validating? {
      CompleteStays(g, g', task.scope, {}, task.pc.proof);
    }
  }

  lemma CompleteStays(g: Graph, g': Graph, scope: set<Hash>, roots: set<Hash>, w: Walk)
    requires forall x :: x in scope ==> Parents(g', x) == Parents(g, x)
    requires Sound(roots, scope, w) && Complete(g, w, {})
    ensures Complete(g', w, {})
  {
    hide Parents;
    assert forall x :: x in w.visited ==> x in w.visited + w.frontier && x in Elems(w.visited + w.frontier);
  }

  lemma CommitKeepsTask(db: Db, db': Db, task: Task)
    requires Grows(db, db') && TaskInv(db, task)
    requires InTransaction(task.pc) ==> task.guarded !! db'.revoked - db.revoked
    ensures TaskInv(db', task)
  {
    if Settled(task) {
      CommitKeepsSettled(db, db', task);
    }
    hide SettledInv, Elems;
  }

  lemma CommitGrows(db: Db, task: Task)
    ensures Grows(db, CommitRows(db, task))
    ensures CommitRows(db, task).revoked - db.revoked <=
            if task.request.kind == Revoke then {task.request.target} else {}
    ensures LinksStored(db) && Elems(task.request.cites) <= db.delegations.Keys ==> LinksStored(CommitRows(db, task))
  {
  }
}
