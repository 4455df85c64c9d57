/** What the guards keep in every run: exclusion between overlapping chains and objects, and progress. */
module GuardSafety {
  import opened Order
  import opened Graph
  import opened ChainWalk
  import opened LockTable
  import opened SpaceTables
  import opened SpaceProtocol

  predicate InTransaction(pc: Pc) {
    pc.Reading? || pc.Ordering? || pc.Authorizing? || pc.Validating? || pc.Saving? || pc.Committing?
  }

  predicate Finished(pc: Pc) {
    pc.Releasing? || pc.Done?
  }

  /** The sequence numbers have been read. */
  predicate Ordered(pc: Pc) {
    pc.Authorizing? || pc.Validating? || pc.Saving? || pc.Committing?
  }

  /** The guards a task owns or waits for are those its program point calls for. */
  ghost predicate GuardsOwned(task: Task, h: Holder) {
    && (task.pc.Walking? ==> h == Holder([], {}, map[]))
    && (task.pc.ChainLocking? ==> forall k :: (k in h.pending || k in h.holds) <==> (k.Chain? && k.id in task.guarded))
    && (task.pc.ObjectLocking? || InTransaction(task.pc) ==>
          && (forall id :: id in task.guarded ==> Chain(id) in h.holds)
          && (forall op :: op in task.request.ops ==> ObjectKey(op.key) in h.pending || ObjectKey(op.key) in h.holds))
    && (InTransaction(task.pc) || Finished(task.pc) ==> h.pending == [])
    && (task.pc.Done? ==> h.holds == {})
  }

  ghost predicate PcFits(task: Task) {
    && ValidRequest(task.request)
    && (task.pc.ObjectLocking? || task.pc.Reading? ==> task.request.kind == Invoke)
    && (task.pc.Reading? ==> forall o :: o in task.pc.todo ==> o in Objects(task.request))
    && (InTransaction(task.pc) ==> task.request.kind != Status)
    && (task.pc.Validating? && task.pc.found != [] ==> task.pc.proof == IDLE)
    && (Ordered(task.pc) && task.request.kind != Revoke ==> task.seqs.Keys == task.request.spaces)
  }

  ghost predicate GuardInv(s: State) {
    && LockTable.Inv(s.locks)
    && s.tasks.Keys == s.locks.holders.Keys
    && forall t :: t in s.tasks ==> GuardsOwned(s.tasks[t], s.locks.holders[t]) && PcFits(s.tasks[t])
  }

  /** An action changes one task and that task's guards only. */
  lemma GuardFrame(s: State, s': State, t: TaskId, task: Task)
    requires GuardInv(s) && LockTable.Inv(s'.locks) && s'.tasks == s.tasks[t := task]
    requires s'.locks.holders.Keys == s.locks.holders.Keys + {t}
    requires forall u :: u in s.locks.holders && u != t ==> s'.locks.holders[u] == s.locks.holders[u]
    requires GuardsOwned(task, s'.locks.holders[t]) && PcFits(task)
    ensures GuardInv(s')
  {
    hide LockTable.Inv;
    hide GuardsOwned, PcFits;
  }

  lemma ReadObjectStaysFit(db: Db, task: Task, h: Holder)
    requires PcFits(task) && Ready(db, task, h, ReadObject)
    ensures PcFits(Advance(db, task, h, ReadObject))
  {
    hide GetKv, Objects;
    assert forall o :: o in task.pc.todo[1..] ==> o in task.pc.todo;
  }

  lemma ReadSeqsStaysFit(db: Db, task: Task, h: Holder)
    requires PcFits(task) && Ready(db, task, h, ReadSeqs)
    ensures PcFits(Advance(db, task, h, ReadSeqs))
  {
    hide NextSeq, Objects;
  }

  predicate IsWalk(a: Action) {
    a.WalkChain? || a.WalkProof?
  }

  lemma WalksStayFit(db: Db, task: Task, h: Holder, a: Action)
    requires PcFits(task) && Ready(db, task, h, a) && IsWalk(a)
    ensures PcFits(Advance(db, task, h, a))
  {
    hide Step, SaveRows, NextSeq, GetKv, ReliedOn, Fetched, Objects, LinksOf, Uncut;
  }

  lemma PcStaysFit(db: Db, task: Task, h: Holder, a: Action)
    requires PcFits(task) && GuardsOwned(task, h) && Ready(db, task, h, a)
    ensures PcFits(Advance(db, task, h, a))
  {
    if a.ReadObject? || a.ReadSeqs? || IsWalk(a) {
      hide Ready, Advance, PcFits, GuardsOwned;
      match a
      case ReadObject => ReadObjectStaysFit(db, task, h);
      case ReadSeqs => ReadSeqsStaysFit(db, task, h);
      case _ => WalksStayFit(db, task, h, a);
    }
    hide Elems, NoConflict, MayFetch, ReliedOn, SaveRows;
  }

  predicate TouchesLocks(a: Action) {
    a.FindChainLocks? || a.LockNext? || a.FindObjectLocks? || a.Fail? || a.DropGuard?
  }

  lemma QuietActionKeepsGuards(db: Db, task: Task, h: Holder, a: Action)
    requires GuardsOwned(task, h) && Ready(db, task, h, a) && !TouchesLocks(a)
    ensures GuardsOwned(Advance(db, task, h, a), h)
  {
    hide Step, SaveRows, NextSeq, GetKv, ReliedOn, MayFetch;
  }

  lemma LookupEffect(l: Locks, t: TaskId, keys: seq<Key>)
    requires t in l.holders
    ensures var l' := LookupStep(l, t, keys);
            && l'.holders.Keys == l.holders.Keys
            && (forall u :: u in l.holders && u != t ==> l'.holders[u] == l.holders[u])
            && l'.holders[t].holds == l.holders[t].holds
            && forall k :: k in l'.holders[t].pending <==> k in l.holders[t].pending || k in keys
  {
    var l' := LookupStep(l, t, keys);
    assert l'.holders[t].pending == l.holders[t].pending + SortDedup(keys);
  }

  lemma ChainKeysAre(ids: seq<Hash>)
    ensures forall k: Key :: k in ChainKeys(ids) <==> k.Chain? && k.id in Elems(ids)
  {
    forall k: Key | k.Chain? && k.id in Elems(ids) ensures k in ChainKeys(ids) {
      var i :| 0 <= i < |ids| && ids[i] == k.id;
      assert ChainKeys(ids)[i] == k;
    }
  }

  lemma ObjectKeysAre(r: Request)
    ensures forall op :: op in r.ops ==> ObjectKey(op.key) in ObjectKeys(Objects(r))
    ensures forall k :: k in ObjectKeys(Objects(r)) ==> k.Object?
  {
    forall op | op in r.ops ensures ObjectKey(op.key) in ObjectKeys(Objects(r)) {
      var i :| 0 <= i < |r.ops| && r.ops[i] == op;
      assert ObjectKeys(Objects(r))[i] == ObjectKey(op.key);
    }
  }

  /** The locks after an action: still consistent, other tasks' guards untouched, this task's as needed. */
  ghost predicate LockOutcome(l: Locks, l': Locks, t: TaskId, task: Task) {
    && LockTable.Inv(l')
    && l'.holders.Keys == l.holders.Keys
    && (forall u :: u in l.holders && u != t ==> l'.holders[u] == l.holders[u])
    && t in l'.holders && GuardsOwned(task, l'.holders[t])
  }

  lemma FindChainLocksOutcome(l: Locks, t: TaskId, task: Task)
    requires LockTable.Inv(l) && t in l.holders && GuardsOwned(task, l.holders[t]) && task.pc.Walking?
    ensures var ids := task.pc.walk.visited;
            LockOutcome(l, LookupStep(l, t, ChainKeys(ids)), t, task.(pc := ChainLocking, guarded := Elems(ids)))
  {
    hide LockTable.Inv;
    hide LookupStep, ChainKeys, HolderInv, Elems;
    var keys := ChainKeys(task.pc.walk.visited);
    ChainKeysAre(task.pc.walk.visited);
    LookupKeepsInv(l, t, keys);
    LookupEffect(l, t, keys);
  }

  lemma FindObjectLocksOutcome(l: Locks, t: TaskId, task: Task)
    requires LockTable.Inv(l) && t in l.holders && GuardsOwned(task, l.holders[t])
    requires task.pc.ChainLocking? && l.holders[t].pending == []
    ensures LockOutcome(l, LookupStep(l, t, ObjectKeys(Objects(task.request))), t, task.(pc := ObjectLocking))
  {
    hide LockTable.Inv;
    hide LookupStep, ObjectKeys, Objects, HolderInv;
    var keys := ObjectKeys(Objects(task.request));
    ObjectKeysAre(task.request);
    LookupKeepsInv(l, t, keys);
    LookupEffect(l, t, keys);
  }

  lemma LockNextOutcome(l: Locks, t: TaskId, task: Task)
    requires LockTable.Inv(l) && CanLock(l, t) && GuardsOwned(task, l.holders[t])
    requires task.pc.ChainLocking? || task.pc.ObjectLocking?
    ensures LockOutcome(l, LockStep(l, t), t, task)
  {
    hide LockTable.Inv;
    hide InTransaction, Finished, ObjectKey, Free;
    LockKeepsInv(l, t);
    var pending := l.holders[t].pending;
    assert forall k :: k in pending <==> k == pending[0] || k in pending[1..];
  }

  lemma FailOutcome(l: Locks, t: TaskId, task: Task)
    requires LockTable.Inv(l) && t in l.holders
    ensures LockOutcome(l, ForgetStep(l, t), t, task.(pc := Releasing(false)))
  {
    hide LockTable.Inv;
    ForgetKeepsInv(l, t);
  }

  lemma DropGuardOutcome(l: Locks, t: TaskId, task: Task, key: Key)
    requires LockTable.Inv(l) && t in l.holders && GuardsOwned(task, l.holders[t]) && task.pc.Releasing?
    ensures LockOutcome(l, DropStep(l, t, key), t, task)
  {
    hide LockTable.Inv;
    DropKeepsInv(l, t, key);
  }

  lemma QuietOutcome(l: Locks, t: TaskId, task: Task)
    requires LockTable.Inv(l) && t in l.holders && GuardsOwned(task, l.holders[t])
    ensures LockOutcome(l, l, t, task)
  {
  }

  lemma ActionOutcome(s: State, t: TaskId, a: Action)
    requires GuardInv(s) && Enabled(s, Act(t, a))
    ensures LockOutcome(s.locks, LocksAfter(s.locks, t, s.tasks[t], a), t,
            Advance(s.db, s.tasks[t], s.locks.holders[t], a))
  {
    hide LockTable.Inv;
    hide GuardsOwned, PcFits, LockOutcome, SaveRows, Step, ReliedOn, NextSeq, GetKv, LookupStep, MayFetch, NoConflict,
      Elems, ForgetStep, DropStep, LockStep;
    var l, task := s.locks, s.tasks[t];
    assert GuardsOwned(task, l.holders[t]);
    match a
    case FindChainLocks => FindChainLocksOutcome(l, t, task);
    case FindObjectLocks =>
      if task.request.kind == Invoke {
        FindObjectLocksOutcome(l, t, task);
      } else {
        assert PcFits(task);
        ChainOnlyGuards(task, l.holders[t]);
        QuietOutcome(l, t, Advance(s.db, task, l.holders[t], a));
      }
    case LockNext => LockNextOutcome(l, t, task);
    case Fail => FailOutcome(l, t, task);
    case DropGuard(key) => DropGuardOutcome(l, t, task, key);
    case _ =>
      QuietActionKeepsGuards(s.db, task, l.holders[t], a);
      QuietOutcome(l, t, Advance(s.db, task, l.holders[t], a));
  }

  lemma ChainOnlyGuards(task: Task, h: Holder)
    requires GuardsOwned(task, h) && PcFits(task) && task.pc.ChainLocking? && h.pending == []
    requires task.request.kind != Invoke
    ensures GuardsOwned(task.(pc := Ordering), h) && GuardsOwned(task.(pc := Releasing(true)), h)
  {
  }

  lemma BeginKeepsGuards(s: State, t: TaskId, r: Request)
    requires GuardInv(s) && t !in s.tasks && ValidRequest(r)
    ensures GuardInv(Apply(s, Begin(t, r)))
  {
    hide LockTable.Inv;
    hide GuardsOwned, PcFits, BeginTask;
    EnterKeepsInv(s.locks, t);
    NewTaskGuards(s.db, r);
    GuardFrame(s, Apply(s, Begin(t, r)), t, BeginTask(s.db, r));
  }

  lemma NewTaskGuards(db: Db, r: Request)
    requires ValidRequest(r)
    ensures GuardsOwned(BeginTask(db, r), Holder([], {}, map[])) && PcFits(BeginTask(db, r))
  {
    hide Reach, Start, Elems, Roots;
  }

  lemma EventKeepsGuards(s: State, e: Event)
    requires GuardInv(s) && Enabled(s, e)
    ensures GuardInv(Apply(s, e))
  {
    hide LockTable.Inv;
    hide GuardsOwned, PcFits, Advance, LocksAfter, Ready;
    match e
    case Begin(t, r) => BeginKeepsGuards(s, t, r);
    case Act(t, a) =>
      var task, h := s.tasks[t], s.locks.holders[t];
      ActionOutcome(s, t, a);
      PcStaysFit(s.db, task, h, a);
      GuardFrame(s, Apply(s, e), t, Advance(s.db, task, h, a));
  }

  lemma {:induction false} RunKeepsGuards(states: seq<State>, events: seq<Event>, i: nat)
    requires IsRun(states, events) && i < |states|
    ensures GuardInv(states[i])
  {
    hide Enabled, Apply;
    if i > 0 {
      RunKeepsGuards(states, events, i - 1);
      EventKeepsGuards(states[i - 1], events[i - 1]);
    } else {
      InitGuards();
    }
  }

  lemma InitGuards()
    ensures GuardInv(INIT)
  {
  }

  /**
   Between guard acquisition and commit, no two tasks hold a common delegation of their
   chains, and no two hold a common object.
   */
  lemma OverlappingTasksExclude(states: seq<State>, events: seq<Event>, i: nat, t: TaskId, u: TaskId)
    requires IsRun(states, events) && i < |states|
    requires t in states[i].tasks && u in states[i].tasks && t != u
    requires InTransaction(states[i].tasks[t].pc) && InTransaction(states[i].tasks[u].pc)
    ensures states[i].tasks[t].guarded !! states[i].tasks[u].guarded
    ensures forall o :: o in Objects(states[i].tasks[t].request) ==> o !in Objects(states[i].tasks[u].request)
  {
    hide IsRun, Enabled, Apply;
    RunKeepsGuards(states, events, i);
    var s := states[i];
    TransactionHolds(s, t);
    TransactionHolds(s, u);
    hide GuardsOwned, PcFits, HolderInv;
    forall id | id in s.tasks[t].guarded ensures id !in s.tasks[u].guarded {
      assert Chain(id) in s.locks.holders[t].holds;
    }
    forall o | o in Objects(s.tasks[t].request) ensures o !in Objects(s.tasks[u].request) {
      assert ObjectKey(o) in s.locks.holders[t].holds;
    }
  }

  /** A task in its transaction owns the guards of its chain and of its objects. */
  lemma TransactionHolds(s: State, t: TaskId)
    requires GuardInv(s) && t in s.tasks && InTransaction(s.tasks[t].pc)
    ensures t in s.locks.holders
    ensures forall id :: id in s.tasks[t].guarded ==> Chain(id) in s.locks.holders[t].holds
    ensures forall o :: o in Objects(s.tasks[t].request) ==> ObjectKey(o) in s.locks.holders[t].holds
  {
    hide LockTable.Inv;
    var task, h := s.tasks[t], s.locks.holders[t];
    assert GuardsOwned(task, h);
    forall o | o in Objects(task.request) ensures ObjectKey(o) in h.holds {
      var i :| 0 <= i < |task.request.ops| && task.request.ops[i].key == o;
      assert task.request.ops[i] in task.request.ops;
    }
  }

  lemma {:induction false} Enumerate(s: set<Hash>) returns (r: seq<Hash>)
    ensures Distinct(r) && Elems(r) == s
    decreases s
  {
    if s == {} {
      r := [];
      assert Elems(r) == s;
    } else {
      var x :| x in s;
      var rest := Enumerate(s - {x});
      r := rest + [x];
      assert forall i :: 0 <= i < |rest| ==> rest[i] in Elems(rest);
      assert Elems(r) == Elems(rest) + {x};
    }
  }

  lemma SomeRows(db: Db, w: Walk) returns (rows: seq<Hash>)
    requires w.frontier != []
    ensures MayFetch(db, w, rows)
  {
    var x := w.frontier[|w.frontier| - 1];
    var all := Enumerate(Parents(LinksOf(db), x));
    DistinctSize(all);
    rows := all;
    if |w.visited| < MAX_CHAIN_TRAVERSAL_NODES && |all| > RowLimit(|w.visited| + 1) {
      rows := all[..RowLimit(|w.visited| + 1)];
    }
  }

  /** The action moves its task on; a failure only when a staged primary key was taken meanwhile. */
  ghost predicate Moves(s: State, t: TaskId, a: Action) {
    && Enabled(s, Act(t, a))
    && (a.Fail? ==> s.tasks[t].pc.Committing? && !NoConflict(s.db, s.tasks[t]))
  }

  lemma ValidatingMove(db: Db, task: Task, h: Holder) returns (a: Action)
    requires PcFits(task) && task.pc.Validating?
    ensures Ready(db, task, h, a) && !a.LockNext? && !a.Fail?
  {
    hide MayFetch;
    var pc := task.pc;
    if pc.proof.frontier != [] {
      var rows := SomeRows(db, pc.proof);
      a := WalkProof(rows);
    } else if pc.proof.visited != [] {
      a := CollectProof;
    } else if pc.found != [] {
      a := CheckRevoked;
    } else if pc.proofs != {} {
      var id :| id in pc.proofs;
      a := NextProof(id);
    } else {
      a := Validated;
    }
  }

  /** A task that waits for no mutex can act. */
  lemma UnblockedMove(db: Db, task: Task, h: Holder) returns (a: Action)
    requires PcFits(task) && !task.pc.Done? && h.pending == []
    ensures Ready(db, task, h, a) && !a.LockNext? && (a.Fail? ==> task.pc.Committing? && !NoConflict(db, task))
  {
    hide MayFetch, NoConflict;
    match task.pc
    case Walking(w) =>
      if w.frontier == [] {
        a := FindChainLocks;
      } else {
        var rows := SomeRows(db, w);
        a := WalkChain(rows);
      }
    case ChainLocking => a := FindObjectLocks;
    case ObjectLocking => a := OpenTransaction;
    case Reading(todo) => a := if todo != [] then ReadObject else ReadSeqs;
    case Ordering => a := ReadSeqs;
    case Authorizing => a := ReadParents;
    case Validating(_, _, _) => a := ValidatingMove(db, task, h);
    case Saving => a := Save(map sp | sp in task.seqs :: 0);
    case Committing => a := if NoConflict(db, task) then Commit else Fail;
    case Releasing(_) =>
      if h.holds == {} {
        a := Finish;
      } else {
        var k :| k in h.holds;
        a := DropGuard(k);
      }
  }

  /** No deadlock: in every state of every run, while some call is unfinished, some call can move. */
  lemma SomeTaskMoves(states: seq<State>, events: seq<Event>, i: nat, t: TaskId)
    requires IsRun(states, events) && i < |states|
    requires t in states[i].tasks && !states[i].tasks[t].pc.Done?
    ensures exists u, a :: Moves(states[i], u, a)
  {
    hide IsRun, Apply, Ready;
    hide LockTable.Inv;
    hide GuardsOwned, PcFits;
    RunKeepsGuards(states, events, i);
    var s := states[i];
    var u := Unblocked(s, t);
    if s.locks.holders[u].pending == [] {
      var a := UnblockedMove(s.db, s.tasks[u], s.locks.holders[u]);
      assert Moves(s, u, a);
    } else {
      LockMoves(s, u);
    }
  }

  lemma Unblocked(s: State, t: TaskId) returns (u: TaskId)
    requires GuardInv(s) && t in s.tasks && !s.tasks[t].pc.Done?
    ensures u in s.tasks && !s.tasks[u].pc.Done?
    ensures CanLock(s.locks, u) || s.locks.holders[u].pending == []
  {
    u := t;
    if s.locks.holders[t].pending != [] {
      NoDeadlock(s.locks, t);
      hide LockTable.Inv;
      u :| u in s.locks.holders
        && (CanLock(s.locks, u) || (s.locks.holders[u].pending == [] && s.locks.holders[u].holds != {}));
      assert GuardsOwned(s.tasks[u], s.locks.holders[u]);
    }
  }

  lemma LockMoves(s: State, u: TaskId)
    requires GuardInv(s) && CanLock(s.locks, u)
    ensures Moves(s, u, LockNext)
  {
    hide LockTable.Inv;
    assert GuardsOwned(s.tasks[u], s.locks.holders[u]);
  }
}
