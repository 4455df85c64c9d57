/**
 The operations of the space database as concurrent tasks. Each step is one database
 statement, one mutex operation or one commit, and every statement reads the latest
 committed rows.
 */
module SpaceProtocol {
  import opened Order
  import opened Graph
  import opened ChainWalk
  import opened LockTable
  import opened SpaceTables

  datatype KvOp = Put(key: ObjectId, entry: Entry) | Del(key: ObjectId)

  datatype Precondition = DoesNotExist | Matches(value: Hash)

  predicate PreconditionMatches(p: Precondition, current: Option<Entry>) {
    match (p, current)
    case (DoesNotExist, None) => true
    case (Matches(v), Some(e)) => e.value == v
    case _ => false
  }

  datatype Kind = Delegate | Revoke | Invoke | Status

  /**
   A call on the database. `cites` are the parents or proofs named by the signed event,
   `target` the delegation a revocation or a status query is about; `dependent` says that
   some capability is not the actor's own, so that authority must come from the cited parents.
   */
  datatype Request = Request(
    kind: Kind,
    id: Hash,
    actor: Did,
    audience: Did,
    cites: seq<Hash>,
    target: Hash,
    dependent: bool,
    spaces: set<Space>,
    ops: seq<KvOp>,
    preconditions: map<ObjectId, Precondition>)

  predicate ValidRequest(r: Request) {
    && (r.kind != Invoke ==> r.ops == [])
    && forall op :: op in r.ops ==> op.key.space in r.spaces
  }

  function Roots(r: Request): seq<Hash> {
    if r.kind == Revoke || r.kind == Status then [r.target] + r.cites else r.cites
  }

  function Objects(r: Request): seq<ObjectId> {
    seq(|r.ops|, i requires 0 <= i < |r.ops| => r.ops[i].key)
  }

  function ChainKeys(ids: seq<Hash>): seq<Key> {
    seq(|ids|, i requires 0 <= i < |ids| => Chain(ids[i]))
  }

  function ObjectKey(o: ObjectId): Key {
    Object(o.space, o.path)
  }

  function ObjectKeys(os: seq<ObjectId>): seq<Key> {
    seq(|os|, i requires 0 <= i < |os| => ObjectKey(os[i]))
  }

  /** The rows a transaction has written and not yet committed. */
  datatype Staged = Staged(isNew: bool, events: set<EventOrder>, writes: set<KvWrite>, deletes: set<KvDelete>)

  datatype Pc =
    | Walking(walk: Walk)              // collecting the ids to guard
    | ChainLocking                     // waiting for chain guards
    | ObjectLocking                    // waiting for object guards
    | Reading(todo: seq<ObjectId>)     // reading current values, checking preconditions
    | Ordering                         // about to read the sequence numbers
    | Authorizing                      // about to read the cited parents
    | Validating(proofs: set<Hash>, proof: Walk, found: seq<Hash>)
    | Saving
    | Committing
    | Releasing(ok: bool)
    | Done(ok: bool)

  /**
   A running call. `scope` is what lay above its roots when it began, `stored` that by then every
   root was stored, and `uncut` that no query of its walks has dropped a row so far.
   */
  datatype Task = Task(
    request: Request,
    pc: Pc,
    scope: set<Hash>,
    stored: bool,
    uncut: bool,
    guarded: set<Hash>,
    seqs: map<Space, int>,
    relied: set<Hash>,
    checked: set<Hash>,
    staged: Staged)

  /** `store` is the plain map that receives the operations of every committed invocation in commit order. */
  datatype State = State(locks: Locks, db: Db, tasks: map<TaskId, Task>, store: map<ObjectId, Entry>)

  const INIT := State(Locks(map[], 0, map[]), EMPTY_DB, map[], map[])

  datatype Action =
    | WalkChain(rows: seq<Hash>)
    | FindChainLocks
    | LockNext
    | FindObjectLocks
    | OpenTransaction
    | ReadObject
    | ReadSeqs
    | ReadParents
    | NextProof(id: Hash)
    | WalkProof(rows: seq<Hash>)
    | CollectProof
    | CheckRevoked
    | Validated
    | Save(epochs: map<Space, Hash>)
    | Commit
    | Fail                             // any error, or the request is cancelled
    | DropGuard(key: Key)
    | Finish

  datatype Event = Begin(t: TaskId, request: Request) | Act(t: TaskId, action: Action)

  /** The cited delegations that are stored and were made to the actor. */
  function CitedGrants(db: Db, r: Request): set<Hash> {
    set p | p in r.cites && p in db.delegations && db.delegations[p].delegatee == r.actor
  }

  /** The parents the request's authority rests on, or none when they do not support it. */
  function ReliedOn(db: Db, r: Request): Option<set<Hash>> {
    var named := CitedGrants(db, r);
    match r.kind
    case Delegate =>
      if !r.dependent then Some({}) else if named == {} then None else Some(named)
    case Invoke =>
      if !r.dependent then Some({})
      else if r.cites == [] || |named| != |r.cites| then None
      else Some(named)
    case Revoke =>
      if r.target !in db.delegations then None
      else if r.cites == [] then Some({})
      else if |r.cites| != 1 || named == {} then None
      else Some(named)
    case Status => None
  }

  function SpacesOf(db: Db, r: Request): set<Space> {
    if r.kind == Revoke then set e | e in db.events && e.event == r.target :: e.space else r.spaces
  }

  /** Turns the operations of one invocation into rows, in order; fails on a missing write or a repeated key. */
  ghost function StageOps(db: Db, id: Hash, ops: seq<KvOp>, seqs: map<Space, int>, epochs: map<Space, Hash>,
                          writes: set<KvWrite>, deletes: set<KvDelete>): Option<(set<KvWrite>, set<KvDelete>)>
    requires forall op :: op in ops ==> op.key.space in seqs && op.key.space in epochs
    decreases |ops|
  {
    if ops == [] then Some((writes, deletes)) else
      var o := ops[0].key;
      match ops[0]
      case Put(_, entry) =>
        if exists w :: w in writes && w.key == o then None
        else
          var row := KvWrite(o, id, Version(seqs[o.space], epochs[o.space], 0), entry);
          StageOps(db, id, ops[1..], seqs, epochs, writes + {row}, deletes)
      case Del(_) =>
        match Latest(db.writes + writes, o)
        case None => None
        case Some(w) =>
          if exists d :: d in deletes && d.key.space == o.space then None
          else StageOps(db, id, ops[1..], seqs, epochs, writes, deletes + {KvDelete(id, o, w.invocation)})
  }

  ghost function SaveRows(db: Db, task: Task, epochs: map<Space, Hash>): Option<Staged>
    requires task.seqs.Keys <= epochs.Keys
    requires forall op :: op in task.request.ops ==> op.key.space in task.seqs
  {
    var r := task.request;
    var events := set s | s in task.seqs :: EventOrder(s, r.id, Version(task.seqs[s], epochs[s], 0));
    if exists p :: p in r.cites && p !in db.delegations then None
    else if r.kind != Invoke || r.id in db.invocations then Some(Staged(r.id !in db.invocations, events, {}, {}))
    else
      match StageOps(db, r.id, r.ops, task.seqs, epochs, {}, {})
      case None => None
      case Some((writes, deletes)) => Some(Staged(true, events, writes, deletes))
  }

  function ApplyOps(store: map<ObjectId, Entry>, ops: seq<KvOp>): map<ObjectId, Entry>
    decreases |ops|
  {
    if ops == [] then store else
      match ops[0]
      case Put(o, e) => ApplyOps(store[o := e], ops[1..])
      case Del(o) => ApplyOps(store - {o}, ops[1..])
  }

  /** No primary key of the staged rows is taken by then. */
  ghost predicate NoConflict(db: Db, task: Task) {
    && (task.request.kind == Invoke ==> (task.staged.isNew <==> task.request.id !in db.invocations))
    && forall e, f :: e in task.staged.events && f in db.events && e.space == f.space ==>
      e.version.epoch != f.version.epoch
  }

  function CommitRows(db: Db, task: Task): Db {
    var r := task.request;
    var delegations :=
      if r.kind == Delegate && r.id !in db.delegations
      then db.delegations[r.id := Delegation(r.audience, set p | p in r.cites)]
      else db.delegations;
    Db(delegations,
       db.revoked + (if r.kind == Revoke then {r.target} else {}),
       db.invocations + (if r.kind == Invoke then {r.id} else {}),
       db.events + task.staged.events,
       db.writes + task.staged.writes,
       db.deletes + task.staged.deletes)
  }

  /** The walk may fetch these rows now. */
  predicate MayFetch(db: Db, w: Walk, rows: seq<Hash>) {
    && w.frontier != []
    && (|w.visited| < MAX_CHAIN_TRAVERSAL_NODES ==>
          Fetched(LinksOf(db), w.frontier[|w.frontier| - 1], RowLimit(|w.visited| + 1), rows))
  }

  const IDLE := Walk([], [])

  /** The task's program point allows the action. */
  ghost predicate Ready(db: Db, task: Task, h: Holder, a: Action) {
    match a
    case WalkChain(rows) => task.pc.Walking? && MayFetch(db, task.pc.walk, rows)
    case FindChainLocks => task.pc.Walking? && task.pc.walk.frontier == []
    case LockNext => (task.pc.ChainLocking? || task.pc.ObjectLocking?) && h.pending != []
    case FindObjectLocks => task.pc.ChainLocking? && h.pending == []
    case OpenTransaction => task.pc.ObjectLocking? && h.pending == []
    case ReadObject => task.pc.Reading? && task.pc.todo != []
    case ReadSeqs => task.pc.Ordering? || (task.pc.Reading? && task.pc.todo == [])
    case ReadParents => task.pc.Authorizing?
    case NextProof(id) => task.pc.Validating? && id in task.pc.proofs && task.pc.proof == IDLE && task.pc.found == []
    case WalkProof(rows) => task.pc.Validating? && MayFetch(db, task.pc.proof, rows)
    case CollectProof =>
      task.pc.Validating? && task.pc.proof.frontier == [] && task.pc.proof.visited != [] && task.pc.found == []
    case CheckRevoked => task.pc.Validating? && task.pc.proof == IDLE && task.pc.found != []
    case Validated => task.pc == Validating({}, IDLE, [])
    case Save(epochs) =>
      && task.pc.Saving? && task.seqs.Keys <= epochs.Keys
      && (forall op :: op in task.request.ops ==> op.key.space in task.seqs)
    case Commit => task.pc.Committing? && NoConflict(db, task)
    case Fail => !task.pc.Releasing? && !task.pc.Done?
    case DropGuard(key) => task.pc.Releasing? && key in h.holds
    case Finish => task.pc.Releasing? && h.holds == {}
  }

  ghost predicate Enabled(s: State, e: Event) {
    match e
    case Begin(t, r) => t !in s.tasks && ValidRequest(r)
    case Act(t, a) =>
      && t in s.tasks && t in s.locks.holders
      && Ready(s.db, s.tasks[t], s.locks.holders[t], a)
      && (a.LockNext? ==> CanLock(s.locks, t))
  }

  function ReadingNext(db: Db, task: Task, current: Option<Entry>): Pc
    requires task.pc.Reading? && task.pc.todo != []
  {
    var o := task.pc.todo[0];
    if o in task.request.preconditions && !PreconditionMatches(task.request.preconditions[o], current)
    then Releasing(false)
    else Reading(task.pc.todo[1..])
  }

  /** What the action makes of the task. */
  ghost function Advance(db: Db, task: Task, h: Holder, a: Action): Task
    requires Ready(db, task, h, a)
  {
    match a
    case WalkChain(rows) =>
      (match Step(task.pc.walk, rows)
       case None => task.(pc := Releasing(false))
       case Some(w) => task.(pc := Walking(w), uncut := task.uncut && Uncut(LinksOf(db), task.pc.walk, rows)))
    case FindChainLocks => task.(pc := ChainLocking, guarded := Elems(task.pc.walk.visited))
    case LockNext => task
    case FindObjectLocks =>
      task.(pc := match task.request.kind
                  case Invoke => ObjectLocking
                  case Status => Releasing(true)
                  case _ => Ordering)
    case OpenTransaction => task.(pc := Reading(Objects(task.request)))
    case ReadObject => task.(pc := ReadingNext(db, task, GetKv(db, task.pc.todo[0])))
    case ReadSeqs =>
      task.(pc := Authorizing, seqs := map sp | sp in SpacesOf(db, task.request) :: NextSeq(db.events, sp))
    case ReadParents =>
      (match ReliedOn(db, task.request)
       case None => task.(pc := Releasing(false))
       case Some(ps) => task.(pc := Validating(ps, IDLE, []), relied := ps))
    case NextProof(id) => task.(pc := Validating(task.pc.proofs - {id}, Walk([id], []), []))
    case WalkProof(rows) =>
      (match Step(task.pc.proof, rows)
       case None => task.(pc := Releasing(false))
       case Some(w) => task.(pc := task.pc.(proof := w), uncut := task.uncut &&
         Uncut(LinksOf(db), task.pc.proof, rows)))
    case CollectProof => task.(pc := task.pc.(proof := IDLE, found := task.pc.proof.visited))
    case CheckRevoked =>
      if task.pc.found[0] in db.revoked then task.(pc := Releasing(false))
      else task.(pc := task.pc.(found := task.pc.found[1..]), checked := task.checked + {task.pc.found[0]})
    case Validated => task.(pc := Saving)
    case Save(epochs) =>
      (match SaveRows(db, task, epochs)
       case None => task.(pc := Releasing(false))
       case Some(rows) => task.(pc := Committing, staged := rows))
    case Commit => task.(pc := Releasing(true))
    case Fail => task.(pc := Releasing(false))
    case DropGuard(_) => task
    case Finish => task.(pc := Done(task.pc.ok))
  }

  /** What the action makes of the locks. */
  function LocksAfter(l: Locks, t: TaskId, task: Task, a: Action): Locks
    requires t in l.holders
    requires a.LockNext? ==> l.holders[t].pending != []
    requires a.FindChainLocks? ==> task.pc.Walking?
  {
    match a
    case FindChainLocks => LookupStep(l, t, ChainKeys(task.pc.walk.visited))
    case FindObjectLocks => if task.request.kind == Invoke then LookupStep(l, t, ObjectKeys(Objects(task.request)))
      else l
    case LockNext => LockStep(l, t)
    case Fail => ForgetStep(l, t)
    case DropGuard(key) => DropStep(l, t, key)
    case _ => l
  }

  function StoreAfter(store: map<ObjectId, Entry>, task: Task): map<ObjectId, Entry> {
    if task.request.kind == Invoke && task.staged.isNew then ApplyOps(store, task.request.ops) else store
  }

  ghost function BeginTask(db: Db, r: Request): Task {
    var roots := Elems(Roots(r));
    var pc := match Start(Roots(r)) case None => Releasing(false) case Some(w) => Walking(w);
    Task(r, pc, Reach(LinksOf(db), roots), roots <= db.delegations.Keys, true, {}, map[], {}, {},
      Staged(false, {}, {}, {}))
  }

  ghost function Apply(s: State, e: Event): State
    requires Enabled(s, e)
  {
    match e
    case Begin(t, r) => s.(locks := Enter(s.locks, t), tasks := s.tasks[t := BeginTask(s.db, r)])
    case Act(t, a) =>
      var task := s.tasks[t];
      State(LocksAfter(s.locks, t, task, a),
            if a.Commit? then CommitRows(s.db, task) else s.db,
            s.tasks[t := Advance(s.db, task, s.locks.holders[t], a)],
            if a.Commit? then StoreAfter(s.store, task) else s.store)
  }

  /** The states a run of events passes through, starting from an empty database. */
  ghost predicate IsRun(states: seq<State>, events: seq<Event>) {
    && |states| == |events| + 1 && states[0] == INIT
    && forall i :: 0 <= i < |events| ==> Enabled(states[i], events[i]) && states[i + 1] == Apply(states[i], events[i])
  }
}
