/** The log of versioned writes and tombstones behaves as one plain map, whatever the interleaving. */
module KvRefinement {
  import opened Order
  import opened Graph
  import opened ChainWalk
  import opened LockTable
  import opened SpaceTables
  import opened SpaceProtocol
  import opened GuardSafety
  import opened KvSteps

  lemma EventKeepsKv(s: State, e: Event)
    requires GuardInv(s) && KvInv(s) && Enabled(s, e)
    ensures KvInv(Apply(s, e))
  {
    hide LockTable.Inv;
    hide GuardsOwned, PcFits, LogInv, Refines, KvTaskInv, Ready, Advance, BeginTask, LocksAfter;
    match e
    case Begin(t, r) => NewTaskKv(s.db, r);
    case Act(t, a) =>
      if a.Commit? {
        CommitKeepsKv(s, t);
      } else {
        ActionKeeps(s.db, s.tasks[t], s.locks.holders[t], a);
      }
  }

  lemma InitKv()
    ensures KvInv(INIT)
  {
    forall o ensures GetKv(EMPTY_DB, o) == None {
      LatestExists({}, o);
    }
  }

  lemma {:induction false} RunKeepsKv(states: seq<State>, events: seq<Event>, i: nat)
    requires IsRun(states, events) && i < |states|
    ensures GuardInv(states[i]) && KvInv(states[i])
  {
    hide Enabled, Apply, GuardInv, KvInv;
    RunKeepsGuards(states, events, i);
    if i > 0 {
      RunKeepsKv(states, events, i - 1);
      EventKeepsKv(states[i - 1], events[i - 1]);
    } else {
      InitKv();
    }
  }

  // ----- what this gives

  /** In every state of every run, a point read returns what the plain map holds. */
  lemma ReadsLastCommittedWrite(states: seq<State>, events: seq<Event>, i: nat, o: ObjectId)
    requires IsRun(states, events) && i < |states|
    ensures GetKv(states[i].db, o) == if o in states[i].store then Some(states[i].store[o]) else None
  {
    hide IsRun, GetKv, GuardInv, LogInv, KvTaskInv;
    RunKeepsKv(states, events, i);
  }

  /** A conditional write is atomic: its preconditions hold of the map it is applied to. */
  lemma ConditionalCommitIsAtomic(states: seq<State>, events: seq<Event>, i: nat, t: TaskId, o: ObjectId)
    requires IsRun(states, events) && i < |events| && events[i] == Act(t, Commit)
    requires t in states[i].tasks && states[i].tasks[t].request.kind == Invoke
    requires o in Objects(states[i].tasks[t].request) && o in states[i].tasks[t].request.preconditions
    ensures match states[i].tasks[t].request.preconditions[o]
            case DoesNotExist => o !in states[i].store
            case Matches(v) => o in states[i].store && states[i].store[o].value == v
  {
    RunKeepsKv(states, events, i);
    assert Enabled(states[i], events[i]);
    hide IsRun, GetKv, GuardInv, LogInv, SeqsAhead, StagedInv, Objects, NoConflict, Apply;
    assert KvTaskInv(states[i].db, states[i].tasks[t]);
  }

  /** A committed write of an object has a greater sequence number than every earlier write of that object. */
  lemma LaterWritesHaveGreaterSeq(states: seq<State>, events: seq<Event>, i: nat, t: TaskId, v: KvWrite, w: KvWrite)
    requires IsRun(states, events) && i < |events| && events[i] == Act(t, Commit)
    requires v in states[i].db.writes && w in states[i + 1].db.writes && w !in states[i].db.writes && v.key == w.key
    ensures v.version.seqNo < w.version.seqNo
  {
    RunKeepsKv(states, events, i);
    var s := states[i];
    assert Enabled(s, events[i]) && states[i + 1] == Apply(s, events[i]);
    hide IsRun, GetKv, GuardInv, Refines, Advance, LocksAfter, Apply, PreconditionsHold;
    var task := s.tasks[t];
    assert KvTaskInv(s.db, task) && task.pc.Committing?;
    assert w in task.staged.writes by { CommittedRows(s, t); }
    var epochs :| StagedFrom(s.db, task, epochs);
    NewWriteIsAhead(s.db, task, epochs, w);
  }

  lemma CommittedRows(s: State, t: TaskId)
    requires Enabled(s, Act(t, Commit))
    ensures Apply(s, Act(t, Commit)).db.writes == s.db.writes + s.tasks[t].staged.writes
  {
    hide Advance, LocksAfter, Ready;
  }

  lemma NewWriteIsAhead(db: Db, task: Task, epochs: map<Space, Hash>, w: KvWrite)
    requires StagedFrom(db, task, epochs) && SeqsAhead(db, task) && w in task.staged.writes
    ensures forall v :: v in db.writes && v.key == w.key ==> v.version.seqNo < w.version.seqNo
  {
    var r := task.request;
    StagedRow(db, r.id, r.ops, task.seqs, epochs, {}, {}, w);
  }

  lemma {:induction false} StagedRow(db: Db, id: Hash, ops: seq<KvOp>, seqs: map<Space, int>, epochs: map<Space, Hash>,
                                     writes: set<KvWrite>, deletes: set<KvDelete>, w: KvWrite)
    requires forall op :: op in ops ==> op.key.space in seqs && op.key.space in epochs
    requires StageOps(db, id, ops, seqs, epochs, writes, deletes).Some?
    requires w in StageOps(db, id, ops, seqs, epochs, writes, deletes).value.0 && w !in writes
    ensures exists op :: op in ops && op.key == w.key && w.version.seqNo == seqs[op.key.space]
    decreases |ops|
  {
    if ops != [] {
      var k := ops[0].key;
      assert ops[0] in ops;
      match ops[0]
      case Put(_, entry) =>
        var row := KvWrite(k, id, Version(seqs[k.space], epochs[k.space], 0), entry);
        if w != row {
          StagedRow(db, id, ops[1..], seqs, epochs, writes + {row}, deletes, w);
        }
      case Del(_) =>
        var row := KvDelete(id, k, Latest(db.writes + writes, k).value.invocation);
        StagedRow(db, id, ops[1..], seqs, epochs, writes, deletes + {row}, w);
    }
  }
}

/** The invariant between log and map, and how staging, commits and single steps keep it. */
module KvSteps {
  import opened Order
  import opened Graph
  import opened ChainWalk
  import opened LockTable
  import opened SpaceTables
  import opened SpaceProtocol
  import opened GuardSafety

  function MapGet(store: map<ObjectId, Entry>, o: ObjectId): Option<Entry> {
    if o in store then Some(store[o]) else None
  }

  ghost predicate Refines(db: Db, store: map<ObjectId, Entry>) {
    forall o :: GetKv(db, o) == MapGet(store, o)
  }

  /** Sequence numbers order the writes of an object strictly, and rows name invocations that happened. */
  ghost predicate LogInv(db: Db) {
    && (forall w :: w in db.writes ==> w.version.seqNo < NextSeq(db.events, w.key.space))
    && (forall v, w :: v in db.writes && w in db.writes && v.key == w.key && v.version.seqNo == w.version.seqNo ==>
      v == w)
    && (forall w :: w in db.writes ==> w.invocation in db.invocations)
    && (forall d :: d in db.deletes ==> d.deleted in db.invocations)
  }

  /** Every write of the objects the task mutates is older than the sequence numbers it has read. */
  ghost predicate SeqsAhead(db: Db, task: Task) {
    forall op, w :: op in task.request.ops && w in db.writes && w.key == op.key ==>
      w.key.space in task.seqs && w.version.seqNo < task.seqs[w.key.space]
  }

  ghost predicate StagedFrom(db: Db, task: Task, epochs: map<Space, Hash>) {
    && (forall op :: op in task.request.ops ==> op.key.space in task.seqs && op.key.space in epochs)
    && StageOps(db, task.request.id, task.request.ops, task.seqs, epochs, {}, {})
         == Some((task.staged.writes, task.staged.deletes))
    && task.staged.events == set s | s in task.seqs && s in epochs ::
      EventOrder(s, task.request.id, Version(task.seqs[s], epochs[s], 0))
  }

  /** The staged rows are what staging would produce from the rows committed by now. */
  ghost predicate StagedInv(db: Db, task: Task) {
    if task.request.kind == Invoke && task.staged.isNew then exists epochs :: StagedFrom(db, task, epochs)
    else task.staged.writes == {} && task.staged.deletes == {}
  }

  predicate ReadAlready(pc: Pc, o: ObjectId) {
    InTransaction(pc) && (pc.Reading? ==> o !in pc.todo)
  }

  ghost predicate PreconditionsHold(db: Db, task: Task) {
    forall o :: o in Objects(task.request) && o in task.request.preconditions && ReadAlready(task.pc, o) ==>
      PreconditionMatches(task.request.preconditions[o], GetKv(db, o))
  }

  ghost predicate KvTaskInv(db: Db, task: Task) {
    && (Ordered(task.pc) ==> SeqsAhead(db, task))
    && (task.pc.Committing? ==> StagedInv(db, task))
    && (task.request.kind == Invoke ==> PreconditionsHold(db, task))
  }

  ghost predicate KvInv(s: State) {
    && LogInv(s.db) && Refines(s.db, s.store)
    && forall t :: t in s.tasks ==> KvTaskInv(s.db, s.tasks[t])
  }

  // ----- staging one invocation's operations

  /** The database with rows that are staged but not committed. */
  function With(db: Db, writes: set<KvWrite>, deletes: set<KvDelete>): Db {
    db.(writes := db.writes + writes, deletes := db.deletes + deletes)
  }

  /** The rows staged so far carry the invocation's id and its sequence numbers, one write an object. */
  ghost predicate RowsInv(db: Db, id: Hash, seqs: map<Space, int>, writes: set<KvWrite>, deletes: set<KvDelete>) {
    && (forall w :: w in writes ==> w.invocation == id && w.key.space in seqs && w.version.seqNo == seqs[w.key.space])
    && (forall v, w :: v in writes && w in writes && v.key == w.key ==> v == w)
    && (forall v, w :: v in db.writes && w in writes && v.key == w.key ==> v.version.seqNo < w.version.seqNo)
    && (forall d :: d in deletes && d.deleted == id ==> exists w :: w in writes && w.key == d.key)
    && (forall d :: d in deletes ==> d.deleted == id || d.deleted in db.invocations)
  }

  lemma PutRefines(db: Db, id: Hash, seqs: map<Space, int>, writes: set<KvWrite>, deletes: set<KvDelete>, row: KvWrite)
    requires LogInv(db) && RowsInv(db, id, seqs, writes, deletes) && id !in db.invocations
    requires row.invocation == id && row.key.space in seqs && row.version.seqNo == seqs[row.key.space]
    requires forall v :: v in db.writes && v.key == row.key ==> v.version.seqNo < row.version.seqNo
    requires forall w :: w in writes ==> w.key != row.key
    ensures RowsInv(db, id, seqs, writes + {row}, deletes)
    ensures forall o :: GetKv(With(db, writes + {row}, deletes), o)
              == if o == row.key then Some(row.entry) else GetKv(With(db, writes, deletes), o)
  {
    var before, after := With(db, writes, deletes), With(db, writes + {row}, deletes);
    assert after.writes == before.writes + {row};
    NewestIsLatest(after.writes, row.key, row);
    assert !Tombstoned(after.deletes, row);
    forall o | o != row.key ensures GetKv(after, o) == GetKv(before, o) {
      LatestFrame(before.writes, {row}, o);
    }
  }

  lemma DelRefines(db: Db, id: Hash, seqs: map<Space, int>, writes: set<KvWrite>, deletes: set<KvDelete>, row: KvDelete)
    requires LogInv(db) && RowsInv(db, id, seqs, writes, deletes) && id !in db.invocations
    requires Latest(db.writes + writes, row.key).Some?
    requires row.deleted == Latest(db.writes + writes, row.key).value.invocation
    ensures RowsInv(db, id, seqs, writes, deletes + {row})
    ensures forall o :: GetKv(With(db, writes, deletes + {row}), o)
              == if o == row.key then None else GetKv(With(db, writes, deletes), o)
  {
    var before, after := With(db, writes, deletes), With(db, writes, deletes + {row});
    assert after.deletes == before.deletes + {row};
    LatestExists(after.writes, row.key);
    var top := Latest(after.writes, row.key).value;
    assert Tombstoned(after.deletes, top);
    forall o | o != row.key ensures GetKv(after, o) == GetKv(before, o) {
      LatestExists(after.writes, o);
      if Latest(after.writes, o).Some? {
        var w := Latest(after.writes, o).value;
        assert Tombstoned(after.deletes, w) == Tombstoned(before.deletes, w);
      }
    }
  }

  /** Staging the operations has the effect of applying them to the map, in order. */
  lemma {:induction false} StagingRefines(db: Db, id: Hash, ops: seq<KvOp>,
                                          seqs: map<Space, int>, epochs: map<Space, Hash>,
                                          writes: set<KvWrite>, deletes: set<KvDelete>, store: map<ObjectId, Entry>)
    requires forall op :: op in ops ==> op.key.space in seqs && op.key.space in epochs
    requires LogInv(db) && RowsInv(db, id, seqs, writes, deletes) && id !in db.invocations
    requires forall op, w :: op in ops && w in db.writes && w.key == op.key ==> w.version.seqNo < seqs[w.key.space]
    requires Refines(With(db, writes, deletes), store)
    requires StageOps(db, id, ops, seqs, epochs, writes, deletes).Some?
    ensures var rows := StageOps(db, id, ops, seqs, epochs, writes, deletes).value;
            && RowsInv(db, id, seqs, rows.0, rows.1)
            && Refines(With(db, rows.0, rows.1), ApplyOps(store, ops))
    decreases |ops|
  {
    if ops != [] {
      var o := ops[0].key;
      assert ops[0] in ops;
      assert forall op :: op in ops[1..] ==> op in ops;
      match ops[0]
      case Put(_, entry) =>
        var row := KvWrite(o, id, Version(seqs[o.space], epochs[o.space], 0), entry);
        PutRefines(db, id, seqs, writes, deletes, row);
        hide LogInv, GetKv, RowsInv, Latest;
        StagingRefines(db, id, ops[1..], seqs, epochs, writes + {row}, deletes, store[o := entry]);
      case Del(_) =>
        var row := KvDelete(id, o, Latest(db.writes + writes, o).value.invocation);
        DelRefines(db, id, seqs, writes, deletes, row);
        hide LogInv, GetKv, RowsInv, Latest;
        StagingRefines(db, id, ops[1..], seqs, epochs, writes, deletes + {row}, store - {o});
    }
  }

  // ----- a commit

  lemma {:induction false} StagedKeys(db: Db, id: Hash, ops: seq<KvOp>, seqs: map<Space, int>, epochs: map<Space, Hash>,
                                      writes: set<KvWrite>, deletes: set<KvDelete>, o: ObjectId)
    requires forall op :: op in ops ==> op.key.space in seqs && op.key.space in epochs
    requires forall op :: op in ops ==> op.key != o
    requires (forall w :: w in writes ==> w.key != o) && (forall d :: d in deletes ==> d.key != o)
    requires StageOps(db, id, ops, seqs, epochs, writes, deletes).Some?
    ensures var rows := StageOps(db, id, ops, seqs, epochs, writes, deletes).value;
            (forall w :: w in rows.0 ==> w.key != o) && (forall d :: d in rows.1 ==> d.key != o)
    decreases |ops|
  {
    if ops != [] {
      var k := ops[0].key;
      assert ops[0] in ops;
      match ops[0]
      case Put(_, entry) =>
        var row := KvWrite(k, id, Version(seqs[k.space], epochs[k.space], 0), entry);
        StagedKeys(db, id, ops[1..], seqs, epochs, writes + {row}, deletes, o);
      case Del(_) =>
        var row := KvDelete(id, k, Latest(db.writes + writes, k).value.invocation);
        StagedKeys(db, id, ops[1..], seqs, epochs, writes, deletes + {row}, o);
    }
  }

  /** Staging reads the writes of the mutated objects only. */
  lemma {:induction false} StageFrame(db: Db, db': Db, id: Hash, ops: seq<KvOp>,
                                      seqs: map<Space, int>, epochs: map<Space, Hash>,
                                      writes: set<KvWrite>, deletes: set<KvDelete>)
    requires forall op :: op in ops ==> op.key.space in seqs && op.key.space in epochs
    requires forall op :: op in ops ==> WritesOf(db'.writes, op.key) == WritesOf(db.writes, op.key)
    ensures StageOps(db', id, ops, seqs, epochs, writes, deletes) ==
            StageOps(db, id, ops, seqs, epochs, writes, deletes)
    decreases |ops|
  {
    if ops != [] {
      var k := ops[0].key;
      assert ops[0] in ops;
      assert WritesOf(db'.writes + writes, k) == WritesOf(db'.writes, k) + WritesOf(writes, k);
      assert WritesOf(db.writes + writes, k) == WritesOf(db.writes, k) + WritesOf(writes, k);
      assert Latest(db'.writes + writes, k) == Latest(db.writes + writes, k);
      hide WritesOf, Latest;
      match ops[0]
      case Put(_, entry) =>
        var row := KvWrite(k, id, Version(seqs[k.space], epochs[k.space], 0), entry);
        StageFrame(db, db', id, ops[1..], seqs, epochs, writes + {row}, deletes);
      case Del(_) =>
        if Latest(db.writes + writes, k).Some? {
          var row := KvDelete(id, k, Latest(db.writes + writes, k).value.invocation);
          StageFrame(db, db', id, ops[1..], seqs, epochs, writes, deletes + {row});
        }
    }
  }

  lemma {:induction false} NextSeqGrows(events: set<EventOrder>, more: set<EventOrder>, space: Space)
    ensures NextSeq(events, space) <= NextSeq(events + more, space)
  {
    if NextSeq(events, space) > 0 {
      var e :| e in events && e.space == space && e.version.seqNo == NextSeq(events, space) - 1;
      assert e in events + more;
    }
  }

  /** An invocation's commit does to the log what its operations do to the map. */
  lemma {:induction false} InvokeCommitRefines(db: Db, task: Task, store: map<ObjectId, Entry>, epochs: map<Space,
      Hash>)
    requires task.request.kind == Invoke && StagedFrom(db, task, epochs) && task.request.id !in db.invocations
    requires LogInv(db) && Refines(db, store) && SeqsAhead(db, task)
    ensures var db' := CommitRows(db, task); LogInv(db') && Refines(db', ApplyOps(store, task.request.ops))
  {
    var r, db' := task.request, CommitRows(db, task);
    assert With(db, {}, {}) == db;
    assert forall op, w :: op in r.ops && w in db.writes && w.key == op.key ==>
      w.version.seqNo < task.seqs[w.key.space];
    StagingRefines(db, r.id, r.ops, task.seqs, epochs, {}, {}, store);
    var after := With(db, task.staged.writes, task.staged.deletes);
    assert after.writes == db'.writes && after.deletes == db'.deletes;
    assert forall o :: GetKv(db', o) == GetKv(after, o);
    StagedSpaces(db, r.id, r.ops, task.seqs, epochs, {}, {});
    hide GetKv, StageOps, Refines;
    LogStays(db, task, epochs);
  }

  lemma {:induction false} StagedSpaces(db: Db, id: Hash, ops: seq<KvOp>,
                                        seqs: map<Space, int>, epochs: map<Space, Hash>,
                                        writes: set<KvWrite>, deletes: set<KvDelete>)
    requires forall op :: op in ops ==> op.key.space in seqs && op.key.space in epochs
    requires forall w :: w in writes ==> w.key.space in seqs && w.key.space in epochs
    requires StageOps(db, id, ops, seqs, epochs, writes, deletes).Some?
    ensures forall w :: w in StageOps(db, id, ops, seqs, epochs, writes, deletes).value.0 ==>
              w.key.space in seqs && w.key.space in epochs
    decreases |ops|
  {
    if ops != [] {
      var k := ops[0].key;
      assert ops[0] in ops;
      match ops[0]
      case Put(_, entry) =>
        var row := KvWrite(k, id, Version(seqs[k.space], epochs[k.space], 0), entry);
        StagedSpaces(db, id, ops[1..], seqs, epochs, writes + {row}, deletes);
      case Del(_) =>
        var row := KvDelete(id, k, Latest(db.writes + writes, k).value.invocation);
        StagedSpaces(db, id, ops[1..], seqs, epochs, writes, deletes + {row});
    }
  }

  lemma LogStays(db: Db, task: Task, epochs: map<Space, Hash>)
    requires task.request.kind == Invoke && LogInv(db)
    requires RowsInv(db, task.request.id, task.seqs, task.staged.writes, task.staged.deletes)
    requires forall w :: w in task.staged.writes ==> w.key.space in epochs
    requires task.staged.events == set s | s in task.seqs && s in epochs ::
             EventOrder(s, task.request.id, Version(task.seqs[s], epochs[s], 0))
    ensures LogInv(CommitRows(db, task))
  {
    var db' := CommitRows(db, task);
    forall w | w in db'.writes ensures w.version.seqNo < NextSeq(db'.events, w.key.space) {
      NextSeqGrows(db.events, task.staged.events, w.key.space);
      if w in task.staged.writes {
        var sp := w.key.space;
        assert EventOrder(sp, task.request.id, Version(task.seqs[sp], epochs[sp], 0)) in db'.events;
      }
    }
  }

  lemma OtherCommitKeepsLog(db: Db, task: Task)
    requires LogInv(db) && task.staged.writes == {} && task.staged.deletes == {}
    ensures LogInv(CommitRows(db, task))
    ensures forall o :: GetKv(CommitRows(db, task), o) == GetKv(db, o)
  {
    var db' := CommitRows(db, task);
    assert db'.writes == db.writes && db'.deletes == db.deletes;
    forall w | w in db'.writes ensures w.version.seqNo < NextSeq(db'.events, w.key.space) {
      NextSeqGrows(db.events, task.staged.events, w.key.space);
    }
  }

  lemma CommitRefines(db: Db, task: Task, store: map<ObjectId, Entry>)
    requires LogInv(db) && Refines(db, store) && SeqsAhead(db, task) && StagedInv(db, task) && NoConflict(db, task)
    ensures LogInv(CommitRows(db, task)) && Refines(CommitRows(db, task), StoreAfter(store, task))
  {
    hide LogInv, SeqsAhead, CommitRows, StagedFrom, ApplyOps, GetKv;
    if task.request.kind == Invoke && task.staged.isNew {
      var epochs :| StagedFrom(db, task, epochs);
      InvokeCommitRefines(db, task, store, epochs);
    } else {
      OtherCommitKeepsLog(db, task);
    }
  }

  /** A commit leaves the rows of objects it does not mutate alone. */
  lemma CommitFrame(db: Db, task: Task, o: ObjectId)
    requires StagedInv(db, task) && forall op :: op in task.request.ops ==> op.key != o
    ensures WritesOf(CommitRows(db, task).writes, o) == WritesOf(db.writes, o)
    ensures GetKv(CommitRows(db, task), o) == GetKv(db, o)
  {
    var db' := CommitRows(db, task);
    if task.request.kind == Invoke && task.staged.isNew {
      var epochs :| StagedFrom(db, task, epochs);
      StagedKeys(db, task.request.id, task.request.ops, task.seqs, epochs, {}, {}, o);
    }
    hide StagedInv, StageOps, StagedFrom;
    LatestFrame(db.writes, task.staged.writes, o);
    LatestExists(db.writes, o);
    if Latest(db.writes, o).Some? {
      var w := Latest(db.writes, o).value;
      assert Tombstoned(db'.deletes, w) == Tombstoned(db.deletes, w);
    }
  }

  // ----- a task's own actions

  lemma ReadSeqsKeeps(db: Db, task: Task, h: Holder)
    requires LogInv(db) && KvTaskInv(db, task) && PcFits(task) && Ready(db, task, h, ReadSeqs)
    ensures KvTaskInv(db, Advance(db, task, h, ReadSeqs))
  {
    var task' := Advance(db, task, h, ReadSeqs);
    assert SeqsAhead(db, task');
    hide GetKv, SeqsAhead, NextSeq;
  }

  lemma ReadObjectKeeps(db: Db, task: Task, h: Holder)
    requires KvTaskInv(db, task) && Ready(db, task, h, ReadObject)
    ensures KvTaskInv(db, Advance(db, task, h, ReadObject))
  {
    hide GetKv, SeqsAhead, StagedInv, Objects;
    var todo := task.pc.todo;
    assert forall o :: o in todo ==> o == todo[0] || o in todo[1..];
  }

  lemma SaveKeeps(db: Db, task: Task, h: Holder, epochs: map<Space, Hash>)
    requires KvTaskInv(db, task) && PcFits(task) && Ready(db, task, h, Save(epochs))
    ensures KvTaskInv(db, Advance(db, task, h, Save(epochs)))
  {
    var task' := Advance(db, task, h, Save(epochs));
    if task'.pc.Committing? && task.request.kind == Invoke && task'.staged.isNew {
      assert task'.staged.events
        == set s | s in task.seqs && s in epochs :: EventOrder(s, task.request.id, Version(task.seqs[s], epochs[s], 0));
      assert StagedFrom(db, task', epochs);
    }
    hide GetKv, StageOps, StagedFrom;
  }

  lemma OpenTransactionKeeps(db: Db, task: Task, h: Holder)
    requires KvTaskInv(db, task) && Ready(db, task, h, OpenTransaction)
    ensures KvTaskInv(db, Advance(db, task, h, OpenTransaction))
  {
    hide GetKv, SeqsAhead, StagedInv, Objects;
  }

  lemma PlainKeeps(db: Db, task: Task, h: Holder, a: Action)
    requires KvTaskInv(db, task) && Ready(db, task, h, a)
    requires !a.ReadSeqs? && !a.ReadObject? && !a.Save? && !a.OpenTransaction?
    ensures KvTaskInv(db, Advance(db, task, h, a))
  {
    hide GetKv, StagedInv, NextSeq, ReliedOn, Step, MayFetch, Elems, Objects, NoConflict;
  }

  lemma ActionKeeps(db: Db, task: Task, h: Holder, a: Action)
    requires LogInv(db) && KvTaskInv(db, task) && PcFits(task) && Ready(db, task, h, a)
    ensures KvTaskInv(db, Advance(db, task, h, a))
  {
    hide LogInv, KvTaskInv, PcFits, Ready, Advance;
    match a
    case ReadSeqs => ReadSeqsKeeps(db, task, h);
    case ReadObject => ReadObjectKeeps(db, task, h);
    case Save(epochs) => SaveKeeps(db, task, h, epochs);
    case OpenTransaction => OpenTransactionKeeps(db, task, h);
    case _ => PlainKeeps(db, task, h, a);
  }

  // ----- another task's commit

  lemma StagedStays(db: Db, db': Db, task: Task)
    requires StagedInv(db, task)
    requires forall op :: op in task.request.ops ==> WritesOf(db'.writes, op.key) == WritesOf(db.writes, op.key)
    ensures StagedInv(db', task)
  {
    hide StageOps, WritesOf;
    if task.request.kind == Invoke && task.staged.isNew {
      var epochs :| StagedFrom(db, task, epochs);
      StageFrame(db, db', task.request.id, task.request.ops, task.seqs, epochs, {}, {});
      assert StagedFrom(db', task, epochs);
    }
  }

  lemma SeqsStayAhead(db: Db, db': Db, task: Task)
    requires SeqsAhead(db, task)
    requires forall op :: op in task.request.ops ==> WritesOf(db'.writes, op.key) == WritesOf(db.writes, op.key)
    ensures SeqsAhead(db', task)
  {
    forall op, w | op in task.request.ops && w in db'.writes && w.key == op.key
      ensures w.key.space in task.seqs && w.version.seqNo < task.seqs[w.key.space]
    {
      assert w in WritesOf(db'.writes, op.key);
    }
  }

  lemma CommitKeepsTask(db: Db, committer: Task, task: Task)
    requires KvTaskInv(db, task) && StagedInv(db, committer)
    requires InTransaction(task.pc) ==>
               forall op, o :: op in committer.request.ops && o in Objects(task.request) ==> op.key != o
    ensures KvTaskInv(CommitRows(db, committer), task)
  {
    var db' := CommitRows(db, committer);
    if InTransaction(task.pc) {
      forall o | o in Objects(task.request)
        ensures WritesOf(db'.writes, o) == WritesOf(db.writes, o) && GetKv(db', o) == GetKv(db, o)
      {
        CommitFrame(db, committer, o);
      }
      forall op | op in task.request.ops ensures WritesOf(db'.writes, op.key) == WritesOf(db.writes, op.key) {
        var i :| 0 <= i < |task.request.ops| && task.request.ops[i] == op;
        assert Objects(task.request)[i] == op.key;
      }
      hide CommitRows, GetKv, StagedFrom, WritesOf;
      if Ordered(task.pc) {
        SeqsStayAhead(db, db', task);
      }
      if task.pc.Committing? {
        StagedStays(db, db', task);
      }
      hide SeqsAhead, StagedInv;
    }
  }

  lemma CommitKeepsKv(s: State, t: TaskId)
    requires GuardInv(s) && KvInv(s) && Enabled(s, Act(t, Commit))
    ensures KvInv(Apply(s, Act(t, Commit)))
  {
    hide LockTable.Inv;
    hide GuardsOwned, PcFits, LogInv, Refines, CommitRows, StoreAfter, SeqsAhead, StagedInv, NoConflict,
      PreconditionsHold, Objects;
    var s', task := Apply(s, Act(t, Commit)), s.tasks[t];
    assert task.pc.Committing? && KvTaskInv(s.db, task) && NoConflict(s.db, task);
    CommitRefines(s.db, task, s.store);
    forall u | u in s'.tasks ensures KvTaskInv(s'.db, s'.tasks[u]) {
      if u == t {
        assert s'.tasks[t].pc == Releasing(true);
        ReleasedTask(s'.db, s'.tasks[t]);
      } else {
        if InTransaction(s.tasks[u].pc) {
          ObjectsDisjoint(s, t, u);
        }
        CommitKeepsTask(s.db, task, s.tasks[u]);
      }
    }
  }

  lemma ReleasedTask(db: Db, task: Task)
    requires task.pc.Releasing?
    ensures KvTaskInv(db, task)
  {
  }

  lemma ObjectsDisjoint(s: State, t: TaskId, u: TaskId)
    requires GuardInv(s) && t in s.tasks && u in s.tasks && t != u
    requires InTransaction(s.tasks[t].pc) && InTransaction(s.tasks[u].pc)
    ensures forall op, o :: op in s.tasks[t].request.ops && o in Objects(s.tasks[u].request) ==> op.key != o
  {
    TransactionHolds(s, t);
    TransactionHolds(s, u);
    hide GuardsOwned, PcFits, HolderInv;
    forall op, o | op in s.tasks[t].request.ops && o in Objects(s.tasks[u].request) ensures op.key != o {
      var i :| 0 <= i < |s.tasks[t].request.ops| && s.tasks[t].request.ops[i] == op;
      assert Objects(s.tasks[t].request)[i] == op.key;
      assert ObjectKey(op.key) in s.locks.holders[t].holds && ObjectKey(o) in s.locks.holders[u].holds;
    }
  }

  lemma NewTaskKv(db: Db, r: Request)
    ensures KvTaskInv(db, BeginTask(db, r))
  {
    hide GetKv, Start, Reach, SeqsAhead, StagedInv;
  }
}
