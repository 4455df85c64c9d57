/** What the checks of a call let through, exactly: none refuses more than the node does. */
module CallChecks {
  import opened Order
  import opened Graph
  import opened ChainWalk
  import opened LockTable
  import opened SpaceTables
  import opened SpaceProtocol

  ghost predicate Written(writes: set<KvWrite>, o: ObjectId) {
    exists w :: w in writes && w.key == o
  }

  /** No object is put twice, nor one put before. */
  predicate PutsOnce(ops: seq<KvOp>, writes: set<KvWrite>) {
    && (forall i, j :: 0 <= i < j < |ops| && ops[i].Put? && ops[j].Put? ==> ops[i].key != ops[j].key)
    && (forall i, w :: 0 <= i < |ops| && ops[i].Put? && w in writes ==> w.key != ops[i].key)
  }

  /** No two deletes are in one space, nor one where there is a delete already. */
  predicate DeletesOnce(ops: seq<KvOp>, deletes: set<KvDelete>) {
    && (forall i, j :: 0 <= i < j < |ops| && ops[i].Del? && ops[j].Del? ==> ops[i].key.space != ops[j].key.space)
    && (forall i, d :: 0 <= i < |ops| && ops[i].Del? && d in deletes ==> d.key.space != ops[i].key.space)
  }

  /** The object is put by an earlier operation. */
  predicate PutBefore(ops: seq<KvOp>, i: nat)
    requires i < |ops|
  {
    exists j :: 0 <= j < i && ops[j].Put? && ops[j].key == ops[i].key
  }

  /** Every delete finds a write, of an earlier transaction or an earlier operation. */
  ghost predicate DeletesWritten(ops: seq<KvOp>, writes: set<KvWrite>) {
    forall i :: 0 <= i < |ops| && ops[i].Del? ==> Written(writes, ops[i].key) || PutBefore(ops, i)
  }

  ghost predicate Stageable(db: Db, ops: seq<KvOp>, writes: set<KvWrite>, deletes: set<KvDelete>) {
    PutsOnce(ops, writes) && DeletesOnce(ops, deletes) && DeletesWritten(ops, db.writes + writes)
  }

  lemma PutsTail(ops: seq<KvOp>, writes: set<KvWrite>, row: KvWrite)
    requires ops != [] && ops[0].Put? && row.key == ops[0].key && forall w :: w in writes ==> w.key != ops[0].key
    ensures PutsOnce(ops, writes) <==> PutsOnce(ops[1..], writes + {row})
  {
    var tail := ops[1..];
    assert forall i :: 0 <= i < |tail| ==> tail[i] == ops[i + 1];
    if PutsOnce(tail, writes + {row}) {
      forall i, j | 0 <= i < j < |ops| && ops[i].Put? && ops[j].Put? ensures ops[i].key != ops[j].key {
        assert ops[j] == tail[j - 1];
        assert row in writes + {row};
        if i > 0 {
          assert ops[i] == tail[i - 1];
        }
      }
      forall i, w | 0 <= i < |ops| && ops[i].Put? && w in writes ensures w.key != ops[i].key {
        if i > 0 {
          assert ops[i] == tail[i - 1] && w in writes + {row};
        }
      }
    }
  }

  lemma PutsTailDel(ops: seq<KvOp>, writes: set<KvWrite>)
    requires ops != [] && ops[0].Del?
    ensures PutsOnce(ops, writes) <==> PutsOnce(ops[1..], writes)
  {
    var tail := ops[1..];
    assert forall i :: 0 <= i < |tail| ==> tail[i] == ops[i + 1];
    if PutsOnce(tail, writes) {
      forall i, j | 0 <= i < j < |ops| && ops[i].Put? && ops[j].Put? ensures ops[i].key != ops[j].key {
        assert ops[j] == tail[j - 1] && ops[i] == tail[i - 1];
      }
      forall i, w | 0 <= i < |ops| && ops[i].Put? && w in writes ensures w.key != ops[i].key {
        assert ops[i] == tail[i - 1];
      }
    }
  }

  lemma DeletesTail(ops: seq<KvOp>, deletes: set<KvDelete>, row: KvDelete)
    requires ops != [] && ops[0].Del? && row.key == ops[0].key
    requires forall d :: d in deletes ==> d.key.space != ops[0].key.space
    ensures DeletesOnce(ops, deletes) <==> DeletesOnce(ops[1..], deletes + {row})
  {
    var tail := ops[1..];
    assert forall i :: 0 <= i < |tail| ==> tail[i] == ops[i + 1];
    if DeletesOnce(tail, deletes + {row}) {
      forall i, j | 0 <= i < j < |ops| && ops[i].Del? && ops[j].Del? ensures ops[i].key.space != ops[j].key.space {
        assert ops[j] == tail[j - 1];
        assert row in deletes + {row};
        if i > 0 {
          assert ops[i] == tail[i - 1];
        }
      }
      forall i, d | 0 <= i < |ops| && ops[i].Del? && d in deletes ensures d.key.space != ops[i].key.space {
        if i > 0 {
          assert ops[i] == tail[i - 1] && d in deletes + {row};
        }
      }
    }
  }

  lemma DeletesTailPut(ops: seq<KvOp>, deletes: set<KvDelete>)
    requires ops != [] && ops[0].Put?
    ensures DeletesOnce(ops, deletes) <==> DeletesOnce(ops[1..], deletes)
  {
    var tail := ops[1..];
    assert forall i :: 0 <= i < |tail| ==> tail[i] == ops[i + 1];
    if DeletesOnce(tail, deletes) {
      forall i, j | 0 <= i < j < |ops| && ops[i].Del? && ops[j].Del? ensures ops[i].key.space != ops[j].key.space {
        assert ops[j] == tail[j - 1] && ops[i] == tail[i - 1];
      }
      forall i, d | 0 <= i < |ops| && ops[i].Del? && d in deletes ensures d.key.space != ops[i].key.space {
        assert ops[i] == tail[i - 1];
      }
    }
  }

  /** What the first operation puts is written for all that follow. */
  lemma WrittenTail(ops: seq<KvOp>, i: nat, before: set<KvWrite>, after: set<KvWrite>)
    requires 0 < i < |ops|
    requires forall o :: Written(after, o) <==> Written(before, o) || (ops[0].Put? && o == ops[0].key)
    ensures Written(before, ops[i].key) || PutBefore(ops, i) <==>
            Written(after, ops[i].key) || PutBefore(ops[1..], i - 1)
  {
    hide Written;
    var tail := ops[1..];
    assert forall j :: 0 <= j < |tail| ==> tail[j] == ops[j + 1];
    if PutBefore(ops, i) {
      var j :| 0 <= j < i && ops[j].Put? && ops[j].key == ops[i].key;
      if j > 0 {
        assert tail[j - 1].Put? && tail[j - 1].key == tail[i - 1].key;
      }
    }
    if PutBefore(tail, i - 1) {
      var j :| 0 <= j < i - 1 && tail[j].Put? && tail[j].key == tail[i - 1].key;
      assert ops[j + 1].Put? && ops[j + 1].key == ops[i].key;
    }
  }

  lemma DeletesWrittenTail(ops: seq<KvOp>, before: set<KvWrite>, after: set<KvWrite>)
    requires ops != [] && (ops[0].Del? ==> Written(before, ops[0].key))
    requires forall o :: Written(after, o) <==> Written(before, o) || (ops[0].Put? && o == ops[0].key)
    ensures DeletesWritten(ops, before) <==> DeletesWritten(ops[1..], after)
  {
    hide Written, PutBefore;
    var tail := ops[1..];
    forall i | 0 < i < |ops|
      ensures Written(before, ops[i].key) || PutBefore(ops, i) <==>
              Written(after, tail[i - 1].key) || PutBefore(tail, i - 1)
    {
      WrittenTail(ops, i, before, after);
    }
    if DeletesWritten(ops, before) {
      forall i | 0 <= i < |tail| && tail[i].Del? ensures Written(after, tail[i].key) || PutBefore(tail, i) {
        assert ops[i + 1] == tail[i];
      }
    }
    if DeletesWritten(tail, after) {
      forall i | 0 <= i < |ops| && ops[i].Del? ensures Written(before, ops[i].key) || PutBefore(ops, i) {
        if i > 0 {
          assert ops[i] == tail[i - 1];
        }
      }
    }
  }

  lemma WrittenGrows(writes: set<KvWrite>, row: KvWrite, o: ObjectId)
    ensures Written(writes + {row}, o) <==> Written(writes, o) || o == row.key
  {
    if Written(writes, o) {
      var w :| w in writes && w.key == o;
      assert w in writes + {row};
    }
    if o == row.key {
      assert row in writes + {row};
    }
  }

  /** Staging succeeds exactly when nothing is put twice, no space has two deletes and every delete finds a write. */
  lemma {:induction false} StagesIff(db: Db, id: Hash, ops: seq<KvOp>, seqs: map<Space, int>, epochs: map<Space, Hash>,
                                     writes: set<KvWrite>, deletes: set<KvDelete>)
    requires forall op :: op in ops ==> op.key.space in seqs && op.key.space in epochs
    ensures StageOps(db, id, ops, seqs, epochs, writes, deletes).Some? <==> Stageable(db, ops, writes, deletes)
    decreases |ops|
  {
    if ops != [] {
      if ops[0].Put? {
        StagesPut(db, id, ops, seqs, epochs, writes, deletes);
      } else {
        StagesDel(db, id, ops, seqs, epochs, writes, deletes);
      }
    }
  }

  lemma {:induction false} StagesPut(db: Db, id: Hash, ops: seq<KvOp>, seqs: map<Space, int>, epochs: map<Space, Hash>,
                  writes: set<KvWrite>, deletes: set<KvDelete>)
    requires ops != [] && ops[0].Put?
    requires forall op :: op in ops ==> op.key.space in seqs && op.key.space in epochs
    ensures StageOps(db, id, ops, seqs, epochs, writes, deletes).Some? <==> Stageable(db, ops, writes, deletes)
    decreases |ops|, 0
  {
    var o := ops[0].key;
    assert ops[0] in ops;
    var row := KvWrite(o, id, Version(seqs[o.space], epochs[o.space], 0), ops[0].entry);
    if w :| w in writes && w.key == o {
      assert !PutsOnce(ops, writes);
    } else {
      StagesIff(db, id, ops[1..], seqs, epochs, writes + {row}, deletes);
      PutsTail(ops, writes, row);
      DeletesTailPut(ops, deletes);
      forall x ensures Written(db.writes + (writes + {row}), x) <==>
                       Written(db.writes + writes, x) || (ops[0].Put? && x == o)
      {
        WrittenGrows(db.writes + writes, row, x);
        assert db.writes + (writes + {row}) == db.writes + writes + {row};
      }
      DeletesWrittenTail(ops, db.writes + writes, db.writes + (writes + {row}));
    }
    hide PutsOnce, DeletesOnce, DeletesWritten, Written;
  }

  lemma {:induction false} StagesDel(db: Db, id: Hash, ops: seq<KvOp>, seqs: map<Space, int>, epochs: map<Space, Hash>,
                  writes: set<KvWrite>, deletes: set<KvDelete>)
    requires ops != [] && ops[0].Del?
    requires forall op :: op in ops ==> op.key.space in seqs && op.key.space in epochs
    ensures StageOps(db, id, ops, seqs, epochs, writes, deletes).Some? <==> Stageable(db, ops, writes, deletes)
    decreases |ops|, 0
  {
    var o, all := ops[0].key, db.writes + writes;
    LatestExists(all, o);
    var latest := Latest(all, o);
    hide Latest;
    if latest.None? {
      assert !Written(all, o) && !PutBefore(ops, 0);
      assert !DeletesWritten(ops, all);
    } else if d :| d in deletes && d.key.space == o.space {
      assert !DeletesOnce(ops, deletes);
    } else {
      var row := KvDelete(id, o, latest.value.invocation);
      StagesIff(db, id, ops[1..], seqs, epochs, writes, deletes + {row});
      PutsTailDel(ops, writes);
      DeletesTail(ops, deletes, row);
      DeletesWrittenTail(ops, all, all);
    }
    hide PutsOnce, DeletesOnce, DeletesWritten, Written;
  }

  /**
   The rows of a call are saved exactly when all it cites is stored and, for an invocation not seen
   before, its operations can be staged.
   */
  lemma SavesIff(db: Db, task: Task, epochs: map<Space, Hash>)
    requires task.seqs.Keys <= epochs.Keys && forall op :: op in task.request.ops ==> op.key.space in task.seqs
    ensures var r := task.request;
            SaveRows(db, task, epochs).Some? <==>
              && (forall p :: p in r.cites ==> p in db.delegations)
              && (r.kind == Invoke && r.id !in db.invocations ==> Stageable(db, r.ops, {}, {}))
  {
    hide StageOps, Stageable;
    var r := task.request;
    StagesIff(db, r.id, r.ops, task.seqs, epochs, {}, {});
  }

  /**
   Reading an object lets the call go on exactly when nothing is asked of it, it is absent and asked to
   be, or it has the asked value.
   */
  lemma ReadGoesOnIff(db: Db, task: Task, h: Holder)
    requires Ready(db, task, h, ReadObject)
    ensures var o, asked := task.pc.todo[0], task.request.preconditions;
            Advance(db, task, h, ReadObject).pc == Reading(task.pc.todo[1..]) <==>
              || o !in asked
              || (asked[o].DoesNotExist? && GetKv(db, o) == None)
              || (asked[o].Matches? && GetKv(db, o).Some? && GetKv(db, o).value.value == asked[o].value)
  {
    hide GetKv;
  }

  /**
   A call may commit exactly when its rows are saved, no epoch it made is taken in its space, and an
   invocation is as new, or as old, as it was when they were saved.
   */
  lemma CommitsIff(db: Db, task: Task, h: Holder)
    ensures Ready(db, task, h, Commit) <==>
            && task.pc == Committing
            && (task.request.kind == Invoke ==> task.staged.isNew != (task.request.id in db.invocations))
            && !exists e, f :: e in task.staged.events && f in db.events
                               && e.space == f.space && e.version.epoch == f.version.epoch
  {
  }

  /** A revocation is ordered in the spaces its target was, anything else in those it names, with the next number. */
  lemma OrdersIn(db: Db, task: Task, h: Holder, s: Space)
    requires Ready(db, task, h, ReadSeqs)
    ensures var r, seqs := task.request, Advance(db, task, h, ReadSeqs).seqs;
            && (s in seqs <==>
                  (r.kind != Revoke && s in r.spaces)
                  || (r.kind == Revoke && exists e :: e in db.events && e.event == r.target && e.space == s))
            && (s in seqs ==> seqs[s] >= 0 && forall e :: e in db.events && e.space == s ==> e.version.seqNo < seqs[s])
            && (s in seqs && seqs[s] > 0 ==>
                  exists e :: e in db.events && e.space == s && e.version.seqNo == seqs[s] - 1)
  {
  }

  // ---- Epochs are not used twice ----

  predicate OnePerSpace(events: set<EventOrder>) {
    forall e, f :: e in events && f in events && e.space == f.space ==> e == f
  }

  /** No two events of a space are in one epoch. */
  predicate EpochsUnique(events: set<EventOrder>) {
    forall e, f :: e in events && f in events && e.space == f.space && e.version.epoch == f.version.epoch ==> e == f
  }

  ghost predicate EpochInv(s: State) {
    EpochsUnique(s.db.events) && forall t :: t in s.tasks ==> OnePerSpace(s.tasks[t].staged.events)
  }

  lemma SavedOnePerSpace(db: Db, task: Task, h: Holder, a: Action)
    requires Ready(db, task, h, a) && OnePerSpace(task.staged.events)
    ensures OnePerSpace(Advance(db, task, h, a).staged.events)
  {
    hide ReliedOn, Step, StageOps, GetKv, NextSeq, Fetched, LinksOf;
  }

  lemma CommitKeepsEpochs(db: Db, task: Task)
    requires EpochsUnique(db.events) && OnePerSpace(task.staged.events) && NoConflict(db, task)
    ensures EpochsUnique(CommitRows(db, task).events)
  {
    var events := CommitRows(db, task).events;
    assert events == db.events + task.staged.events;
  }

  lemma EventKeepsEpochs(s: State, e: Event)
    requires EpochInv(s) && Enabled(s, e)
    ensures EpochInv(Apply(s, e))
  {
    hide OnePerSpace, EpochsUnique, LocksAfter, StoreAfter, CommitRows, NoConflict;
    match e
    case Begin(t, r) =>
      assert OnePerSpace({}) by { NoEvents(); }
    case Act(t, a) =>
      SavedOnePerSpace(s.db, s.tasks[t], s.locks.holders[t], a);
      if a.Commit? {
        CommitKeepsEpochs(s.db, s.tasks[t]);
      }
      hide Advance, Ready;
  }

  lemma NoEvents()
    ensures OnePerSpace({}) && EpochsUnique({})
  {
  }

  /** In every run no epoch of a space is used by two commits. */
  lemma {:induction false} EpochsStayUnique(states: seq<State>, events: seq<Event>, i: nat)
    requires IsRun(states, events) && i < |states|
    ensures EpochInv(states[i]) && EpochsUnique(states[i].db.events)
  {
    hide Enabled, Apply, EpochsUnique, OnePerSpace;
    if i > 0 {
      EpochsStayUnique(states, events, i - 1);
      EventKeepsEpochs(states[i - 1], events[i - 1]);
    } else {
      NoEvents();
    }
  }

  // ---- What a call answers ----

  ghost predicate CommittedBy(events: seq<Event>, j: nat, t: TaskId) {
    exists i :: 0 <= i < j <= |events| && events[i] == Act(t, Commit)
  }

  predicate Answers(pc: Pc, ok: bool) {
    (pc.Releasing? && pc.ok == ok) || (pc.Done? && pc.ok == ok)
  }

  /** One action: it answers yes by committing or, for a status query, once its guards are taken. */
  lemma ActionAnswers(db: Db, task: Task, h: Holder, a: Action)
    requires Ready(db, task, h, a)
    ensures var next := Advance(db, task, h, a);
            && next.request == task.request
            && (Answers(next.pc, true) <==>
                  Answers(task.pc, true) || a.Commit? || (a.FindObjectLocks? && task.request.kind == Status))
            && (a.Commit? ==> !Answers(task.pc, true) && !Answers(task.pc, false))
  {
    hide ReliedOn, Step, SaveRows, GetKv, NextSeq, Fetched, LinksOf, NoConflict;
  }

  lemma EventAnswers(s: State, e: Event, t: TaskId)
    requires Enabled(s, e) && t in Apply(s, e).tasks && Apply(s, e).tasks[t].request.kind != Status
    ensures var s' := Apply(s, e);
            && (t in s.tasks ==> s.tasks[t].request == s'.tasks[t].request)
            && (Answers(s'.tasks[t].pc, true) <==>
                  (t in s.tasks && Answers(s.tasks[t].pc, true)) || e == Act(t, Commit))
  {
    hide LocksAfter, CommitRows, StoreAfter, Ready, Advance;
    if e.Act? && e.t == t {
      ActionAnswers(s.db, s.tasks[t], s.locks.holders[t], e.action);
    }
  }

  lemma CommittedNext(events: seq<Event>, j: nat, t: TaskId)
    requires 0 < j <= |events|
    ensures CommittedBy(events, j, t) <==> CommittedBy(events, j - 1, t) || events[j - 1] == Act(t, Commit)
  {
  }

  /** In every run a call that is not a status query has answered yes exactly when it has committed. */
  lemma {:induction false} AnswersYesIffCommitted(states: seq<State>, events: seq<Event>, j: nat, t: TaskId)
    requires IsRun(states, events) && j < |states| && t in states[j].tasks && states[j].tasks[t].request.kind != Status
    ensures Answers(states[j].tasks[t].pc, true) <==> CommittedBy(events, j, t)
    decreases j
  {
    hide Enabled, Apply, CommittedBy;
    assert j > 0;
    assert Enabled(states[j - 1], events[j - 1]) && states[j] == Apply(states[j - 1], events[j - 1]);
    EventAnswers(states[j - 1], events[j - 1], t);
    CommittedNext(events, j, t);
    if t in states[j - 1].tasks {
      AnswersYesIffCommitted(states, events, j - 1, t);
    } else {
      NotYetCommitted(states, events, j - 1, t);
    }
  }

  lemma {:induction false} NotYetCommitted(states: seq<State>, events: seq<Event>, j: nat, t: TaskId)
    requires IsRun(states, events) && j < |states| && t !in states[j].tasks
    ensures !CommittedBy(events, j, t)
    decreases j
  {
    hide Apply, Ready, CommittedBy;
    if j > 0 {
      assert Enabled(states[j - 1], events[j - 1]) && states[j] == Apply(states[j - 1], events[j - 1]);
      TasksStay(states[j - 1], events[j - 1]);
      NotYetCommitted(states, events, j - 1, t);
      CommittedNext(events, j, t);
    } else {
      assert !CommittedBy(events, 0, t) by { NoneCommitted(events, t); }
    }
  }

  lemma NoneCommitted(events: seq<Event>, t: TaskId)
    ensures !CommittedBy(events, 0, t)
  {
  }

  lemma TasksStay(s: State, e: Event)
    requires Enabled(s, e)
    ensures s.tasks.Keys <= Apply(s, e).tasks.Keys
  {
    hide LocksAfter, CommitRows, StoreAfter, Ready, Advance, BeginTask;
  }
}
