/** Epochs of a space: how concurrent transactions number and link them (tinycloud-core/src/db.rs). */
module EpochDag {
  import opened Order
  import opened Graph
  import opened SpaceTables

  /** A row of `epoch` together with its `epoch_order` rows. */
  datatype Epoch = Epoch(seqNo: int, parents: set<Hash>)

  type Epochs = map<Hash, Epoch>

  datatype Tables = Tables(epochs: map<Space, Epochs>, events: set<EventOrder>)

  function EpochsOf(db: Tables, sp: Space): Epochs {
    if sp in db.epochs then db.epochs[sp] else map[]
  }

  function DagOf(es: Epochs): Graph {
    map e | e in es :: es[e].parents
  }

  /** The epochs that are no epoch's parent. */
  function Tips(es: Epochs): set<Hash> {
    set e | e in es && forall c :: c in es ==> e !in es[c].parents
  }

  datatype Isolation =
    | Snapshot         // all statements of a transaction read the tables as of its start
    | ReadCommitted    // every statement reads the rows committed by then

  datatype Phase = Started | Numbered | Linked | Ended

  /** A transaction that will add an epoch to each space of its batch. */
  datatype Tx = Tx(
    batch: map<Space, seq<Hash>>,
    view: Tables,
    phase: Phase,
    seqs: map<Space, int>,
    tips: map<Space, set<Hash>>)

  datatype State = State(db: Tables, txs: map<nat, Tx>)

  const INIT := State(Tables(map[], {}), map[])

  datatype Event =
    | Open(t: nat, batch: map<Space, seq<Hash>>)
    | ReadSeqs(t: nat)
    | ReadTips(t: nat)
    | Commit(t: nat, ids: map<Space, Hash>)
    | Abort(t: nat)

  function Visible(iso: Isolation, s: State, tx: Tx): Tables {
    if iso.Snapshot? then tx.view else s.db
  }

  function NewRows(tx: Tx, ids: map<Space, Hash>): set<EventOrder>
    requires tx.batch.Keys <= ids.Keys && tx.batch.Keys <= tx.seqs.Keys
  {
    set sp, i | sp in tx.batch && 0 <= i < |tx.batch[sp]| ::
      EventOrder(sp, tx.batch[sp][i], Version(tx.seqs[sp], ids[sp], i))
  }

  predicate Prepared(tx: Tx, ids: map<Space, Hash>) {
    tx.batch.Keys == ids.Keys == tx.seqs.Keys == tx.tips.Keys
  }

  function CommitTables(db: Tables, tx: Tx, ids: map<Space, Hash>): Tables
    requires Prepared(tx, ids)
  {
    Tables(
      map sp | sp in db.epochs.Keys + tx.batch.Keys ::
        if sp in tx.batch then EpochsOf(db, sp)[ids[sp] := Epoch(tx.seqs[sp], tx.tips[sp])] else EpochsOf(db, sp),
      db.events + NewRows(tx, ids))
  }

  /** A commit is refused when an epoch id is taken: `(id, space)` is the primary key. */
  predicate Enabled(s: State, e: Event) {
    match e
    case Open(t, batch) => t !in s.txs && forall sp :: sp in batch ==> batch[sp] != []
    case ReadSeqs(t) => t in s.txs && s.txs[t].phase == Started
    case ReadTips(t) => t in s.txs && s.txs[t].phase == Numbered
    case Commit(t, ids) =>
      && t in s.txs && s.txs[t].phase == Linked && Prepared(s.txs[t], ids)
      && forall sp :: sp in ids ==> ids[sp] !in EpochsOf(s.db, sp)
    case Abort(t) => t in s.txs && s.txs[t].phase != Ended
  }

  ghost function Apply(iso: Isolation, s: State, e: Event): State
    requires Enabled(s, e)
  {
    match e
    case Open(t, batch) => s.(txs := s.txs[t := Tx(batch, s.db, Started, map[], map[])])
    case ReadSeqs(t) =>
      var tx := s.txs[t];
      s.(txs := s.txs[t := tx.(phase := Numbered,
                              seqs := map sp | sp in tx.batch :: NextSeq(Visible(iso, s, tx).events, sp))])
    case ReadTips(t) =>
      var tx := s.txs[t];
      s.(txs := s.txs[t := tx.(phase := Linked,
                              tips := map sp | sp in tx.batch :: Tips(EpochsOf(Visible(iso, s, tx), sp)))])
    case Commit(t, ids) =>
      State(CommitTables(s.db, s.txs[t], ids), s.txs[t := s.txs[t].(phase := Ended)])
    case Abort(t) => s.(txs := s.txs[t := s.txs[t].(phase := Ended)])
  }

  ghost predicate IsRun(iso: Isolation, states: seq<State>, events: seq<Event>) {
    && |states| == |events| + 1 && states[0] == INIT
    && forall i :: 0 <= i < |events| ==>
      Enabled(states[i], events[i]) && states[i + 1] == Apply(iso, states[i], events[i])
  }

  // ---- What holds at every isolation level ----

  ghost predicate Covered(es: Epochs) {
    forall e :: e in es ==> exists t :: t in Tips(es) && e in Reach(DagOf(es), {t})
  }

  ghost predicate LinksStored(es: Epochs) {
    forall e, p :: e in es && p in es[e].parents ==> p in es
  }

  /** Every epoch has an event row with its number. */
  ghost predicate EpochsNumbered(es: Epochs, events: set<EventOrder>, sp: Space) {
    forall e :: e in es ==> exists r :: r in events && r.space == sp && r.version.seqNo == es[e].seqNo
  }

  ghost predicate RowsNumbered(es: Epochs, events: set<EventOrder>, sp: Space) {
    forall r :: r in events && r.space == sp ==> r.version.epoch in es && es[r.version.epoch].seqNo == r.version.seqNo
  }

  ghost predicate RowsKeyed(events: set<EventOrder>, sp: Space) {
    forall r, q ::
      (r in events && q in events && r.space == sp && q.space == sp
       && r.version.epoch == q.version.epoch && r.version.epochSeq == q.version.epochSeq) ==> r == q
  }

  ghost predicate SpaceOk(db: Tables, sp: Space) {
    var es := EpochsOf(db, sp);
    && LinksStored(es) && Covered(es) && EpochsNumbered(es, db.events, sp)
    && RowsNumbered(es, db.events, sp) && RowsKeyed(db.events, sp)
  }

  ghost predicate Extends(before: Tables, after: Tables) {
    forall sp, e :: e in EpochsOf(before, sp) ==>
      e in EpochsOf(after, sp) && EpochsOf(after, sp)[e] == EpochsOf(before, sp)[e]
  }

  ghost predicate TxOk(db: Tables, tx: Tx) {
    && (forall sp :: sp in tx.batch ==> tx.batch[sp] != [])
    && Extends(tx.view, db) && (forall sp :: SpaceOk(tx.view, sp))
    && (tx.phase.Linked? ==> forall sp :: sp in tx.tips ==> tx.tips[sp] <= EpochsOf(db, sp).Keys)
  }

  ghost predicate Structured(s: State) {
    && (forall sp :: SpaceOk(s.db, sp))
    && (forall t :: t in s.txs ==> TxOk(s.db, s.txs[t]))
  }

  lemma ReachGrows(g: Graph, g': Graph, roots: set<Hash>)
    requires forall x :: Parents(g, x) <= Parents(g', x)
    ensures Reach(g, roots) <= Reach(g', roots)
  {
    ReachClosed(g', roots);
    ReachLeast(g, roots, Reach(g', roots));
  }

  /** Committing an epoch turns the tips into what is left of them after its parents, and itself. */
  lemma TipsMove(es: Epochs, id: Hash, epoch: Epoch)
    requires id !in es && LinksStored(es) && epoch.parents <= es.Keys
    ensures Tips(es[id := epoch]) == Tips(es) - epoch.parents + {id}
  {
    var es' := es[id := epoch];
    forall e | e in Tips(es) - epoch.parents + {id} ensures e in Tips(es') {
      assert forall c :: c in es' ==> c == id || (c in es && es'[c] == es[c]);
    }
    forall e | e in Tips(es') ensures e in Tips(es) - epoch.parents + {id} {
      assert id in es';
      if e != id {
        forall c | c in es ensures e !in es[c].parents {
          assert c in es' && es'[c] == es[c];
        }
      }
    }
  }

  lemma LinksMove(es: Epochs, id: Hash, epoch: Epoch)
    requires LinksStored(es) && epoch.parents <= es.Keys
    ensures LinksStored(es[id := epoch])
  {
  }

  lemma CoverMovesFor(es: Epochs, id: Hash, epoch: Epoch, e: Hash, t: Hash) returns (t': Hash)
    requires id !in es && LinksStored(es) && epoch.parents <= es.Keys
    requires t in Tips(es) && e in Reach(DagOf(es), {t})
    ensures t' in Tips(es[id := epoch]) && e in Reach(DagOf(es[id := epoch]), {t'})
  {
    var es' := es[id := epoch];
    var g, g' := DagOf(es), DagOf(es');
    TipsMove(es, id, epoch);
    ReachGrows(g, g', {t});
    ReachClosed(g', {id});
    hide Reach, Tips;
    if t in epoch.parents {
      assert t in Parents(g', id);
      ReachLeast(g', {t}, Reach(g', {id}));
      t' := id;
    } else {
      t' := t;
    }
  }

  lemma CoverMoves(es: Epochs, id: Hash, epoch: Epoch)
    requires id !in es && LinksStored(es) && Covered(es) && epoch.parents <= es.Keys
    ensures Covered(es[id := epoch])
  {
    var es' := es[id := epoch];
    TipsMove(es, id, epoch);
    ReachClosed(DagOf(es'), {id});
    hide Reach, Tips, DagOf, LinksStored;
    forall e | e in es' ensures exists t :: t in Tips(es') && e in Reach(DagOf(es'), {t}) {
      if e == id {
        assert id in Tips(es') && e in Reach(DagOf(es'), {id});
      } else {
        assert e in es;
        var t :| t in Tips(es) && e in Reach(DagOf(es), {t});
        var t' := CoverMovesFor(es, id, epoch, e, t);
      }
    }
  }

  lemma NewEpochRow(tx: Tx, ids: map<Space, Hash>, sp: Space)
    requires Prepared(tx, ids) && sp in tx.batch && tx.batch[sp] != []
    ensures exists r :: r in NewRows(tx, ids) && r.space == sp && r.version.seqNo == tx.seqs[sp]
  {
    assert EventOrder(sp, tx.batch[sp][0], Version(tx.seqs[sp], ids[sp], 0)) in NewRows(tx, ids);
  }

  lemma CommitEpochs(db: Tables, tx: Tx, ids: map<Space, Hash>, sp: Space)
    requires Prepared(tx, ids)
    ensures EpochsOf(CommitTables(db, tx, ids), sp) ==
            if sp in tx.batch then EpochsOf(db, sp)[ids[sp] := Epoch(tx.seqs[sp], tx.tips[sp])] else EpochsOf(db, sp)
    ensures CommitTables(db, tx, ids).events == db.events + NewRows(tx, ids)
  {
  }

  lemma CommitRowsKeyed(db: Tables, tx: Tx, ids: map<Space, Hash>, sp: Space)
    requires Prepared(tx, ids) && SpaceOk(db, sp) && (forall sp :: sp in ids ==> ids[sp] !in EpochsOf(db, sp))
    ensures RowsKeyed(CommitTables(db, tx, ids).events, sp)
  {
    hide Covered, LinksStored, EpochsNumbered;
  }

  lemma CommitEpochsNumbered(db: Tables, tx: Tx, ids: map<Space, Hash>, sp: Space)
    requires Prepared(tx, ids) && EpochsNumbered(EpochsOf(db, sp), db.events, sp)
    requires (sp in tx.batch ==> tx.batch[sp] != [])
    ensures EpochsNumbered(EpochsOf(CommitTables(db, tx, ids), sp), CommitTables(db, tx, ids).events, sp)
  {
    CommitEpochs(db, tx, ids, sp);
    if sp in tx.batch {
      NewEpochRow(tx, ids, sp);
    }
    hide CommitTables, NewRows, EpochsOf;
  }

  lemma CommitRowsNumbered(db: Tables, tx: Tx, ids: map<Space, Hash>, sp: Space)
    requires Prepared(tx, ids) && RowsNumbered(EpochsOf(db, sp), db.events, sp)
    requires forall sp :: sp in ids ==> ids[sp] !in EpochsOf(db, sp)
    ensures RowsNumbered(EpochsOf(CommitTables(db, tx, ids), sp), CommitTables(db, tx, ids).events, sp)
  {
    CommitEpochs(db, tx, ids, sp);
    hide CommitTables, EpochsOf;
  }

  lemma CommitKeepsSpace(db: Tables, tx: Tx, ids: map<Space, Hash>, sp: Space)
    requires Prepared(tx, ids) && SpaceOk(db, sp)
    requires (sp in tx.batch ==> tx.batch[sp] != [] && tx.tips[sp] <= EpochsOf(db, sp).Keys)
    requires forall sp :: sp in ids ==> ids[sp] !in EpochsOf(db, sp)
    ensures SpaceOk(CommitTables(db, tx, ids), sp)
  {
    CommitRowsKeyed(db, tx, ids, sp);
    CommitEpochsNumbered(db, tx, ids, sp);
    CommitRowsNumbered(db, tx, ids, sp);
    CommitEpochs(db, tx, ids, sp);
    hide CommitTables, RowsKeyed, EpochsNumbered, RowsNumbered, Covered, LinksStored, EpochsOf;
    if sp in tx.batch {
      LinksMove(EpochsOf(db, sp), ids[sp], Epoch(tx.seqs[sp], tx.tips[sp]));
      CoverMoves(EpochsOf(db, sp), ids[sp], Epoch(tx.seqs[sp], tx.tips[sp]));
    }
  }

  lemma CommitExtends(db: Tables, tx: Tx, ids: map<Space, Hash>)
    requires Prepared(tx, ids) && forall sp :: sp in ids ==> ids[sp] !in EpochsOf(db, sp)
    ensures Extends(db, CommitTables(db, tx, ids))
  {
  }

  lemma TxStaysOk(db: Tables, db': Tables, tx: Tx)
    requires TxOk(db, tx) && Extends(db, db')
    ensures TxOk(db', tx)
  {
    hide SpaceOk;
    assert Extends(tx.view, db');
  }

  lemma EventKeepsStructure(iso: Isolation, s: State, e: Event)
    requires Structured(s) && Enabled(s, e)
    ensures Structured(Apply(iso, s, e))
  {
    hide SpaceOk;
    var s' := Apply(iso, s, e);
    match e
    case Commit(t, ids) =>
      var tx := s.txs[t];
      forall sp ensures SpaceOk(s'.db, sp) {
        CommitKeepsSpace(s.db, tx, ids, sp);
      }
      CommitExtends(s.db, tx, ids);
      hide Extends, CommitTables, Prepared;
      forall u | u in s'.txs ensures TxOk(s'.db, s'.txs[u]) {
        TxStaysOk(s.db, s'.db, s.txs[u]);
      }
    case _ =>
  }

  lemma {:induction false} RunKeepsStructure(iso: Isolation, states: seq<State>, events: seq<Event>, i: nat)
    requires IsRun(iso, states, events) && i <= |events|
    ensures Structured(states[i])
  {
    hide Structured, Apply, Enabled;
    if i == 0 {
      InitStructured();
    } else {
      RunKeepsStructure(iso, states, events, i - 1);
      EventKeepsStructure(iso, states[i - 1], events[i - 1]);
    }
  }

  lemma InitStructured()
    ensures Structured(INIT)
  {
  }

  /** At any isolation level, a commit consumes exactly the tips it read and becomes a tip itself. */
  lemma CommitMovesTips(iso: Isolation, states: seq<State>, events: seq<Event>, i: nat, sp: Space)
    requires IsRun(iso, states, events) && i < |events| && events[i].Commit? && sp in events[i].ids
    ensures var tx, id := states[i].txs[events[i].t], events[i].ids[sp];
            && id !in Tips(EpochsOf(states[i].db, sp))
            && Tips(EpochsOf(states[i + 1].db, sp)) == Tips(EpochsOf(states[i].db, sp)) - tx.tips[sp] + {id}
  {
    RunKeepsStructure(iso, states, events, i);
    var s, t, ids := states[i], events[i].t, events[i].ids;
    assert SpaceOk(s.db, sp) && TxOk(s.db, s.txs[t]) && Enabled(s, events[i]);
    CommitEpochs(s.db, s.txs[t], ids, sp);
    TipsMove(EpochsOf(s.db, sp), ids[sp], Epoch(s.txs[t].seqs[sp], s.txs[t].tips[sp]));
  }

  /** At any isolation level, every epoch is a tip or an ancestor of one. */
  lemma EveryEpochUnderTip(iso: Isolation, states: seq<State>, events: seq<Event>, i: nat, sp: Space, e: Hash)
    requires IsRun(iso, states, events) && i <= |events| && e in EpochsOf(states[i].db, sp)
    ensures exists t :: t in Tips(EpochsOf(states[i].db, sp)) && e in Reach(DagOf(EpochsOf(states[i].db, sp)), {t})
  {
    RunKeepsStructure(iso, states, events, i);
    assert SpaceOk(states[i].db, sp);
  }

  // ---- What needs one snapshot ----

  /** Every epoch has a greater number than its parents. */
  ghost predicate Increasing(es: Epochs) {
    forall e, p :: e in es && p in es[e].parents ==> p in es && es[p].seqNo < es[e].seqNo
  }

  ghost predicate AllIncrease(db: Tables) {
    forall sp :: Increasing(EpochsOf(db, sp))
  }

  ghost predicate TxAhead(tx: Tx) {
    && (tx.phase.Numbered? || tx.phase.Linked? ==>
          forall sp, e :: sp in tx.seqs && e in EpochsOf(tx.view, sp) ==> EpochsOf(tx.view, sp)[e].seqNo < tx.seqs[sp])
    && (tx.phase.Linked? ==> forall sp :: sp in tx.tips ==> tx.tips[sp] <= EpochsOf(tx.view, sp).Keys)
  }

  ghost predicate Ahead(s: State) {
    AllIncrease(s.db) && forall t :: t in s.txs ==> TxAhead(s.txs[t])
  }

  lemma {:induction false} ReadSeqsAhead(view: Tables, sp: Space, e: Hash)
    requires SpaceOk(view, sp) && e in EpochsOf(view, sp)
    ensures EpochsOf(view, sp)[e].seqNo < NextSeq(view.events, sp)
  {
  }

  lemma IncreaseMoves(es: Epochs, id: Hash, epoch: Epoch)
    requires Increasing(es) && id !in es && forall p :: p in epoch.parents ==> p in es && es[p].seqNo < epoch.seqNo
    ensures Increasing(es[id := epoch])
  {
  }

  lemma CommitIncreases(db: Tables, tx: Tx, ids: map<Space, Hash>, sp: Space)
    requires Prepared(tx, ids) && Extends(tx.view, db) && TxAhead(tx) && tx.phase.Linked?
    requires forall sp :: sp in ids ==> ids[sp] !in EpochsOf(db, sp)
    requires Increasing(EpochsOf(db, sp))
    ensures Increasing(EpochsOf(CommitTables(db, tx, ids), sp))
  {
    CommitEpochs(db, tx, ids, sp);
    hide CommitTables, EpochsOf;
    if sp in tx.batch {
      hide Increasing;
      IncreaseMoves(EpochsOf(db, sp), ids[sp], Epoch(tx.seqs[sp], tx.tips[sp]));
    }
  }

  lemma EventStaysAhead(s: State, e: Event)
    requires Structured(s) && Ahead(s) && Enabled(s, e)
    ensures Ahead(Apply(Snapshot, s, e))
  {
    hide SpaceOk;
    var s' := Apply(Snapshot, s, e);
    match e
    case ReadSeqs(t) =>
      forall sp, x | sp in s'.txs[t].seqs && x in EpochsOf(s.txs[t].view, sp)
        ensures EpochsOf(s.txs[t].view, sp)[x].seqNo < s'.txs[t].seqs[sp]
      {
        ReadSeqsAhead(s.txs[t].view, sp, x);
      }
    case Commit(t, ids) =>
      assert TxOk(s.db, s.txs[t]) && TxAhead(s.txs[t]);
      forall sp ensures Increasing(EpochsOf(s'.db, sp)) {
        CommitIncreases(s.db, s.txs[t], ids, sp);
      }
    case _ =>
  }

  lemma {:induction false} RunStaysAhead(states: seq<State>, events: seq<Event>, i: nat)
    requires IsRun(Snapshot, states, events) && i <= |events|
    ensures Ahead(states[i])
  {
    hide Structured, Apply, Enabled, TxAhead, Increasing;
    if i > 0 {
      RunStaysAhead(states, events, i - 1);
      RunKeepsStructure(Snapshot, states, events, i - 1);
      EventStaysAhead(states[i - 1], events[i - 1]);
    } else {
      InitAhead();
    }
  }

  lemma InitAhead()
    ensures Ahead(INIT)
  {
  }

  /** The proper ancestors of an epoch have smaller numbers. */
  lemma AncestorsAreLower(es: Epochs, e: Hash, a: Hash)
    requires Increasing(es) && e in es && a in Reach(DagOf(es), Parents(DagOf(es), e))
    ensures a in es && es[a].seqNo < es[e].seqNo
  {
    var lower := set x | x in es && es[x].seqNo < es[e].seqNo;
    ReachLeast(DagOf(es), Parents(DagOf(es), e), lower);
  }

  /** Reading from one snapshot, every epoch is numbered above all its ancestors, in every run. */
  lemma SeqsRespectAncestry(states: seq<State>, events: seq<Event>, i: nat, sp: Space, e: Hash, a: Hash)
    requires IsRun(Snapshot, states, events) && i <= |events| && e in EpochsOf(states[i].db, sp)
    requires a in Reach(DagOf(EpochsOf(states[i].db, sp)), Parents(DagOf(EpochsOf(states[i].db, sp)), e))
    ensures a in EpochsOf(states[i].db, sp) && a != e
    ensures EpochsOf(states[i].db, sp)[a].seqNo < EpochsOf(states[i].db, sp)[e].seqNo
  {
    RunStaysAhead(states, events, i);
    assert Increasing(EpochsOf(states[i].db, sp));
    AncestorsAreLower(EpochsOf(states[i].db, sp), e, a);
  }

  /** The events of an ancestor come first in the order of `(seq, epoch, epoch_seq)`. */
  lemma OrderExtendsDag(states: seq<State>, events: seq<Event>, i: nat, sp: Space, r: EventOrder, q: EventOrder)
    requires IsRun(Snapshot, states, events) && i <= |events|
    requires r in states[i].db.events && q in states[i].db.events && r.space == q.space == sp
    requires var g := DagOf(EpochsOf(states[i].db, sp)); r.version.epoch in Reach(g, Parents(g, q.version.epoch))
    ensures VersionLess(r.version, q.version)
  {
    RunKeepsStructure(Snapshot, states, events, i);
    assert SpaceOk(states[i].db, sp);
    hide Covered, LinksStored, Reach, Structured;
    SeqsRespectAncestry(states, events, i, sp, q.version.epoch, r.version.epoch);
  }

  /** That order is strict and total on the event rows of a space. */
  lemma OrderIsTotal(iso: Isolation, states: seq<State>, events: seq<Event>, i: nat, sp: Space, r: EventOrder,
      q: EventOrder)
    requires IsRun(iso, states, events) && i <= |events|
    requires r in states[i].db.events && q in states[i].db.events && r.space == q.space == sp && r != q
    ensures VersionLess(r.version, q.version) <==> !VersionLess(q.version, r.version)
  {
    assert RowsKeyed(states[i].db.events, sp) by {
      RunKeepsStructure(iso, states, events, i);
      assert SpaceOk(states[i].db, sp);
    }
    hide IsRun;
  }

  lemma SpaceStaysOk(states: seq<State>, events: seq<Event>, i: nat, sp: Space)
    requires IsRun(ReadCommitted, states, events) && i <= |events|
    ensures SpaceOk(states[i].db, sp)
  {
    RunKeepsStructure(ReadCommitted, states, events, i);
  }

  /** Event `m` adds the epoch `p` to the space while transaction `t` is between its two reads. */
  predicate CommittedInGap(states: seq<State>, events: seq<Event>, m: nat, t: nat, sp: Space, p: Hash) {
    && m < |events| && m < |states|
    && events[m].Commit? && sp in events[m].ids && events[m].ids[sp] == p
    && t in states[m].txs && states[m].txs[t].phase == Numbered && sp in states[m].txs[t].batch
  }

  /** One transaction reads its numbers at event `r` and commits to the space at event `k`. */
  predicate ReadsThenCommits(events: seq<Event>, r: nat, k: nat, sp: Space) {
    r < k < |events| && events[k].Commit? && sp in events[k].ids && events[r] == ReadSeqs(events[k].t)
  }

  /**
   Going by the order of events alone, the greatest number of the space rises between two points: some
   commit lies between them whose number was read after the first, or before it with no rise in between.
   */
  ghost predicate Raised(events: seq<Event>, i: nat, j: nat, sp: Space)
    requires i <= j <= |events|
    decreases j
  {
    exists r: nat, k: nat ::
      i <= k < j && ReadsThenCommits(events, r, k, sp) && (r >= i || !Raised(events, r, i, sp))
  }

  /** The number of commit `m` was read after that of commit `k`, or before it with no rise in between. */
  ghost predicate NumberedNoLower(events: seq<Event>, m: nat, k: nat, sp: Space) {
    exists q: nat, r: nat ::
      && ReadsThenCommits(events, q, m, sp) && ReadsThenCommits(events, r, k, sp)
      && (q >= r || !Raised(events, q, r, sp))
  }

  /** Commit `k` links its epoch to one that came in between its two reads and whose number is, by then, no lower. */
  ghost predicate Overtaken(states: seq<State>, events: seq<Event>, k: nat, sp: Space) {
    && k < |events| && k < |states| && events[k].Commit? && sp in events[k].ids && events[k].t in states[k].txs
    && var tx := states[k].txs[events[k].t];
    && sp in tx.tips
    && exists p, m: nat ::
         && m < k && CommittedInGap(states, events, m, events[k].t, sp, p)
         && p in tx.tips[sp] && NumberedNoLower(events, m, k, sp)
  }

  /** The same by the stored numbers. */
  ghost predicate LinksNoLower(states: seq<State>, events: seq<Event>, k: nat, sp: Space) {
    && k < |events| && k < |states| && events[k].Commit? && sp in events[k].ids && events[k].t in states[k].txs
    && var tx, es := states[k].txs[events[k].t], EpochsOf(states[k].db, sp);
    && sp in tx.tips && sp in tx.seqs
    && exists p, m: nat :: m < k && CommittedInGap(states, events, m, events[k].t, sp, p)
                      && p in tx.tips[sp] && p in es && es[p].seqNo >= tx.seqs[sp]
  }

  /** What a transaction has read of a space is numbered below it, or came in between its reads. */
  ghost predicate BelowOrGap(states: seq<State>, events: seq<Event>, i: nat, t: nat, sp: Space, e: Hash, seqNo: int)
    requires i < |states|
  {
    && e in EpochsOf(states[i].db, sp)
    && (|| EpochsOf(states[i].db, sp)[e].seqNo < seqNo
        || exists m: nat :: m < i && CommittedInGap(states, events, m, t, sp, e))
  }

  ghost predicate TxBelow(states: seq<State>, events: seq<Event>, i: nat, t: nat, sp: Space)
    requires i < |states| && t in states[i].txs
  {
    var tx, es := states[i].txs[t], EpochsOf(states[i].db, sp);
    && (tx.phase.Numbered? && sp in tx.seqs ==>
          sp in tx.batch && forall e :: e in es ==> BelowOrGap(states, events, i, t, sp, e, tx.seqs[sp]))
    && (tx.phase.Linked? && sp in tx.seqs && sp in tx.tips ==>
          forall p :: p in tx.tips[sp] ==> BelowOrGap(states, events, i, t, sp, p, tx.seqs[sp]))
  }

  /** What holds of an epoch stays true of it. */
  lemma BelowStays(states: seq<State>, events: seq<Event>, i: nat, t: nat, sp: Space, e: Hash, seqNo: int)
    requires i + 1 < |states| && BelowOrGap(states, events, i, t, sp, e, seqNo)
    requires e in EpochsOf(states[i + 1].db, sp) && EpochsOf(states[i + 1].db, sp)[e] == EpochsOf(states[i].db, sp)[e]
    ensures BelowOrGap(states, events, i + 1, t, sp, e, seqNo)
  {
    hide CommittedInGap, EpochsOf;
  }

  lemma CommitKeepsBelow(states: seq<State>, events: seq<Event>, i: nat, t: nat, sp: Space)
    requires IsRun(ReadCommitted, states, events) && i < |events| && events[i].Commit? && t in states[i + 1].txs
    requires t in states[i].txs && TxBelow(states, events, i, t, sp)
    ensures TxBelow(states, events, i + 1, t, sp)
  {
    var s, u, ids := states[i], events[i].t, events[i].ids;
    assert Enabled(s, events[i]) && states[i + 1] == Apply(ReadCommitted, s, events[i]);
    CommitEpochs(s.db, s.txs[u], ids, sp);
    hide IsRun, CommitTables, EpochsOf;
    var tx, es := s.txs[t], EpochsOf(states[i + 1].db, sp);
    if t != u {
      forall e |
          && e in es && sp in tx.seqs
          && (tx.phase.Numbered? || (tx.phase.Linked? && sp in tx.tips && e in tx.tips[sp]))
        ensures BelowOrGap(states, events, i + 1, t, sp, e, tx.seqs[sp])
      {
        if e in EpochsOf(s.db, sp) {
          BelowStays(states, events, i, t, sp, e, tx.seqs[sp]);
        } else {
          assert CommittedInGap(states, events, i, t, sp, e);
        }
      }
      forall p | tx.phase.Linked? && sp in tx.seqs && sp in tx.tips && p in tx.tips[sp] ensures p in es {
        assert BelowOrGap(states, events, i, t, sp, p, tx.seqs[sp]);
      }
    }
  }

  lemma ReadsKeepBelow(states: seq<State>, events: seq<Event>, i: nat, t: nat, sp: Space)
    requires IsRun(ReadCommitted, states, events) && i < |events| && !events[i].Commit? && t in states[i + 1].txs
    requires t in states[i].txs ==> TxBelow(states, events, i, t, sp)
    ensures TxBelow(states, events, i + 1, t, sp)
  {
    assert SpaceOk(states[i].db, sp) by { SpaceStaysOk(states, events, i, sp); }
    assert Enabled(states[i], events[i]) && states[i + 1] == Apply(ReadCommitted, states[i], events[i]);
    hide IsRun, SpaceOk, TxBelow, Apply;
    if events[i] == ReadSeqs(t) {
      ReadSeqsBelow(states, events, i, t, sp);
    } else if t in states[i].txs {
      ReadTipsKeeps(states, events, i, t, sp);
    } else {
      OpenedBelow(states, events, i, t, sp);
    }
  }

  lemma ReadSeqsBelow(states: seq<State>, events: seq<Event>, i: nat, t: nat, sp: Space)
    requires i + 1 < |states| && i < |events| && Enabled(states[i], ReadSeqs(t)) && SpaceOk(states[i].db, sp)
    requires states[i + 1] == Apply(ReadCommitted, states[i], ReadSeqs(t))
    ensures TxBelow(states, events, i + 1, t, sp)
  {
    hide SpaceOk, NextSeq, EpochsOf;
    var db := states[i].db;
    forall x | x in EpochsOf(db, sp) ensures EpochsOf(db, sp)[x].seqNo < NextSeq(db.events, sp) {
      ReadSeqsAhead(db, sp, x);
    }
  }

  lemma OpenedBelow(states: seq<State>, events: seq<Event>, i: nat, t: nat, sp: Space)
    requires i + 1 < |states| && i < |events| && Enabled(states[i], events[i]) && t !in states[i].txs
    requires states[i + 1] == Apply(ReadCommitted, states[i], events[i]) && t in states[i + 1].txs
    ensures TxBelow(states, events, i + 1, t, sp)
  {
    hide BelowOrGap, NextSeq, Tips, CommitTables;
  }

  lemma ReadTipsKeeps(states: seq<State>, events: seq<Event>, i: nat, t: nat, sp: Space)
    requires i + 1 < |states| && i < |events| && Enabled(states[i], events[i])
    requires states[i + 1] == Apply(ReadCommitted, states[i], events[i]) && !events[i].Commit?
    requires events[i] != ReadSeqs(t)
    requires t in states[i].txs && TxBelow(states, events, i, t, sp)
    ensures TxBelow(states, events, i + 1, t, sp)
  {
    var s, s' := states[i], states[i + 1];
    var tx := s'.txs[t];
    assert s'.db == s.db;
    forall e | e in EpochsOf(s.db, sp) && sp in tx.seqs && BelowOrGap(states, events, i, t, sp, e, tx.seqs[sp])
      ensures BelowOrGap(states, events, i + 1, t, sp, e, tx.seqs[sp])
    {
      BelowStays(states, events, i, t, sp, e, tx.seqs[sp]);
    }
    hide BelowOrGap;
  }

  lemma {:induction false} RunStaysBelow(states: seq<State>, events: seq<Event>, i: nat, t: nat, sp: Space)
    requires IsRun(ReadCommitted, states, events) && i <= |events| && t in states[i].txs
    ensures TxBelow(states, events, i, t, sp)
    decreases i
  {
    if i > 0 {
      if t in states[i - 1].txs {
        RunStaysBelow(states, events, i - 1, t, sp);
      }
      if events[i - 1].Commit? {
        assert Enabled(states[i - 1], events[i - 1]) && states[i] == Apply(ReadCommitted, states[i - 1], events[i - 1]);
        CommitKeepsBelow(states, events, i - 1, t, sp);
      } else {
        ReadsKeepBelow(states, events, i - 1, t, sp);
      }
    }
  }

  /** A commit that links only to lower numbers keeps the numbers of a space growing. */
  lemma CommitGrows(states: seq<State>, events: seq<Event>, k: nat, sp: Space)
    requires IsRun(ReadCommitted, states, events) && k < |events| && !LinksNoLower(states, events, k, sp)
    requires Increasing(EpochsOf(states[k].db, sp))
    ensures Increasing(EpochsOf(states[k + 1].db, sp))
  {
    var s, e := states[k], events[k];
    assert Enabled(s, e) && states[k + 1] == Apply(ReadCommitted, s, e);
    if e.Commit? {
      var tx, es := s.txs[e.t], EpochsOf(s.db, sp);
      CommitEpochs(s.db, tx, e.ids, sp);
      RunStaysBelow(states, events, k, e.t, sp);
      hide CommitTables, IsRun, EpochsOf;
      if sp in e.ids {
        forall p | p in tx.tips[sp] ensures p in es && es[p].seqNo < tx.seqs[sp] {
          assert BelowOrGap(states, events, k, e.t, sp, p, tx.seqs[sp]);
        }
        IncreaseMoves(es, e.ids[sp], Epoch(tx.seqs[sp], tx.tips[sp]));
      }
    } else {
      assert states[k + 1].db == s.db;
    }
  }

  lemma LinkShrinks(states: seq<State>, events: seq<Event>, k: nat, sp: Space)
    requires IsRun(ReadCommitted, states, events) && k < |events| && LinksNoLower(states, events, k, sp)
    ensures !Increasing(EpochsOf(states[k + 1].db, sp))
  {
    var s, e := states[k], events[k];
    assert Enabled(s, e) && states[k + 1] == Apply(ReadCommitted, s, e);
    hide IsRun, CommittedInGap, EpochsOf;
    var tx, es := s.txs[e.t], EpochsOf(s.db, sp);
    var p, m: nat :| m < k && CommittedInGap(states, events, m, e.t, sp, p)
      && p in tx.tips[sp] && p in es && es[p].seqNo >= tx.seqs[sp];
    hide LinksNoLower;
    CommitEpochs(s.db, tx, e.ids, sp);
    hide CommitTables;
    LinkedAbove(es, e.ids[sp], Epoch(tx.seqs[sp], tx.tips[sp]), p);
  }

  lemma LinkedAbove(es: Epochs, id: Hash, epoch: Epoch, p: Hash)
    requires id !in es && p in epoch.parents && p in es && es[p].seqNo >= epoch.seqNo
    ensures !Increasing(es[id := epoch])
  {
    var es' := es[id := epoch];
    assert id in es' && p in es'[id].parents && es'[p] == es[p];
  }

  // ---- Numbers by the order of events ----

  lemma StepGrows(s: State, e: Event)
    requires Enabled(s, e)
    ensures s.db.events <= Apply(ReadCommitted, s, e).db.events && Extends(s.db, Apply(ReadCommitted, s, e).db)
  {
    if e.Commit? {
      CommitExtends(s.db, s.txs[e.t], e.ids);
    }
    hide EpochsOf, NewRows;
  }

  lemma {:induction false} RunGrows(states: seq<State>, events: seq<Event>, i: nat, j: nat)
    requires IsRun(ReadCommitted, states, events) && i <= j <= |events|
    ensures states[i].db.events <= states[j].db.events && Extends(states[i].db, states[j].db)
    decreases j
  {
    if i < j {
      RunGrows(states, events, i, j - 1);
      assert Enabled(states[j - 1], events[j - 1]);
      StepGrows(states[j - 1], events[j - 1]);
      hide Apply, Enabled, EpochsOf;
    }
  }

  lemma {:induction false} NumbersGrow(states: seq<State>, events: seq<Event>, i: nat, j: nat, sp: Space)
    requires IsRun(ReadCommitted, states, events) && i <= j <= |events|
    ensures NextSeq(states[i].db.events, sp) <= NextSeq(states[j].db.events, sp)
  {
    RunGrows(states, events, i, j);
    hide IsRun, Extends;
  }

  /** A transaction keeps the numbers it has read, and reads them once. */
  lemma {:induction false} NumbersKept(states: seq<State>, events: seq<Event>, r: nat, i: nat, t: nat)
    requires IsRun(ReadCommitted, states, events) && r < i <= |events| && events[r] == ReadSeqs(t)
    ensures t in states[i].txs && states[i].txs[t].phase != Started
    ensures forall sp :: sp in states[i].txs[t].seqs ==>
              states[i].txs[t].seqs[sp] == NextSeq(states[r].db.events, sp)
    decreases i
  {
    assert Enabled(states[i - 1], events[i - 1]) && states[i] == Apply(ReadCommitted, states[i - 1], events[i - 1]);
    hide Enabled, Apply, NextSeq;
    if r < i - 1 {
      NumbersKept(states, events, r, i - 1, t);
      KeepsNumbers(states[i - 1], events[i - 1], t);
    } else {
      ReadsNumbers(states[r], t);
    }
  }

  lemma KeepsNumbers(s: State, e: Event, t: nat)
    requires Enabled(s, e) && t in s.txs && s.txs[t].phase != Started
    ensures var s' := Apply(ReadCommitted, s, e);
            t in s'.txs && s'.txs[t].phase != Started && s'.txs[t].seqs == s.txs[t].seqs
  {
    hide NextSeq, Tips, CommitTables;
  }

  lemma ReadsNumbers(s: State, t: nat)
    requires Enabled(s, ReadSeqs(t))
    ensures var s' := Apply(ReadCommitted, s, ReadSeqs(t));
            && t in s'.txs && s'.txs[t].phase != Started
            && forall sp :: sp in s'.txs[t].seqs ==> s'.txs[t].seqs[sp] == NextSeq(s.db.events, sp)
  {
    hide NextSeq;
  }

  lemma {:induction false} NumbersWereRead(states: seq<State>, events: seq<Event>, i: nat, t: nat) returns (r: nat)
    requires IsRun(ReadCommitted, states, events) && i <= |events| && t in states[i].txs
    requires states[i].txs[t].phase == Numbered || states[i].txs[t].phase == Linked
    ensures r < i && events[r] == ReadSeqs(t)
    decreases i
  {
    assert i > 0;
    assert Enabled(states[i - 1], events[i - 1]) && states[i] == Apply(ReadCommitted, states[i - 1], events[i - 1]);
    if events[i - 1] == ReadSeqs(t) {
      r := i - 1;
    } else {
      StillReading(states[i - 1], events[i - 1], t);
      r := NumbersWereRead(states, events, i - 1, t);
    }
  }

  lemma StillReading(s: State, e: Event, t: nat)
    requires Enabled(s, e) && e != ReadSeqs(t) && t in Apply(ReadCommitted, s, e).txs
    requires var tx := Apply(ReadCommitted, s, e).txs[t]; tx.phase == Numbered || tx.phase == Linked
    ensures t in s.txs && (s.txs[t].phase == Numbered || s.txs[t].phase == Linked)
  {
    hide NextSeq, Tips, CommitTables;
  }

  /** The number a commit carries is the one its read found. */
  lemma {:induction false} CommitNumber(states: seq<State>, events: seq<Event>, r: nat, k: nat, sp: Space)
    requires IsRun(ReadCommitted, states, events) && ReadsThenCommits(events, r, k, sp)
    ensures events[k].t in states[k].txs && sp in states[k].txs[events[k].t].seqs
    ensures states[k].txs[events[k].t].seqs[sp] == NextSeq(states[r].db.events, sp)
  {
    assert Enabled(states[k], events[k]);
    NumbersKept(states, events, r, k, events[k].t);
    hide IsRun, NextSeq;
  }

  lemma CommitWasRead(states: seq<State>, events: seq<Event>, k: nat, sp: Space) returns (r: nat)
    requires IsRun(ReadCommitted, states, events) && k < |events| && events[k].Commit? && sp in events[k].ids
    ensures ReadsThenCommits(events, r, k, sp)
  {
    assert Enabled(states[k], events[k]);
    r := NumbersWereRead(states, events, k, events[k].t);
  }

  /** A commit leaves an epoch and a row with its number. */
  lemma {:induction false} CommitLeaves(states: seq<State>, events: seq<Event>, k: nat, sp: Space)
    requires IsRun(ReadCommitted, states, events) && k < |events| && events[k].Commit? && sp in events[k].ids
    ensures events[k].t in states[k].txs && sp in states[k].txs[events[k].t].seqs
    ensures var n, es := states[k].txs[events[k].t].seqs[sp], EpochsOf(states[k + 1].db, sp);
            && events[k].ids[sp] in es && es[events[k].ids[sp]].seqNo == n
            && NextSeq(states[k + 1].db.events, sp) > n
  {
    var s, e := states[k], events[k];
    RunKeepsStructure(ReadCommitted, states, events, k);
    assert Enabled(s, e) && states[k + 1] == Apply(ReadCommitted, s, e);
    var tx := s.txs[e.t];
    assert TxOk(s.db, tx);
    CommitEpochs(s.db, tx, e.ids, sp);
    NewEpochRow(tx, e.ids, sp);
    hide IsRun, NextSeq, CommitTables, EpochsOf, Structured, TxOk, NewRows;
  }

  /** The event is a commit to the row's space under the row's number. */
  predicate Adds(s: State, e: Event, row: EventOrder) {
    && e.Commit? && row.space in e.ids && e.t in s.txs
    && row.space in s.txs[e.t].seqs && s.txs[e.t].seqs[row.space] == row.version.seqNo
  }

  lemma RowIsNew(s: State, e: Event, row: EventOrder)
    requires Enabled(s, e) && row in Apply(ReadCommitted, s, e).db.events && row !in s.db.events
    ensures Adds(s, e, row)
  {
    hide EpochsOf;
  }

  /** A row that was not there at first was added by a commit in between. */
  lemma {:induction false} RowWasAdded(states: seq<State>, events: seq<Event>, i: nat, j: nat, row: EventOrder)
      returns (k: nat)
    requires IsRun(ReadCommitted, states, events) && i <= j <= |events|
    requires row in states[j].db.events && row !in states[i].db.events
    ensures i <= k < j && Adds(states[k], events[k], row)
    decreases j
  {
    assert Enabled(states[j - 1], events[j - 1]) && states[j] == Apply(ReadCommitted, states[j - 1], events[j - 1]);
    RunLength(states, events);
    hide IsRun, Enabled, Apply, Adds;
    if row in states[j - 1].db.events {
      k := RowWasAdded(states, events, i, j - 1, row);
    } else {
      k := j - 1;
      RowIsNew(states[k], events[k], row);
    }
  }

  /** The order of events decides whether the greatest number has risen. */
  lemma {:induction false} RaisedIff(states: seq<State>, events: seq<Event>, i: nat, j: nat, sp: Space)
    requires IsRun(ReadCommitted, states, events) && i <= j <= |events|
    ensures Raised(events, i, j, sp) <==> NextSeq(states[j].db.events, sp) > NextSeq(states[i].db.events, sp)
    decreases j
  {
    RunLength(states, events);
    hide IsRun, NextSeq, ReadsThenCommits;
    if Raised(events, i, j, sp) {
      var r: nat, k: nat :| i <= k < j && ReadsThenCommits(events, r, k, sp) && (r >= i || !Raised(events, r, i, sp));
      RaisingCommit(states, events, i, j, r, k, sp);
    }
    if NextSeq(states[j].db.events, sp) > NextSeq(states[i].db.events, sp) {
      var r, k := RisenBy(states, events, i, j, sp);
      if r < i {
        RaisedIff(states, events, r, i, sp);
      }
    }
  }

  lemma {:induction false} RaisingCommit(states: seq<State>, events: seq<Event>, i: nat, j: nat, r: nat, k: nat,
      sp: Space)
    requires IsRun(ReadCommitted, states, events) && i <= k < j <= |events|
    requires ReadsThenCommits(events, r, k, sp) && (r >= i || !Raised(events, r, i, sp))
    ensures NextSeq(states[j].db.events, sp) > NextSeq(states[i].db.events, sp)
    decreases j, 0
  {
    hide IsRun, NextSeq, Raised;
    if r >= i {
      NumbersGrow(states, events, i, r, sp);
    } else {
      RaisedIff(states, events, r, i, sp);
    }
    assert events[k].Commit? && sp in events[k].ids;
    CommitNumber(states, events, r, k, sp);
    CommitLeaves(states, events, k, sp);
    NumbersGrow(states, events, k + 1, j, sp);
  }

  lemma RisenBy(states: seq<State>, events: seq<Event>, i: nat, j: nat, sp: Space) returns (r: nat, k: nat)
    requires IsRun(ReadCommitted, states, events) && i <= j <= |events|
    requires NextSeq(states[j].db.events, sp) > NextSeq(states[i].db.events, sp)
    ensures i <= k < j && ReadsThenCommits(events, r, k, sp)
    ensures NextSeq(states[r].db.events, sp) >= NextSeq(states[i].db.events, sp)
  {
    var row := TopRow(states[j].db.events, sp);
    NotInEarlier(states[i].db.events, sp, row);
    k := RowWasAdded(states, events, i, j, row);
    r := CommitWasRead(states, events, k, sp);
    CommitNumber(states, events, r, k, sp);
  }

  lemma TopRow(rows: set<EventOrder>, sp: Space) returns (row: EventOrder)
    requires NextSeq(rows, sp) > 0
    ensures row in rows && row.space == sp && row.version.seqNo == NextSeq(rows, sp) - 1
  {
    row :| row in rows && row.space == sp && row.version.seqNo == NextSeq(rows, sp) - 1;
  }

  lemma {:induction false} NotInEarlier(rows: set<EventOrder>, sp: Space, row: EventOrder)
    requires row.space == sp && row.version.seqNo >= NextSeq(rows, sp)
    ensures row !in rows
  {
  }

  /** A commit in the gap keeps its epoch and number until the linking commit. */
  lemma GapNumber(states: seq<State>, events: seq<Event>, m: nat, k: nat, sp: Space, p: Hash)
    requires IsRun(ReadCommitted, states, events) && m < k < |events|
    requires CommittedInGap(states, events, m, events[k].t, sp, p) && events[k].Commit? && sp in events[k].ids
    ensures events[k].t in states[k].txs && sp in states[k].txs[events[k].t].seqs && p in EpochsOf(states[k].db, sp)
    ensures EpochsOf(states[k].db, sp)[p].seqNo >= states[k].txs[events[k].t].seqs[sp] <==>
            NumberedNoLower(events, m, k, sp)
  {
    hide IsRun, NextSeq, Raised;
    RunLength(states, events);
    var q := CommitWasRead(states, events, m, sp);
    var r := CommitWasRead(states, events, k, sp);
    CommitNumber(states, events, r, k, sp);
    KeptEpoch(states, events, m, k, sp);
    forall x: nat, y: nat | ReadsThenCommits(events, x, m, sp) && ReadsThenCommits(events, y, k, sp)
      ensures (x >= y || !Raised(events, x, y, sp)) <==>
              EpochsOf(states[k].db, sp)[p].seqNo >= states[k].txs[events[k].t].seqs[sp]
    {
      CommitNumber(states, events, x, m, sp);
      CommitNumber(states, events, y, k, sp);
      NoLowerIff(states, events, x, y, sp);
    }
    hide ReadsThenCommits, EpochsOf, CommittedInGap;
  }

  lemma KeptEpoch(states: seq<State>, events: seq<Event>, m: nat, k: nat, sp: Space)
    requires IsRun(ReadCommitted, states, events) && m < k < |events| && events[m].Commit? && sp in events[m].ids
    ensures events[m].t in states[m].txs && sp in states[m].txs[events[m].t].seqs
    ensures var p, es := events[m].ids[sp], EpochsOf(states[k].db, sp);
            p in es && es[p].seqNo == states[m].txs[events[m].t].seqs[sp]
  {
    CommitLeaves(states, events, m, sp);
    RunGrows(states, events, m + 1, k);
    hide IsRun, NextSeq, EpochsOf;
  }

  lemma {:induction false} NoLowerIff(states: seq<State>, events: seq<Event>, x: nat, y: nat, sp: Space)
    requires IsRun(ReadCommitted, states, events) && x <= |events| && y <= |events|
    ensures (x >= y || !Raised(events, x, y, sp)) <==>
            NextSeq(states[x].db.events, sp) >= NextSeq(states[y].db.events, sp)
  {
    hide IsRun, NextSeq, Raised;
    if x >= y {
      NumbersGrow(states, events, y, x, sp);
    } else {
      RaisedIff(states, events, x, y, sp);
    }
  }

  lemma OvertakenIff(states: seq<State>, events: seq<Event>, k: nat, sp: Space)
    requires IsRun(ReadCommitted, states, events) && k < |events|
    ensures Overtaken(states, events, k, sp) <==> LinksNoLower(states, events, k, sp)
  {
    RunLength(states, events);
    hide IsRun, EpochsOf, NumberedNoLower;
    if events[k].Commit? && sp in events[k].ids {
      forall p, m: nat | m < k && CommittedInGap(states, events, m, events[k].t, sp, p)
        ensures events[k].t in states[k].txs && sp in states[k].txs[events[k].t].seqs && p in EpochsOf(states[k].db, sp)
        ensures EpochsOf(states[k].db, sp)[p].seqNo >= states[k].txs[events[k].t].seqs[sp] <==>
                NumberedNoLower(events, m, k, sp)
      {
        GapNumber(states, events, m, k, sp, p);
      }
    }
    hide CommittedInGap;
  }

  /**
   With every statement reading what is committed by then, numbers grow along the links of a space
   throughout a run exactly when no commit of the run is overtaken, going by the order of its events.
   */
  lemma IncreasesIffNotOvertaken(states: seq<State>, events: seq<Event>, sp: Space)
    requires IsRun(ReadCommitted, states, events)
    ensures (forall i :: 0 <= i < |states| ==> Increasing(EpochsOf(states[i].db, sp))) <==>
            (forall k: nat :: k < |events| ==> !Overtaken(states, events, k, sp))
  {
    RunLength(states, events);
    hide IsRun, Increasing, Overtaken, LinksNoLower, EpochsOf;
    forall k: nat | k < |events| ensures Overtaken(states, events, k, sp) <==> LinksNoLower(states, events, k, sp) {
      OvertakenIff(states, events, k, sp);
    }
    if forall k: nat :: k < |events| ==> !Overtaken(states, events, k, sp) {
      forall i | 0 <= i < |states| ensures Increasing(EpochsOf(states[i].db, sp)) {
        LowerLinksIncrease(states, events, i, sp);
      }
    }
    forall k: nat | k < |events| && Overtaken(states, events, k, sp)
      ensures !Increasing(EpochsOf(states[k + 1].db, sp))
    {
      LinkShrinks(states, events, k, sp);
    }
  }

  lemma RunLength(states: seq<State>, events: seq<Event>)
    requires IsRun(ReadCommitted, states, events)
    ensures |states| == |events| + 1
  {
  }

  lemma {:induction false} LowerLinksIncrease(states: seq<State>, events: seq<Event>, i: nat, sp: Space)
    requires IsRun(ReadCommitted, states, events) && i < |states|
    requires forall k: nat :: k < |events| ==> !LinksNoLower(states, events, k, sp)
    ensures Increasing(EpochsOf(states[i].db, sp))
    decreases i
  {
    hide LinksNoLower;
    if i > 0 {
      LowerLinksIncrease(states, events, i - 1, sp);
      CommitGrows(states, events, i - 1, sp);
    }
  }

  /** Nobody commits to the space while a transaction is between its two reads of it. */
  predicate Undisturbed(states: seq<State>, events: seq<Event>, sp: Space)
    requires |states| == |events| + 1
  {
    forall i, t :: 0 <= i < |events| && events[i].Commit? && sp in events[i].ids && t in states[i].txs ==>
      sp in states[i].txs[t].batch ==> states[i].txs[t].phase != Numbered
  }

  /** So numbers grow when commits keep out of the gap between two reads. */
  lemma UndisturbedIncreases(states: seq<State>, events: seq<Event>, i: nat, sp: Space)
    requires IsRun(ReadCommitted, states, events) && i <= |events| && Undisturbed(states, events, sp)
    ensures Increasing(EpochsOf(states[i].db, sp))
  {
    RunLength(states, events);
    hide IsRun, Increasing;
    assert forall m: nat, t: nat, p :: !CommittedInGap(states, events, m, t, sp, p);
    assert forall k: nat :: k < |events| ==> !Overtaken(states, events, k, sp);
    IncreasesIffNotOvertaken(states, events, sp);
  }

  ghost predicate AlwaysIncreases(iso: Isolation) {
    forall states: seq<State>, events: seq<Event>, i: nat ::
      IsRun(iso, states, events) && i <= |events| ==> AllIncrease(states[i].db)
  }

  lemma {:induction false} ReadSeqsStep(s: State, t: nat, sp: Space)
    requires Enabled(s, ReadSeqs(t)) && s.txs[t].batch.Keys == {sp}
    ensures Apply(ReadCommitted, s, ReadSeqs(t)) ==
            s.(txs := s.txs[t := s.txs[t].(phase := Numbered, seqs := map[sp := NextSeq(s.db.events, sp)])])
  {
    hide NextSeq;
    var tx := s.txs[t];
    var s' := Apply(ReadCommitted, s, ReadSeqs(t));
    assert Visible(ReadCommitted, s, tx) == s.db;
    assert s'.txs[t].seqs.Keys == {sp} && s'.txs[t].seqs[sp] == NextSeq(s.db.events, sp);
    assert s'.txs[t].seqs == map[sp := NextSeq(s.db.events, sp)];
  }

  lemma ReadTipsStep(s: State, t: nat, sp: Space)
    requires Enabled(s, ReadTips(t)) && s.txs[t].batch.Keys == {sp}
    ensures Apply(ReadCommitted, s, ReadTips(t)) ==
            s.(txs := s.txs[t := s.txs[t].(phase := Linked, tips := map[sp := Tips(EpochsOf(s.db, sp))])])
  {
    hide Tips, EpochsOf;
    var tx := s.txs[t];
    assert (map x | x in tx.batch :: Tips(EpochsOf(s.db, x))) == map[sp := Tips(EpochsOf(s.db, sp))];
  }

  lemma CommitStep(s: State, t: nat, sp: Space, id: Hash)
    requires t in s.txs && s.txs[t].phase == Linked
    requires s.txs[t].batch.Keys == s.txs[t].seqs.Keys == s.txs[t].tips.Keys == {sp}
    requires id !in EpochsOf(s.db, sp)
    ensures Enabled(s, Commit(t, map[sp := id]))
    ensures var s' := Apply(ReadCommitted, s, Commit(t, map[sp := id]));
            && EpochsOf(s'.db, sp) == EpochsOf(s.db, sp)[id := Epoch(s.txs[t].seqs[sp], s.txs[t].tips[sp])]
            && s'.txs == s.txs[t := s.txs[t].(phase := Ended)]
  {
    CommitEpochs(s.db, s.txs[t], map[sp := id], sp);
  }

  ghost predicate Steps(states: seq<State>, events: seq<Event>) {
    && |states| == |events| + 1
    && forall i :: 0 <= i < |events| ==>
      Enabled(states[i], events[i]) && states[i + 1] == Apply(ReadCommitted, states[i], events[i])
  }

  lemma Then(states: seq<State>, events: seq<Event>, e: Event, s': State)
    requires Steps(states, events) && Enabled(states[|events|], e) && s' == Apply(ReadCommitted, states[|events|], e)
    ensures Steps(states + [s'], events + [e])
  {
    hide Enabled, Apply;
  }

  lemma OpenStep(s: State, t: nat, sp: Space, id: Hash)
    requires t !in s.txs
    ensures Enabled(s, Open(t, map[sp := [id]]))
    ensures Apply(ReadCommitted, s, Open(t, map[sp := [id]])) ==
            s.(txs := s.txs[t := Tx(map[sp := [id]], s.db, Started, map[], map[])])
  {
  }

  lemma {:induction false} EmptyNumbers(sp: Space)
    ensures NextSeq(INIT.db.events, sp) == 0 && Tips(EpochsOf(INIT.db, sp)) == {}
  {
  }

  /** Transaction 0 has read its number in an empty space, and transaction 1 its number and tips. */
  lemma RaceOpens(sp: Space, a: Hash, b: Hash) returns (states: seq<State>, events: seq<Event>)
    ensures Steps(states, events) && states[0] == INIT
    ensures var s := states[|events|];
            && s.db == INIT.db && s.txs.Keys == {0, 1}
            && s.txs[0] == Tx(map[sp := [a]], INIT.db, Numbered, map[sp := 0], map[])
            && s.txs[1] == Tx(map[sp := [b]], INIT.db, Linked, map[sp := 0], map[sp := {}])
  {
    hide Apply, NextSeq, Tips, Enabled, EpochsOf;
    EmptyNumbers(sp);
    OpenStep(INIT, 0, sp, a);
    var s1 := Apply(ReadCommitted, INIT, Open(0, map[sp := [a]]));
    NextRead(s1, 0);
    ReadSeqsStep(s1, 0, sp);
    var s2 := Apply(ReadCommitted, s1, ReadSeqs(0));
    OpenStep(s2, 1, sp, b);
    var s3 := Apply(ReadCommitted, s2, Open(1, map[sp := [b]]));
    NextRead(s3, 1);
    ReadSeqsStep(s3, 1, sp);
    var s4 := Apply(ReadCommitted, s3, ReadSeqs(1));
    NextRead(s4, 1);
    ReadTipsStep(s4, 1, sp);
    var s5 := Apply(ReadCommitted, s4, ReadTips(1));
    states := [INIT, s1, s2, s3, s4, s5];
    events := [Open(0, map[sp := [a]]), ReadSeqs(0), Open(1, map[sp := [b]]), ReadSeqs(1), ReadTips(1)];
  }

  lemma NextRead(s: State, t: nat)
    requires t in s.txs
    ensures s.txs[t].phase == Started ==> Enabled(s, ReadSeqs(t))
    ensures s.txs[t].phase == Numbered ==> Enabled(s, ReadTips(t))
  {
  }

  /** Transaction 1 adds `b` between the two reads of transaction 0, which adds `a` above it. */
  lemma ReadCommittedRace(sp: Space, a: Hash, b: Hash) returns (states: seq<State>, events: seq<Event>)
    requires a != b
    ensures IsRun(ReadCommitted, states, events)
    ensures EpochsOf(states[|events|].db, sp) == map[b := Epoch(0, {}), a := Epoch(0, {b})]
  {
    var before, sofar := RaceOpens(sp, a, b);
    var s5 := before[|sofar|];
    CommitStep(s5, 1, sp, b);
    var s6 := Apply(ReadCommitted, s5, Commit(1, map[sp := b]));
    ReadTipsStep(s6, 0, sp);
    var s7 := Apply(ReadCommitted, s6, ReadTips(0));
    assert Tips(EpochsOf(s6.db, sp)) == {b};
    CommitStep(s7, 0, sp, a);
    var s8 := Apply(ReadCommitted, s7, Commit(0, map[sp := a]));
    hide Steps, Tips, Apply;
    Then(before, sofar, Commit(1, map[sp := b]), s6);
    Then(before + [s6], sofar + [Commit(1, map[sp := b])], ReadTips(0), s7);
    Then(before + [s6] + [s7], sofar + [Commit(1, map[sp := b])] + [ReadTips(0)], Commit(0, map[sp := a]), s8);
    states := before + [s6] + [s7] + [s8];
    events := sofar + [Commit(1, map[sp := b])] + [ReadTips(0)] + [Commit(0, map[sp := a])];
    StepsFromInit(states, events);
  }

  lemma StepsFromInit(states: seq<State>, events: seq<Event>)
    requires Steps(states, events) && states[0] == INIT
    ensures IsRun(ReadCommitted, states, events)
  {
  }

  /** Numbers always grow along the links exactly when a transaction reads one snapshot. */
  lemma IncreasesIffSnapshot(iso: Isolation)
    ensures AlwaysIncreases(iso) <==> iso == Snapshot
  {
    if iso == Snapshot {
      forall states: seq<State>, events: seq<Event>, i: nat | IsRun(iso, states, events) && i <= |events|
        ensures AllIncrease(states[i].db)
      {
        RunStaysAhead(states, events, i);
      }
    } else {
      var sp: Space := "space";
      var states, events := ReadCommittedRace(sp, 1, 0);
      var es := EpochsOf(states[|events|].db, sp);
      assert 1 in es && 0 in es[1].parents && es[0].seqNo == es[1].seqNo;
      assert !Increasing(es);
      assert !AllIncrease(states[|events|].db);
    }
  }
}
