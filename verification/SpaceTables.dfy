/** The rows of the space database that its operations read and write. */
module SpaceTables {
  import opened Order
  import opened Graph

  type Did = string
  type Space = string

  datatype ObjectId = ObjectId(space: Space, path: string)
  datatype Entry = Entry(value: Hash, metadata: string)

  /** A stored delegation: to whom, and the parents its link rows name. */
  datatype Delegation = Delegation(delegatee: Did, parents: set<Hash>)

  datatype Version = Version(seqNo: int, epoch: Hash, epochSeq: int)
  datatype EventOrder = EventOrder(space: Space, event: Hash, version: Version)
  datatype KvWrite = KvWrite(key: ObjectId, invocation: Hash, version: Version, entry: Entry)
  datatype KvDelete = KvDelete(invocation: Hash, key: ObjectId, deleted: Hash)

  datatype Db = Db(
    delegations: map<Hash, Delegation>,
    revoked: set<Hash>,
    invocations: set<Hash>,
    events: set<EventOrder>,
    writes: set<KvWrite>,
    deletes: set<KvDelete>)

  const EMPTY_DB := Db(map[], {}, {}, {}, {}, {})

  function LinksOf(db: Db): Graph {
    map d | d in db.delegations :: db.delegations[d].parents
  }

  /** One more than the greatest sequence number of the space, or zero in a new space. */
  ghost function NextSeq(events: set<EventOrder>, space: Space): (n: int)
    ensures n >= 0
    ensures forall e :: e in events && e.space == space ==> e.version.seqNo < n
    ensures n > 0 ==> exists e :: e in events && e.space == space && e.version.seqNo == n - 1
    decreases events
  {
    if events == {} then 0 else
      var e :| e in events;
      var n := NextSeq(events - {e}, space);
      if e.space == space && e.version.seqNo >= n then e.version.seqNo + 1 else n
  }

  /** The order of `(seq, epoch, epoch_seq)`. */
  predicate VersionLess(a: Version, b: Version) {
    a.seqNo < b.seqNo || (a.seqNo == b.seqNo && (a.epoch < b.epoch || (a.epoch == b.epoch && a.epochSeq < b.epochSeq)))
  }

  function WritesOf(writes: set<KvWrite>, o: ObjectId): set<KvWrite> {
    set w | w in writes && w.key == o
  }

  /** A row the descending query may return first. */
  ghost predicate IsTop(rows: set<KvWrite>, w: KvWrite) {
    w in rows && forall v :: v in rows ==> !VersionLess(w.version, v.version)
  }

  ghost function Top(rows: set<KvWrite>): Option<KvWrite> {
    if exists w :: IsTop(rows, w) then
      var w :| IsTop(rows, w);
      Some(w)
    else None
  }

  ghost function Latest(writes: set<KvWrite>, o: ObjectId): Option<KvWrite> {
    Top(WritesOf(writes, o))
  }

  predicate Tombstoned(deletes: set<KvDelete>, w: KvWrite) {
    exists d :: d in deletes && d.key == w.key && d.deleted == w.invocation
  }

  /** `get_kv_entity`: the newest write of the object, unless a delete names that very write. */
  ghost function GetKv(db: Db, o: ObjectId): Option<Entry> {
    match Latest(db.writes, o)
    case None => None
    case Some(w) => if Tombstoned(db.deletes, w) then None else Some(w.entry)
  }

  lemma {:induction false} TopExists(rows: set<KvWrite>, w: KvWrite)
    requires w in rows
    ensures exists v :: IsTop(rows, v)
    decreases rows
  {
    if v :| v in rows && VersionLess(w.version, v.version) {
      TopExists(rows - {w}, v);
      var top :| IsTop(rows - {w}, top);
      assert IsTop(rows, top);
    } else {
      assert IsTop(rows, w);
    }
  }

  /** The query finds a write of the object exactly when there is one. */
  lemma LatestExists(writes: set<KvWrite>, o: ObjectId)
    ensures Latest(writes, o).Some? <==> exists w :: w in writes && w.key == o
    ensures Latest(writes, o).Some? ==> Latest(writes, o).value in writes && Latest(writes, o).value.key == o
  {
    if w :| w in writes && w.key == o {
      TopExists(WritesOf(writes, o), w);
    }
  }

  /** A write newer than all other writes of its object is the one the query finds. */
  lemma NewestIsLatest(writes: set<KvWrite>, o: ObjectId, w: KvWrite)
    requires w in writes && w.key == o
    requires forall v :: v in writes && v.key == o && v != w ==> VersionLess(v.version, w.version)
    ensures Latest(writes, o) == Some(w)
  {
    assert IsTop(WritesOf(writes, o), w);
  }

  /** Rows of other objects do not change what the query finds. */
  lemma LatestFrame(writes: set<KvWrite>, more: set<KvWrite>, o: ObjectId)
    requires forall w :: w in more ==> w.key != o
    ensures Latest(writes + more, o) == Latest(writes, o)
  {
    assert WritesOf(writes + more, o) == WritesOf(writes, o);
  }
}
