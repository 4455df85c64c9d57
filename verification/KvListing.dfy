/** Listing the keys of a space (`list_bounded` in tinycloud-core/src/db.rs). */
module KvListing {
  import opened Order
  import opened Splitting
  import opened LikePrefix
  import opened SpaceTables
  import opened SpaceProtocol
  import opened KvSteps
  import opened KvRefinement

  predicate NewerExists(writes: set<KvWrite>, w: KvWrite) {
    exists v :: v in writes && v.key == w.key && VersionLess(w.version, v.version)
  }

  /** The rows the query selects. */
  predicate Selected(db: Db, space: Space, prefix: string, w: KvWrite) {
    && w in db.writes && w.key.space == space && Like(w.key.path, EscapePrefix(prefix) + "%")
    && !Tombstoned(db.deletes, w) && !NewerExists(db.writes, w)
  }

  predicate OrderedByKey(rows: seq<KvWrite>) {
    forall i, j :: 0 <= i < j < |rows| ==> !StringLess(rows[j].key.path, rows[i].key.path)
  }

  /** Each selected row once, in the order of keys. */
  ghost predicate IsResult(db: Db, space: Space, prefix: string, rows: seq<KvWrite>) {
    && (forall w :: w in rows <==> Selected(db, space, prefix, w))
    && (forall i, j :: 0 <= i < j < |rows| ==> rows[i] != rows[j])
    && OrderedByKey(rows)
  }

  function Paths(rows: seq<KvWrite>): (ps: seq<string>)
    ensures |ps| == |rows| && forall i :: 0 <= i < |rows| ==> ps[i] == rows[i].key.path
  {
    seq(|rows|, i requires 0 <= i < |rows| => rows[i].key.path)
  }

  predicate StrictlyAscending(ps: seq<string>) {
    forall i, j :: 0 <= i < j < |ps| ==> StringLess(ps[i], ps[j])
  }

  /** The row selected for an object is the one a point read finds. */
  lemma SelectedIsLatest(db: Db, space: Space, prefix: string, w: KvWrite)
    requires LogInv(db) && Selected(db, space, prefix, w)
    ensures Latest(db.writes, w.key) == Some(w) && GetKv(db, w.key) == Some(w.entry)
  {
    hide Like;
    forall v | v in db.writes && v.key == w.key && v != w ensures VersionLess(v.version, w.version) {
    }
    NewestIsLatest(db.writes, w.key, w);
  }

  lemma LatestIsNewest(db: Db, o: ObjectId)
    requires Latest(db.writes, o).Some?
    ensures var w := Latest(db.writes, o).value; w in db.writes && w.key == o && !NewerExists(db.writes, w)
  {
    LatestExists(db.writes, o);
    var w := Latest(db.writes, o).value;
    assert IsTop(WritesOf(db.writes, o), w);
  }

  /** An object's row is selected exactly when its path has the prefix and a point read finds the object. */
  lemma SelectedIffLive(db: Db, prefix: string, o: ObjectId)
    requires LogInv(db)
    ensures (exists w: KvWrite :: w.key == o && Selected(db, o.space, prefix, w)) <==>
            HasPrefix(o.path, prefix) && GetKv(db, o).Some?
  {
    LikeIffPrefix(o.path, prefix);
    hide Like, LogInv;
    if w: KvWrite :| w.key == o && Selected(db, o.space, prefix, w) {
      SelectedIsLatest(db, o.space, prefix, w);
    }
    if HasPrefix(o.path, prefix) && GetKv(db, o).Some? {
      LatestIsNewest(db, o);
      var w := Latest(db.writes, o).value;
      assert Selected(db, o.space, prefix, w);
    }
  }

  /** No key is listed twice. */
  lemma ResultAscends(db: Db, space: Space, prefix: string, rows: seq<KvWrite>)
    requires LogInv(db) && IsResult(db, space, prefix, rows)
    ensures StrictlyAscending(Paths(rows))
  {
    hide Like, LogInv;
    forall i, j | 0 <= i < j < |rows| ensures StringLess(rows[i].key.path, rows[j].key.path) {
      assert rows[i] in rows && rows[j] in rows;
      SelectedIsLatest(db, space, prefix, rows[i]);
      SelectedIsLatest(db, space, prefix, rows[j]);
      StringOrder(rows[i].key.path, rows[j].key.path, rows[i].key.path);
    }
  }

  /**
   In every run, the listing of a prefix is the ascending list, without repetition, of the keys
   with that prefix in the map of committed operations.
   */
  lemma ListingIsOfTheMap(states: seq<State>, events: seq<Event>, i: nat, space: Space, prefix: string,
      rows: seq<KvWrite>, path: string)
    requires IsRun(states, events) && i < |states| && IsResult(states[i].db, space, prefix, rows)
    ensures StrictlyAscending(Paths(rows))
    ensures path in Paths(rows) <==> HasPrefix(path, prefix) && ObjectId(space, path) in states[i].store
  {
    var o := ObjectId(space, path);
    assert LogInv(states[i].db) by { RunKeepsKv(states, events, i); }
    ReadsLastCommittedWrite(states, events, i, o);
    hide IsRun, LogInv, GetKv, Like;
    ResultAscends(states[i].db, space, prefix, rows);
    SelectedIffLive(states[i].db, prefix, o);
    PathListed(states[i].db, space, prefix, rows, path);
  }

  lemma PathListed(db: Db, space: Space, prefix: string, rows: seq<KvWrite>, path: string)
    requires IsResult(db, space, prefix, rows)
    ensures path in Paths(rows) <==> exists w: KvWrite ::
            w.key == ObjectId(space, path) && Selected(db, space, prefix, w)
  {
    hide Like;
    if path in Paths(rows) {
      var i :| 0 <= i < |rows| && Paths(rows)[i] == path;
      assert rows[i] in rows;
    }
    if w: KvWrite :| w.key == ObjectId(space, path) && Selected(db, space, prefix, w) {
      assert w in rows;
      var i :| 0 <= i < |rows| && rows[i] == w;
      assert Paths(rows)[i] == path;
    }
  }

  /** One row more than the limit is fetched, to see whether there are more. */
  method ListBounded(rows: seq<KvWrite>, limit: Option<nat>) returns (list: seq<string>, truncated: bool)
    ensures limit.None? ==> list == Paths(rows) && !truncated
    ensures limit.Some? ==> (truncated <==> |rows| > limit.value)
    ensures limit.Some? ==> list == Paths(rows)[..if truncated then limit.value else |rows|]
  {
    var fetched := if limit.Some? && |rows| > limit.value + 1 then rows[..limit.value + 1] else rows;
    list := [];
    for i := 0 to |fetched|
      invariant list == Paths(rows)[..i]
    {
      list := list + [fetched[i].key.path];
    }
    truncated := limit.Some? && |list| > limit.value;
    if limit.Some? && |list| > limit.value {
      list := list[..limit.value];
    }
  }

  // ---- The query as a search ----

  function InsertRow(w: KvWrite, rows: seq<KvWrite>): (r: seq<KvWrite>)
    requires OrderedByKey(rows)
    ensures OrderedByKey(r) && |r| == |rows| + 1 && forall x :: x in r <==> x == w || x in rows
  {
    if rows == [] || !StringLess(rows[0].key.path, w.key.path) then
      InsertFirst(w, rows);
      [w] + rows
    else
      InsertLater(w, rows, InsertRow(w, rows[1..]));
      assert forall x :: x in rows <==> x == rows[0] || x in rows[1..];
      [rows[0]] + InsertRow(w, rows[1..])
  }

  lemma InsertFirst(w: KvWrite, rows: seq<KvWrite>)
    requires OrderedByKey(rows) && (rows == [] || !StringLess(rows[0].key.path, w.key.path))
    ensures OrderedByKey([w] + rows)
  {
    hide StringLess;
    var r := [w] + rows;
    forall i, j | 0 <= i < j < |r| ensures !StringLess(r[j].key.path, r[i].key.path) {
      assert r[j] == rows[j - 1];
      if i == 0 && j > 1 {
        NotBelow(rows[j - 1].key.path, rows[0].key.path, w.key.path);
      } else if i > 0 {
        assert r[i] == rows[i - 1];
      }
    }
  }

  lemma NotBelow(a: string, b: string, c: string)
    requires !StringLess(a, b) && !StringLess(b, c)
    ensures !StringLess(a, c)
  {
    StringOrder(a, b, c);
    StringOrder(b, a, c);
    StringOrder(b, c, b);
    StringOrder(a, c, b);
  }

  lemma InsertLater(w: KvWrite, rows: seq<KvWrite>, rest: seq<KvWrite>)
    requires rows != [] && OrderedByKey(rows) && StringLess(rows[0].key.path, w.key.path) && OrderedByKey(rest)
    requires forall x :: x in rest ==> x == w || x in rows[1..]
    ensures OrderedByKey([rows[0]] + rest)
  {
    hide StringLess;
    var r := [rows[0]] + rest;
    StringOrder(rows[0].key.path, w.key.path, rows[0].key.path);
    forall i, j | 0 <= i < j < |r| ensures !StringLess(r[j].key.path, r[i].key.path) {
      assert r[j] == rest[j - 1] && rest[j - 1] in rest;
      if i > 0 {
        assert r[i] == rest[i - 1];
      }
    }
  }

  /** The query as a search through the rows, which it may meet in any order. */
  method Query(db: Db, space: Space, prefix: string) returns (rows: seq<KvWrite>)
    ensures IsResult(db, space, prefix, rows)
  {
    hide Selected, InsertRow, StringLess;
    rows := [];
    var todo := db.writes;
    while todo != {}
      invariant todo <= db.writes && OrderedByKey(rows) && forall w :: w in rows <==>
                w in db.writes - todo && Selected(db, space, prefix, w)
      invariant forall i, j :: 0 <= i < j < |rows| ==> rows[i] != rows[j]
      decreases todo
    {
      var w :| w in todo;
      todo := todo - {w};
      if Selected(db, space, prefix, w) {
        InsertDistinct(w, rows);
        rows := InsertRow(w, rows);
      }
    }
    SelectedStored(db, space, prefix);
  }

  lemma SelectedStored(db: Db, space: Space, prefix: string)
    ensures forall w :: Selected(db, space, prefix, w) ==> w in db.writes
  {
  }

  lemma {:induction false} InsertDistinct(w: KvWrite, rows: seq<KvWrite>)
    requires OrderedByKey(rows) && w !in rows && forall i, j :: 0 <= i < j < |rows| ==> rows[i] != rows[j]
    ensures forall i, j :: 0 <= i < j < |InsertRow(w, rows)| ==> InsertRow(w, rows)[i] != InsertRow(w, rows)[j]
  {
    hide StringLess;
    var r := InsertRow(w, rows);
    if rows != [] && StringLess(rows[0].key.path, w.key.path) {
      var rest := InsertRow(w, rows[1..]);
      InsertDistinct(w, rows[1..]);
      forall i, j | 0 <= i < j < |r| ensures r[i] != r[j] {
        assert r[j] == rest[j - 1] && rest[j - 1] in rest;
        if i > 0 {
          assert r[i] == rest[i - 1];
        }
      }
    }
  }
}
