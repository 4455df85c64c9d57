/** Pages of an account's delegations (`query_account_delegations` in tinycloud-core/src/db.rs). */
module Paging {
  import opened Order

  /** A record by what orders it; a missing issue time sorts below any other. */
  datatype Record = Record(cid: string, issuedAt: Option<int>)

  predicate IssuedBefore(a: Option<int>, b: Option<int>) {
    match (a, b)
    case (None, Some(_)) => true
    case (Some(x), Some(y)) => x < y
    case _ => false
  }

  /** Later issued first, then by CID. */
  predicate Before(a: Record, b: Record) {
    IssuedBefore(b.issuedAt, a.issuedAt) || (a.issuedAt == b.issuedAt && StringLess(a.cid, b.cid))
  }

  lemma BeforeOrder(a: Record, b: Record, c: Record)
    ensures !Before(a, a)
    ensures Before(a, b) && Before(b, c) ==> Before(a, c)
    ensures a.cid != b.cid ==> Before(a, b) || Before(b, a)
  {
    StringOrder(a.cid, b.cid, c.cid);
  }

  predicate Sorted(rs: seq<Record>) {
    forall i, j :: 0 <= i < j < |rs| ==> Before(rs[i], rs[j])
  }

  /** On the fields: later issue times first, those without one last, and CIDs ascending among equals. */
  predicate LatestFirst(rs: seq<Record>) {
    forall i, j :: 0 <= i < j < |rs| ==>
      if rs[i].issuedAt == rs[j].issuedAt then StringLess(rs[i].cid, rs[j].cid)
      else rs[i].issuedAt.Some? && (rs[j].issuedAt.Some? ==> rs[i].issuedAt.value > rs[j].issuedAt.value)
  }

  predicate DistinctCids(rs: seq<Record>) {
    forall i, j :: 0 <= i < j < |rs| ==> rs[i].cid != rs[j].cid
  }

  function Insert(r: Record, rs: seq<Record>): (out: seq<Record>)
    ensures |out| == |rs| + 1 && multiset(out) == multiset(rs) + multiset{r}
  {
    if rs == [] || !Before(rs[0], r) then
      assert [r] + rs == [r] + rs;
      [r] + rs
    else
      var rest := Insert(r, rs[1..]);
      assert rs == [rs[0]] + rs[1..];
      [rs[0]] + rest
  }

  function Sort(rs: seq<Record>): (out: seq<Record>)
    ensures |out| == |rs| && multiset(out) == multiset(rs)
  {
    if rs == [] then []
    else
      assert rs == [rs[0]] + rs[1..];
      Insert(rs[0], Sort(rs[1..]))
  }

  lemma InMultiset(a: seq<Record>, b: seq<Record>, x: Record)
    requires multiset(a) == multiset(b)
    ensures x in a <==> x in b
  {
    assert x in a <==> x in multiset(a);
    assert x in b <==> x in multiset(b);
  }

  lemma {:induction false} InsertSorted(r: Record, rs: seq<Record>)
    requires Sorted(rs) && forall x :: x in rs ==> x.cid != r.cid
    ensures Sorted(Insert(r, rs))
  {
    hide Before;
    var out := Insert(r, rs);
    if rs != [] {
      BeforeOrder(rs[0], r, r);
      if Before(rs[0], r) {
        var rest := Insert(r, rs[1..]);
        InsertSorted(r, rs[1..]);
        forall i, j | 0 <= i < j < |out| ensures Before(out[i], out[j]) {
          assert out[j] == rest[j - 1];
          if i > 0 {
            assert out[i] == rest[i - 1];
          } else {
            assert out[j] in multiset(rest);
            assert out[j] == r || out[j] in multiset(rs[1..]);
          }
        }
      } else {
        forall i, j | 0 <= i < j < |out| ensures Before(out[i], out[j]) {
          assert out[j] == rs[j - 1];
          if i > 0 {
            assert out[i] == rs[i - 1];
          } else if j > 1 {
            BeforeOrder(r, rs[0], rs[j - 1]);
          }
        }
      }
    }
  }

  lemma {:induction false} SortSorted(rs: seq<Record>)
    requires DistinctCids(rs)
    ensures Sorted(Sort(rs)) && LatestFirst(Sort(rs))
  {
    if rs != [] {
      SortSorted(rs[1..]);
      forall x | x in Sort(rs[1..]) ensures x.cid != rs[0].cid {
        InMultiset(Sort(rs[1..]), rs[1..], x);
      }
      InsertSorted(rs[0], Sort(rs[1..]));
    }
  }

  lemma {:induction false} SortDistinct(rs: seq<Record>)
    requires DistinctCids(rs)
    ensures DistinctCids(Sort(rs))
  {
    SortSorted(rs);
    var out := Sort(rs);
    forall i, j | 0 <= i < j < |out| ensures out[i].cid != out[j].cid {
      InMultiset(out, rs, out[i]);
      InMultiset(out, rs, out[j]);
      BeforeOrder(out[i], out[i], out[i]);
      var a :| 0 <= a < |rs| && rs[a] == out[i];
      var b :| 0 <= b < |rs| && rs[b] == out[j];
      assert a != b;
    }
  }

  datatype Page = Page(items: seq<Record>, next: Option<string>) | UnknownCursor

  /** The position of a CID, if it is there. */
  function Position(rs: seq<Record>, cid: string): (p: Option<nat>)
    ensures p.Some? ==> p.value < |rs| && rs[p.value].cid == cid && forall i :: 0 <= i < p.value ==> rs[i].cid != cid
    ensures p.None? ==> forall i :: 0 <= i < |rs| ==> rs[i].cid != cid
  {
    if rs == [] then None
    else if rs[0].cid == cid then Some(0)
    else
      match Position(rs[1..], cid)
      case None => None
      case Some(p) => Some(p + 1)
  }

  function PageAfter(sorted: seq<Record>, limit: nat): Page
    requires limit > 0
  {
    if |sorted| > limit then Page(sorted[..limit], Some(sorted[limit - 1].cid)) else Page(sorted, None)
  }

  /** One request: sort, skip past the cursor, cut at the limit. */
  function Fetch(records: seq<Record>, cursor: Option<string>, limit: nat): Page
    requires limit > 0
  {
    var sorted := Sort(records);
    match cursor
    case None => PageAfter(sorted, limit)
    case Some(cid) =>
      match Position(sorted, cid)
      case None => UnknownCursor
      case Some(p) => PageAfter(sorted[p + 1..], limit)
  }

  /** How many pages a client must ask for. */
  function PageCount(n: nat, limit: nat): nat
    requires limit > 0
  {
    if n <= limit then 1 else 1 + PageCount(n - limit, limit)
  }

  lemma {:induction false} PageCountIsCeiling(n: nat, limit: nat)
    requires limit > 0
    ensures n > 0 ==> (PageCount(n, limit) - 1) * limit < n <= PageCount(n, limit) * limit
    ensures n == 0 ==> PageCount(n, limit) == 1
  {
    if n > limit {
      PageCountIsCeiling(n - limit, limit);
      var k := PageCount(n - limit, limit);
      assert (k + 1) * limit == k * limit + limit && (k - 1) * limit == k * limit - limit;
    }
  }

  lemma {:induction false} PositionIs(rs: seq<Record>, p: nat)
    requires DistinctCids(rs) && p < |rs|
    ensures Position(rs, rs[p].cid) == Some(p)
  {
    var q := Position(rs, rs[p].cid).value;
    assert q <= p;
  }

  /** With the CID of record `k - 1` as cursor a request starts at record `k`. */
  lemma {:induction false} FetchIs(records: seq<Record>, cursor: Option<string>, limit: nat, k: nat)
    requires limit > 0 && DistinctCids(records) && k <= |Sort(records)|
    requires if cursor.Some? then k > 0 && cursor.value == Sort(records)[k - 1].cid else k == 0
    ensures Fetch(records, cursor, limit) == PageAfter(Sort(records)[k..], limit)
  {
    hide Sort;
    var sorted := Sort(records);
    SortDistinct(records);
    if cursor.Some? {
      PositionIs(sorted, k - 1);
    } else {
      assert sorted[0..] == sorted;
    }
  }

  /**
   A client that follows the cursors over a fixed set of records gets each record once, in
   order, in as few pages as the limit allows.
   */
  method FollowCursors(records: seq<Record>, limit: nat) returns (all: seq<Record>, pages: nat)
    requires limit > 0 && DistinctCids(records)
    ensures all == Sort(records) && LatestFirst(all) && multiset(all) == multiset(records)
    ensures pages == PageCount(|records|, limit)
  {
    hide Sort, Sorted, LatestFirst, PageCount, DistinctCids, Fetch;
    ghost var sorted := Sort(records);
    SortSorted(records);
    SortDistinct(records);
    all, pages := [], 0;
    var cursor: Option<string> := None;
    var more := true;
    while more
      invariant |all| <= |sorted| && all == sorted[..|all|]
      invariant more && cursor.None? ==> all == []
      invariant cursor.Some? ==> 0 < |all| < |sorted| && cursor.value == sorted[|all| - 1].cid
      invariant more ==> pages + PageCount(|sorted| - |all|, limit) == PageCount(|sorted|, limit)
      invariant !more ==> all == sorted && pages == PageCount(|sorted|, limit)
      decreases |sorted| - |all|, more
    {
      FetchIs(records, cursor, limit, |all|);
      var page := Fetch(records, cursor, limit);
      ghost var rest := sorted[|all|..];
      CountStep(|rest|, limit);
      all, pages, cursor := all + page.items, pages + 1, page.next;
      more := cursor.Some?;
    }
  }

  lemma CountStep(n: nat, limit: nat)
    requires limit > 0
    ensures PageCount(n, limit) == if n <= limit then 1 else 1 + PageCount(n - limit, limit)
  {
  }
}
