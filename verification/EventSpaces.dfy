/** Which events go into the epoch of which space (`event_spaces` in tinycloud-core/src/db.rs). */
module EventSpaces {
  import opened Order
  import opened SpaceTables
  import EpochDag

  datatype Signed =
    | Delegated(id: Hash, spaces: seq<Space>)
    | Invoked(id: Hash, spaces: seq<Space>)
    | Revoked(id: Hash, target: Hash)

  /** The spaces an event touches; a revocation touches those that ordered the event it revokes. */
  function SpacesTouched(rows: seq<EventOrder>, e: Signed): seq<Space> {
    match e
    case Delegated(_, spaces) => spaces
    case Invoked(_, spaces) => spaces
    case Revoked(_, target) => OrderedIn(rows, target)
  }

  function OrderedIn(rows: seq<EventOrder>, target: Hash): (spaces: seq<Space>)
    ensures forall sp :: sp in spaces <==> exists r :: r in rows && r.event == target && r.space == sp
  {
    if rows == [] then []
    else
      var rest := OrderedIn(rows[1..], target);
      assert forall r :: r in rows <==> r == rows[0] || r in rows[1..];
      if rows[0].event == target then [rows[0].space] + rest else rest
  }

  /** The ids of the events that touch the space, once each, in the order of their first occurrence. */
  function EventsOf(rows: seq<EventOrder>, evs: seq<Signed>, sp: Space): (ids: seq<Hash>)
    ensures forall i, j :: 0 <= i < j < |ids| ==> ids[i] != ids[j]
    ensures forall id :: id in ids <==> exists e :: e in evs && e.id == id && sp in SpacesTouched(rows, e)
  {
    if evs == [] then []
    else
      var last := evs[|evs| - 1];
      var ids := EventsOf(rows, evs[..|evs| - 1], sp);
      assert forall e :: e in evs <==> e == last || e in evs[..|evs| - 1];
      if sp in SpacesTouched(rows, last) then Append(ids, last.id) else ids
  }

  function Append(ids: seq<Hash>, id: Hash): seq<Hash> {
    if id in ids then ids else ids + [id]
  }

  function Entry(spaces: map<Space, seq<Hash>>, sp: Space): seq<Hash> {
    if sp in spaces then spaces[sp] else []
  }

  /** Adds one event to the entries of the spaces it touches. */
  method AddEvent(spaces: map<Space, seq<Hash>>, id: Hash, touched: seq<Space>) returns (r: map<Space, seq<Hash>>)
    ensures r.Keys == spaces.Keys + (set sp | sp in touched)
    ensures forall sp :: Entry(r, sp) == if sp in touched then Append(Entry(spaces, sp), id) else Entry(spaces, sp)
  {
    r := spaces;
    for i := 0 to |touched|
      invariant r.Keys == spaces.Keys + (set sp | sp in touched[..i])
      invariant forall sp :: Entry(r, sp) == if sp in touched[..i] then Append(Entry(spaces, sp), id)
                else Entry(spaces, sp)
    {
      assert forall sp :: sp in touched[..i + 1] <==> sp in touched[..i] || sp == touched[i];
      r := r[touched[i] := Append(Entry(r, touched[i]), id)];
    }
    assert touched[..|touched|] == touched;
  }

  /**
   Every touched space, and no other, gets the events that touch it, so that each entry is a
   batch a transaction may open with.
   */
  method Group(rows: seq<EventOrder>, evs: seq<Signed>) returns (spaces: map<Space, seq<Hash>>)
    ensures forall sp :: sp in spaces <==> exists e :: e in evs && sp in SpacesTouched(rows, e)
    ensures forall sp :: sp in spaces ==> spaces[sp] == EventsOf(rows, evs, sp) && spaces[sp] != []
    ensures EpochDag.Enabled(EpochDag.INIT, EpochDag.Open(0, spaces))
  {
    spaces := map[];
    for i := 0 to |evs|
      invariant forall sp :: sp in spaces <==> exists e :: e in evs[..i] && sp in SpacesTouched(rows, e)
      invariant forall sp :: Entry(spaces, sp) == EventsOf(rows, evs[..i], sp)
    {
      var before := spaces;
      spaces := AddEvent(spaces, evs[i].id, SpacesTouched(rows, evs[i]));
      assert evs[..i + 1][..i] == evs[..i];
      assert forall e :: e in evs[..i + 1] <==> e in evs[..i] || e == evs[i];
    }
    assert evs[..|evs|] == evs;
    forall sp | sp in spaces ensures spaces[sp] == EventsOf(rows, evs, sp) && spaces[sp] != [] {
      assert spaces[sp] == Entry(spaces, sp);
      var e :| e in evs && sp in SpacesTouched(rows, e);
      assert e.id in EventsOf(rows, evs, sp);
    }
  }
}
