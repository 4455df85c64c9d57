/** Where stored capabilities come from (delegation.rs and invocation.rs in tinycloud-core/src/models). */
module Provenance {
  import opened Order
  import opened Registry
  import opened Authority
  import opened ChainWalk
  import Identity
  import Eip55

  datatype Window = Window(expiry: Option<int>, notBefore: Option<int>)

  datatype Row = Row(delegator: string, delegatee: string, caps: seq<Cap>, window: Window, terminal: bool,
      parents: seq<Hash>)

  type Db = map<Hash, Row>

  /** The parts decided elsewhere: the hash, network ids and their owners, the registry, and containment of caveats. */
  datatype World = World(
    h: Eip55.Hasher,
    net: NetworkParser,
    owner: string -> string,
    reg: Registry,
    contains: (string, string) -> bool)

  /** The capability is on a space or network of this principal. */
  predicate RootAuthority(w: World, cap: Cap, did: string) {
    match cap.resource
    case TinyCloud(id) => Identity.PrincipalMatches(w.h, id.space.did, did)
    case Other(uri) => w.net(uri).Some? && Identity.PrincipalMatches(w.h, w.owner(w.net(uri).value), did)
  }

  predicate Inside(child: Window, parent: Window) {
    && (match (parent.expiry, child.expiry)
        case (None, _) => true
        case (Some(_), None) => false
        case (Some(p), Some(c)) => c <= p)
    && (match (parent.notBefore, child.notBefore)
        case (None, _) => true
        case (Some(_), None) => false
        case (Some(p), Some(c)) => c >= p)
  }

  predicate Open(w: Window, now: int) {
    (w.expiry.Some? ==> now < w.expiry.value) && (w.notBefore.Some? ==> now >= w.notBefore.value)
  }

  /** The parent may pass `pc` on to the child as `c`. */
  ghost predicate Passes(w: World, parent: Row, pc: Cap, child: Row, c: Cap) {
    && pc in parent.caps && parent.delegatee == child.delegator && !parent.terminal
    && Inside(child.window, parent.window)
    && Covers(w.net, w.reg, pc, c) && w.contains(pc.caveats, c.caveats)
  }

  /** Some cited parent passes the capability on. */
  ghost predicate Supported(w: World, db: Db, row: Row, c: Cap) {
    exists p, pc :: p in row.parents && p in db && Passes(w, db[p], pc, row, c)
  }

  /** A cited parent made to the delegator that may not be passed on. */
  predicate CitesTerminal(db: Db, row: Row) {
    exists p :: p in row.parents && p in db && db[p].delegatee == row.delegator && db[p].terminal
  }

  /**
   A delegation is accepted when every capability that is not its delegator's own is supported
   and, if there is such a capability, no cited parent is terminal; what it cites must be stored.
   */
  ghost predicate Accepted(w: World, db: Db, row: Row) {
    && (forall c :: c in row.caps && !RootAuthority(w, c, row.delegator) ==>
      Supported(w, db, row, c) && !CitesTerminal(db, row))
    && (forall p :: p in row.parents ==> p in db)
  }

  ghost predicate IsRun(w: World, states: seq<Db>, rows: seq<(Hash, Row)>) {
    && |states| == |rows| + 1 && states[0] == map[]
    && forall i :: 0 <= i < |rows| ==>
         Accepted(w, states[i], rows[i].1) && states[i + 1] == if rows[i].0 in states[i] then states[i]
           else states[i][rows[i].0 := rows[i].1]
  }

  /** The capability goes back, parent by parent, to a delegation by the owner of its resource. */
  ghost predicate Traces(w: World, db: Db, id: Hash, c: Cap, links: seq<(Hash, Cap)>)
    decreases |links|
  {
    && id in db && c in db[id].caps
    && if links == [] then RootAuthority(w, c, db[id].delegator)
       else
         var (p, pc) := links[0];
         p in db[id].parents && p in db && Passes(w, db[p], pc, db[id], c) && Traces(w, db, p, pc, links[1..])
  }

  ghost predicate AllTrace(w: World, db: Db) {
    forall id, c :: id in db && c in db[id].caps ==> exists links :: Traces(w, db, id, c, links)
  }

  lemma {:induction false} TracesStay(w: World, db: Db, db': Db, id: Hash, c: Cap, links: seq<(Hash, Cap)>)
    requires Traces(w, db, id, c, links) && forall x :: x in db ==> x in db' && db'[x] == db[x]
    ensures Traces(w, db', id, c, links)
    decreases |links|
  {
    hide Passes, RootAuthority;
    if links != [] {
      TracesStay(w, db, db', links[0].0, links[0].1, links[1..]);
    }
  }

  lemma NewTraces(w: World, db: Db, id: Hash, row: Row, db': Db, c: Cap)
    requires AllTrace(w, db) && Accepted(w, db, row) && id !in db && db' == db[id := row] && c in row.caps
    ensures exists links :: Traces(w, db', id, c, links)
  {
    hide Passes, RootAuthority, CitesTerminal;
    if RootAuthority(w, c, row.delegator) {
      assert Traces(w, db', id, c, []);
    } else {
      assert Supported(w, db, row, c);
      hide Accepted;
      var p, pc :| p in row.parents && p in db && Passes(w, db[p], pc, row, c);
      assert pc in db[p].caps by { PassesHeld(w, db[p], pc, row, c); }
      var links :| Traces(w, db, p, pc, links);
      hide AllTrace, Supported;
      TracesStay(w, db, db', p, pc, links);
      TraceGrows(w, db', id, c, p, pc, links);
    }
  }

  lemma {:induction false} TraceGrows(w: World, db: Db, id: Hash, c: Cap, p: Hash, pc: Cap, links: seq<(Hash, Cap)>)
    requires id in db && c in db[id].caps && p in db[id].parents && p in db && Passes(w, db[p], pc, db[id], c)
    requires Traces(w, db, p, pc, links)
    ensures Traces(w, db, id, c, [(p, pc)] + links)
  {
    hide Passes, RootAuthority;
    assert ([(p, pc)] + links)[1..] == links;
  }

  lemma PassesHeld(w: World, parent: Row, pc: Cap, child: Row, c: Cap)
    requires Passes(w, parent, pc, child, c)
    ensures pc in parent.caps
  {
  }

  lemma AcceptTraces(w: World, db: Db, id: Hash, row: Row)
    requires AllTrace(w, db) && Accepted(w, db, row)
    ensures AllTrace(w, if id in db then db else db[id := row])
  {
    hide Accepted, Traces;
    if id !in db {
      var db' := db[id := row];
      forall x, c | x in db' && c in db'[x].caps ensures exists links :: Traces(w, db', x, c, links) {
        if x == id {
          NewTraces(w, db, id, row, db', c);
        } else {
          var links :| Traces(w, db, x, c, links);
          TracesStay(w, db, db', x, c, links);
        }
      }
    }
  }

  /** In every run, every stored capability traces back to an owner. */
  lemma {:induction false} EveryCapabilityTraces(w: World, states: seq<Db>, rows: seq<(Hash, Row)>, i: nat)
    requires IsRun(w, states, rows) && i <= |rows|
    ensures AllTrace(w, states[i])
  {
    hide Accepted, AllTrace;
    if i == 0 {
      NothingTraces(w);
    } else {
      EveryCapabilityTraces(w, states, rows, i - 1);
      AcceptTraces(w, states[i - 1], rows[i - 1].0, rows[i - 1].1);
    }
  }

  lemma NothingTraces(w: World)
    ensures AllTrace(w, map[])
  {
  }

  /** A delegation by the owner of its resource covers the capability, for at least as long. */
  ghost predicate OwnerGranted(w: World, db: Db, c: Cap, window: Window) {
    exists root, rc :: root in db && rc in db[root].caps && RootAuthority(w, rc, db[root].delegator)
                       && Covers(w.net, w.reg, rc, c) && Inside(window, db[root].window)
  }

  lemma InsideTransitive(a: Window, b: Window, c: Window)
    requires Inside(a, b) && Inside(b, c)
    ensures Inside(a, c)
  {
  }

  lemma RootCoversItself(w: World, c: Cap, did: string)
    requires RootAuthority(w, c, did)
    ensures Covers(w.net, w.reg, c, c)
  {
    ExtendsReflexiveIff(w.net, c.resource);
    MatchesPreorder(w.reg, c.ability, c.ability, c.ability);
  }

  /** Along such a trace authority never widens: neither resource, nor ability, nor time. */
  lemma {:induction false} TraceNeverWidens(w: World, db: Db, id: Hash, c: Cap, links: seq<(Hash, Cap)>)
    requires Traces(w, db, id, c, links)
    ensures OwnerGranted(w, db, c, db[id].window)
    decreases |links|
  {
    if links == [] {
      RootCoversItself(w, c, db[id].delegator);
      hide Covers, RootAuthority;
      assert OwnerGranted(w, db, c, db[id].window);
    } else {
      hide Covers, RootAuthority;
      var (p, pc) := links[0];
      TraceNeverWidens(w, db, p, pc, links[1..]);
      var root, rc :| root in db && rc in db[root].caps && RootAuthority(w, rc, db[root].delegator)
                      && Covers(w.net, w.reg, rc, pc) && Inside(db[p].window, db[root].window);
      CoversTransitive(w.net, w.reg, rc, pc, c);
      InsideTransitive(db[id].window, db[p].window, db[root].window);
    }
  }

  /** What an invocation asks of the delegation it cites for a capability that is not the invoker's own. */
  ghost predicate Invocable(w: World, db: Db, invoker: string, cites: seq<Hash>, c: Cap, now: int) {
    exists p, pc :: p in cites && p in db && pc in db[p].caps
                    && Identity.PrincipalMatches(w.h, db[p].delegatee, invoker)
                    && Open(db[p].window, now) && Covers(w.net, w.reg, pc, c) && w.contains(pc.caveats, c.caveats)
  }

  /** In every run, what an invoker may do beyond their own resources an owner granted, and the grant is in force. */
  lemma InvocationTracesToOwner(w: World, states: seq<Db>, rows: seq<(Hash, Row)>, i: nat, invoker: string,
      cites: seq<Hash>, c: Cap, now: int)
    requires IsRun(w, states, rows) && i <= |rows| && Invocable(w, states[i], invoker, cites, c, now)
    ensures exists root, rc ::
              && root in states[i] && rc in states[i][root].caps && RootAuthority(w, rc, states[i][root].delegator)
              && Covers(w.net, w.reg, rc, c) && Open(states[i][root].window, now)
  {
    EveryCapabilityTraces(w, states, rows, i);
    hide Covers, RootAuthority, IsRun, Traces;
    var db := states[i];
    var p, pc :| p in cites && p in db && pc in db[p].caps && Identity.PrincipalMatches(w.h, db[p].delegatee, invoker)
                 && Open(db[p].window, now) && Covers(w.net, w.reg, pc, c) && w.contains(pc.caveats, c.caveats);
    var links :| Traces(w, db, p, pc, links);
    TraceNeverWidens(w, db, p, pc, links);
    var root, rc :| root in db && rc in db[root].caps && RootAuthority(w, rc, db[root].delegator)
                    && Covers(w.net, w.reg, rc, pc) && Inside(db[p].window, db[root].window);
    CoversTransitive(w.net, w.reg, rc, pc, c);
  }

  // ---- Custody, on the rows alone ----

  /** The principal owns the space or the encryption network. */
  predicate Owns(w: World, did: string, resource: Resource) {
    match resource
    case TinyCloud(id) => Identity.PrincipalMatches(w.h, id.space.did, did)
    case Other(uri) => w.net(uri).Some? && Identity.PrincipalMatches(w.h, w.owner(w.net(uri).value), did)
  }

  /** The child's row ends no later and starts no earlier. */
  predicate Shorter(child: Window, parent: Window) {
    && (parent.expiry.Some? ==> child.expiry.Some? && child.expiry.value <= parent.expiry.value)
    && (parent.notBefore.Some? ==> child.notBefore.Some? && child.notBefore.value >= parent.notBefore.value)
  }

  /**
   The child was made by the one the parent was made to, and the parent may be passed on; the child's
   capability lies within the parent's in resource, ability, caveats and time.
   */
  ghost predicate HandsOver(w: World, parent: Row, pc: Cap, child: Row, c: Cap) {
    && child.delegator == parent.delegatee && !parent.terminal
    && Within(w.net, c.resource, pc.resource) && Matches(w.reg, pc.ability, c.ability)
    && w.contains(pc.caveats, c.caveats) && Shorter(child.window, parent.window)
  }

  ghost predicate HandedOn(w: World, db: Db, p: Hash, pc: Cap, id: Hash, c: Cap)
    requires p in db && id in db
  {
    p in db[id].parents && HandsOver(w, db[p], pc, db[id], c)
  }

  lemma PassesIff(w: World, parent: Row, pc: Cap, child: Row, c: Cap)
    ensures Passes(w, parent, pc, child, c) <==> pc in parent.caps && HandsOver(w, parent, pc, child, c)
  {
    hide Within, Matches;
    CoversIff(w.net, w.reg, pc, c);
    hide Covers;
  }

  /** Stored rows from one made by the owner of the resource down to this one, each handed on to the next. */
  ghost predicate Custody(w: World, db: Db, chain: seq<(Hash, Cap)>, id: Hash, c: Cap) {
    && chain != [] && chain[|chain| - 1] == (id, c)
    && (forall i :: 0 <= i < |chain| ==> chain[i].0 in db && chain[i].1 in db[chain[i].0].caps)
    && Owns(w, db[chain[0].0].delegator, chain[0].1.resource)
    && (forall i :: 0 <= i < |chain| - 1 ==>
          HandedOn(w, db, chain[i].0, chain[i].1, chain[i + 1].0, chain[i + 1].1))
  }

  lemma PassesOn(w: World, db: Db, p: Hash, pc: Cap, id: Hash, c: Cap)
    requires id in db && p in db && p in db[id].parents && Passes(w, db[p], pc, db[id], c)
    ensures HandedOn(w, db, p, pc, id, c)
  {
    hide Passes, HandsOver;
    PassesIff(w, db[p], pc, db[id], c);
  }

  lemma CustodyGrows(w: World, db: Db, chain: seq<(Hash, Cap)>, p: Hash, pc: Cap, id: Hash, c: Cap)
    requires Custody(w, db, chain, p, pc) && id in db && c in db[id].caps && HandedOn(w, db, p, pc, id, c)
    ensures Custody(w, db, chain + [(id, c)], id, c)
  {
    hide HandedOn, Owns;
    var grown := chain + [(id, c)];
    assert forall i :: 0 <= i < |chain| ==> grown[i] == chain[i];
  }

  lemma {:induction false} TraceIsCustody(w: World, db: Db, id: Hash, c: Cap, links: seq<(Hash, Cap)>)
      returns (chain: seq<(Hash, Cap)>)
    requires Traces(w, db, id, c, links)
    ensures Custody(w, db, chain, id, c)
    decreases |links|
  {
    hide Passes, HandedOn, Within, Matches;
    if links == [] {
      chain := [(id, c)];
    } else {
      hide Custody, RootAuthority;
      var (p, pc) := links[0];
      chain := TraceIsCustody(w, db, p, pc, links[1..]);
      PassesOn(w, db, p, pc, id, c);
      CustodyGrows(w, db, chain, p, pc, id, c);
      chain := chain + [(id, c)];
    }
  }

  /** In every run, every stored capability has come down from the owner of its resource, hand to hand. */
  lemma EveryCapabilityIsHandedDown(w: World, states: seq<Db>, rows: seq<(Hash, Row)>, i: nat, id: Hash, c: Cap)
      returns (chain: seq<(Hash, Cap)>)
    requires IsRun(w, states, rows) && i <= |rows| && id in states[i] && c in states[i][id].caps
    ensures Custody(w, states[i], chain, id, c)
  {
    EveryCapabilityTraces(w, states, rows, i);
    hide IsRun, Traces, Custody;
    var links :| Traces(w, states[i], id, c, links);
    chain := TraceIsCustody(w, states[i], id, c, links);
  }

  /** The row is in force: not expired, and started. */
  predicate InForce(row: Row, now: int) {
    && (row.window.expiry.Some? ==> now < row.window.expiry.value)
    && (row.window.notBefore.Some? ==> row.window.notBefore.value <= now)
  }

  /** If the last row of a custody is in force, all are. */
  lemma {:induction false} CustodyInForce(
    w: World, db: Db, chain: seq<(Hash, Cap)>, id: Hash, c: Cap, now: int, i: nat)
    requires Custody(w, db, chain, id, c) && InForce(db[id], now) && i < |chain|
    ensures InForce(db[chain[i].0], now)
    decreases |chain| - i
  {
    hide Owns, Within, Matches;
    if i < |chain| - 1 {
      CustodyInForce(w, db, chain, id, c, now, i + 1);
      assert HandedOn(w, db, chain[i].0, chain[i].1, chain[i + 1].0, chain[i + 1].1);
    }
  }

  /**
   In every run, an invocation beyond the invoker's own resources cites a row made to the invoker's
   principal, which has come down from the owner hand to hand, with every row on the way in force now;
   what is invoked lies within its capability.
   */
  lemma InvocationIsHandedDown(w: World, states: seq<Db>, rows: seq<(Hash, Row)>, i: nat, invoker: string,
                               cites: seq<Hash>, c: Cap, now: int)
      returns (chain: seq<(Hash, Cap)>, p: Hash, pc: Cap)
    requires IsRun(w, states, rows) && i <= |rows| && Invocable(w, states[i], invoker, cites, c, now)
    ensures Custody(w, states[i], chain, p, pc) && p in cites && p in states[i]
    ensures Identity.PrincipalMatches(w.h, states[i][p].delegatee, invoker)
    ensures Within(w.net, c.resource, pc.resource) && Matches(w.reg, pc.ability, c.ability)
    ensures w.contains(pc.caveats, c.caveats)
    ensures forall k :: 0 <= k < |chain| ==> chain[k].0 in states[i] && InForce(states[i][chain[k].0], now)
  {
    var db := states[i];
    p, pc :| p in cites && p in db && pc in db[p].caps && Identity.PrincipalMatches(w.h, db[p].delegatee, invoker)
             && Open(db[p].window, now) && Covers(w.net, w.reg, pc, c) && w.contains(pc.caveats, c.caveats);
    assert InForce(db[p], now);
    CoversIff(w.net, w.reg, pc, c);
    chain := EveryCapabilityIsHandedDown(w, states, rows, i, p, pc);
    forall k | 0 <= k < |chain| ensures chain[k].0 in db && InForce(db[chain[k].0], now) {
      CustodyInForce(w, db, chain, p, pc, now, k);
    }
    hide IsRun, Covers, Within, Matches, InForce;
  }

  // ---- Terminal rows ----

  /** A row with a capability that is not its delegator's own cites no terminal row made to the delegator. */
  predicate CitesNoTerminal(w: World, db: Db, row: Row) {
    (exists c :: c in row.caps && !Owns(w, row.delegator, c.resource)) ==>
      forall p :: p in row.parents && p in db && db[p].delegatee == row.delegator ==> !db[p].terminal
  }

  /** In every run no stored row passes on anything while citing a terminal one, and what a row cites is stored. */
  lemma {:induction false} TerminalEndsChains(w: World, states: seq<Db>, rows: seq<(Hash, Row)>, i: nat, id: Hash)
    requires IsRun(w, states, rows) && i <= |rows| && id in states[i]
    ensures CitesNoTerminal(w, states[i], states[i][id]) && forall p :: p in states[i][id].parents ==> p in states[i]
    decreases i
  {
    if i > 0 {
      assert Accepted(w, states[i - 1], rows[i - 1].1);
      if id in states[i - 1] {
        TerminalEndsChains(w, states, rows, i - 1, id);
      } else {
        AcceptedCites(w, states[i - 1], rows[i - 1].1);
      }
      hide Accepted, Owns;
    }
  }

  /** A cited row hands the capability over. */
  ghost predicate HandedOver(w: World, db: Db, row: Row, c: Cap) {
    exists p, pc :: p in row.parents && p in db && pc in db[p].caps && HandsOver(w, db[p], pc, row, c)
  }

  lemma SupportedIff(w: World, db: Db, row: Row, c: Cap)
    ensures Supported(w, db, row, c) <==> HandedOver(w, db, row, c)
  {
    hide Passes, HandsOver;
    if Supported(w, db, row, c) {
      var p, pc :| p in row.parents && p in db && Passes(w, db[p], pc, row, c);
      PassesIff(w, db[p], pc, row, c);
    }
    if HandedOver(w, db, row, c) {
      var p, pc :| p in row.parents && p in db && pc in db[p].caps && HandsOver(w, db[p], pc, row, c);
      PassesIff(w, db[p], pc, row, c);
    }
  }

  /**
   On the rows: a delegation is accepted exactly when what it cites is stored, each of its capabilities
   is the delegator's own or handed over by a cited row, and unless all are the delegator's own it cites
   no terminal row made to the delegator.
   */
  lemma AcceptedIff(w: World, db: Db, row: Row)
    ensures Accepted(w, db, row) <==>
            && (forall p :: p in row.parents ==> p in db) && CitesNoTerminal(w, db, row)
            && forall c :: c in row.caps ==> Owns(w, row.delegator, c.resource) || HandedOver(w, db, row, c)
  {
    hide Supported, HandedOver;
    forall c
      ensures RootAuthority(w, c, row.delegator) <==> Owns(w, row.delegator, c.resource)
      ensures Supported(w, db, row, c) <==> HandedOver(w, db, row, c)
    {
      SupportedIff(w, db, row, c);
    }
    hide Owns, RootAuthority;
  }

  lemma AcceptedCites(w: World, db: Db, row: Row)
    requires Accepted(w, db, row)
    ensures CitesNoTerminal(w, db, row) && forall p :: p in row.parents ==> p in db
  {
    hide Accepted, CitesNoTerminal, HandedOver, Owns;
    AcceptedIff(w, db, row);
  }

  // ---- A whole invocation ----

  /** What the chain walk returns for a delegation, unless it gives up. */
  type Walker = Hash -> Option<set<Hash>>

  function StoredOf(db: Db, cites: seq<Hash>): set<Hash> {
    set p | p in cites && p in db
  }

  /** The stored row was made to the invoker's principal, and all that was walked above it is open. */
  predicate Stands(w: World, db: Db, walk: Walker, invoker: string, p: Hash, now: int)
    requires p in db
  {
    && Identity.PrincipalMatches(w.h, db[p].delegatee, invoker)
    && walk(p).Some? && forall x :: x in walk(p).value ==> x in db && Open(db[x].window, now)
  }

  /**
   An invocation is authorized when all its capabilities are the invoker's own, or else when as many
   delegations are stored as it cites, all made to its principal and in force with all that was walked
   above them, and each capability that is not its own is supported by one of them.
   */
  ghost predicate Authorized(
    w: World, db: Db, walk: Walker, invoker: string, cites: seq<Hash>, caps: seq<Cap>, now: int)
  {
    if forall c :: c in caps ==> RootAuthority(w, c, invoker) then true
    else
      && cites != [] && |StoredOf(db, cites)| == |cites|
      && (forall p :: p in cites && p in db ==> Stands(w, db, walk, invoker, p, now))
      && (forall c :: c in caps && !RootAuthority(w, c, invoker) ==> Invocable(w, db, invoker, cites, c, now))
  }

  /** It is stored and made to the invoker's principal, and all that was walked above it is stored and in force. */
  predicate Good(w: World, db: Db, walk: Walker, invoker: string, p: Hash, now: int) {
    && p in db && Identity.PrincipalMatches(w.h, db[p].delegatee, invoker)
    && walk(p).Some? && forall x :: x in walk(p).value ==> x in db && InForce(db[x], now)
  }

  /** A cited row that is in force holds a capability within which this one lies. */
  ghost predicate Held(w: World, db: Db, cites: seq<Hash>, c: Cap, now: int) {
    exists p, pc ::
      && p in cites && p in db && pc in db[p].caps && InForce(db[p], now)
      && Within(w.net, c.resource, pc.resource) && Matches(w.reg, pc.ability, c.ability)
      && w.contains(pc.caveats, c.caveats)
  }

  lemma InvocableIff(w: World, db: Db, invoker: string, cites: seq<Hash>, c: Cap, now: int)
    requires forall p :: p in cites && p in db ==> Identity.PrincipalMatches(w.h, db[p].delegatee, invoker)
    ensures Invocable(w, db, invoker, cites, c, now) <==> Held(w, db, cites, c, now)
  {
    forall pc ensures Covers(w.net, w.reg, pc, c) <==>
                      Within(w.net, c.resource, pc.resource) && Matches(w.reg, pc.ability, c.ability)
    {
      CoversIff(w.net, w.reg, pc, c);
    }
    forall p | p in db ensures InForce(db[p], now) <==> Open(db[p].window, now) {
    }
    hide Covers, Within, Matches, InForce, Open;
  }

  lemma CountedIff(db: Db, cites: seq<Hash>)
    ensures |StoredOf(db, cites)| == |cites| <==> Distinct(cites) && forall p :: p in cites ==> p in db
  {
    var stored := StoredOf(db, cites);
    ElemsSize(cites);
    SubsetSize(stored, Elems(cites));
    if |stored| == |cites| {
      SizesDistinct(cites);
      assert forall p :: p in cites ==> p in Elems(cites);
    }
    if Distinct(cites) && forall p :: p in cites ==> p in db {
      DistinctSize(cites);
      assert stored == Elems(cites);
    }
  }

  lemma StandsIff(w: World, db: Db, walk: Walker, invoker: string, p: Hash, now: int)
    requires p in db
    ensures Stands(w, db, walk, invoker, p, now) <==> Good(w, db, walk, invoker, p, now)
  {
    forall x | x in db ensures InForce(db[x], now) <==> Open(db[x].window, now) {
    }
    hide InForce, Open;
  }

  lemma OwnIff(w: World, c: Cap, did: string)
    ensures RootAuthority(w, c, did) <==> Owns(w, did, c.resource)
  {
  }

  /** The same on the rows alone. */
  lemma AuthorizedIff(w: World, db: Db, walk: Walker, invoker: string, cites: seq<Hash>, caps: seq<Cap>, now: int)
    ensures Authorized(w, db, walk, invoker, cites, caps, now) <==>
            || (forall c :: c in caps ==> Owns(w, invoker, c.resource))
            || (&& cites != [] && Distinct(cites) && (forall p :: p in cites ==> Good(w, db, walk, invoker, p, now))
                && (forall c :: c in caps ==> Owns(w, invoker, c.resource) || Held(w, db, cites, c, now)))
  {
    hide RootAuthority, Owns, Invocable, Held, Distinct, Stands, Good, StoredOf;
    CountedIff(db, cites);
    forall c | c in caps ensures RootAuthority(w, c, invoker) <==> Owns(w, invoker, c.resource) {
      OwnIff(w, c, invoker);
    }
    forall p | p in cites && p in db
      ensures Stands(w, db, walk, invoker, p, now) <==> Good(w, db, walk, invoker, p, now)
    {
      StandsIff(w, db, walk, invoker, p, now);
    }
    if forall p :: p in cites ==> p in db && Good(w, db, walk, invoker, p, now) {
      forall c | c in caps ensures Invocable(w, db, invoker, cites, c, now) <==> Held(w, db, cites, c, now) {
        GoodHeld(w, db, walk, invoker, cites, c, now);
      }
    }
    forall p | p in cites && Good(w, db, walk, invoker, p, now) ensures p in db {
      GoodStored(w, db, walk, invoker, p, now);
    }
  }

  lemma GoodStored(w: World, db: Db, walk: Walker, invoker: string, p: Hash, now: int)
    requires Good(w, db, walk, invoker, p, now)
    ensures p in db
  {
  }

  lemma GoodHeld(w: World, db: Db, walk: Walker, invoker: string, cites: seq<Hash>, c: Cap, now: int)
    requires forall p :: p in cites ==> Good(w, db, walk, invoker, p, now)
    ensures Invocable(w, db, invoker, cites, c, now) <==> Held(w, db, cites, c, now)
  {
    forall p | p in cites ensures p in db && Identity.PrincipalMatches(w.h, db[p].delegatee, invoker) {
      assert Good(w, db, walk, invoker, p, now);
    }
    hide Invocable, Held, Good;
    InvocableIff(w, db, invoker, cites, c, now);
  }

  /** In every run, whatever an authorized invocation does beyond the invoker's own was handed down to them. */
  lemma AuthorizedIsHandedDown(w: World, states: seq<Db>, rows: seq<(Hash, Row)>, i: nat, walk: Walker, invoker: string,
                               cites: seq<Hash>, caps: seq<Cap>, now: int, c: Cap)
      returns (chain: seq<(Hash, Cap)>, p: Hash, pc: Cap)
    requires IsRun(w, states, rows) && i <= |rows| && Authorized(w, states[i], walk, invoker, cites, caps, now)
    requires c in caps && !Owns(w, invoker, c.resource)
    ensures Custody(w, states[i], chain, p, pc) && p in cites && p in states[i]
    ensures Identity.PrincipalMatches(w.h, states[i][p].delegatee, invoker)
    ensures Within(w.net, c.resource, pc.resource) && Matches(w.reg, pc.ability, c.ability)
    ensures w.contains(pc.caveats, c.caveats)
    ensures forall k :: 0 <= k < |chain| ==> chain[k].0 in states[i] && InForce(states[i][chain[k].0], now)
  {
    assert !RootAuthority(w, c, invoker);
    hide IsRun, Custody, RootAuthority, Owns, Within, Matches, Invocable, InForce;
    chain, p, pc := InvocationIsHandedDown(w, states, rows, i, invoker, cites, c, now);
  }
}
