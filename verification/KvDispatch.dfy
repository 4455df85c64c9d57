/** Turning an invocation's capabilities into KV operations (`invoke_with_options` in tinycloud-core/src/db.rs). */
module KvDispatch {
  import opened Order
  import opened Registry
  import opened SpaceTables
  import opened SpaceProtocol

  /** A capability on a TinyCloud resource, as invoked. */
  datatype Invoked = Invoked(space: Space, service: string, ability: string, path: Option<string>)

  const KV_PUT := "tinycloud.kv/put"

  predicate IsPut(cap: Invoked) {
    cap.service == "kv" && Resolve(GENERATED, cap.ability) == KV_PUT && cap.path.Some?
  }

  predicate IsDel(cap: Invoked) {
    cap.service == "kv" && Resolve(GENERATED, cap.ability) == KV_DEL && cap.path.Some?
  }

  predicate Mutates(cap: Invoked) {
    IsPut(cap) || IsDel(cap)
  }

  function KeyOf(cap: Invoked): ObjectId
    requires cap.path.Some?
  {
    ObjectId(cap.space, cap.path.value)
  }

  /** The keys to guard, in the order of the capabilities. */
  function MutationKeys(caps: seq<Invoked>): seq<ObjectId> {
    if caps == [] then []
    else
      var before, last := MutationKeys(caps[..|caps| - 1]), caps[|caps| - 1];
      if Mutates(last) then before + [KeyOf(last)] else before
  }

  function OpKeys(ops: seq<KvOp>): (ks: seq<ObjectId>)
    ensures |ks| == |ops| && forall i :: 0 <= i < |ops| ==> ks[i] == ops[i].key
  {
    seq(|ops|, i requires 0 <= i < |ops| => ops[i].key)
  }

  predicate PutsDistinct(ops: seq<KvOp>) {
    forall i, j :: 0 <= i < j < |ops| && ops[i].Put? && ops[j].Put? ==> ops[i].key != ops[j].key
  }

  // ---- What a capability asks for, by its ability string ----

  predicate Puts(cap: Invoked) {
    cap.service == "kv" && cap.path.Some? && cap.ability == "tinycloud.kv/put"
  }

  predicate Deletes(cap: Invoked) {
    cap.service == "kv" && cap.path.Some? && (cap.ability == "tinycloud.kv/del" || cap.ability == "tinycloud.kv/delete")
  }

  /** Resolving aliases comes to these strings. */
  lemma AbilitiesDecide(cap: Invoked)
    ensures (IsPut(cap) <==> Puts(cap)) && (IsDel(cap) <==> Deletes(cap)) && !(Puts(cap) && Deletes(cap))
  {
    assert KV_PUT[13] == 'p' && KV_DEL[13] == 'd' && |KV_DELETE| > |KV_DEL|;
    NamesDiffer();
    if cap.ability in GENERATED.aliases {
      assert cap.ability == DUCKDB_SELECT || cap.ability == KV_DELETE || cap.ability == SQL_SELECT;
    }
  }

  /** The capabilities that put or delete, in order. */
  function Mutating(caps: seq<Invoked>): (r: seq<Invoked>)
    ensures forall i :: 0 <= i < |r| ==> Puts(r[i]) || Deletes(r[i])
  {
    if caps == [] then []
    else
      var before, last := Mutating(caps[..|caps| - 1]), caps[|caps| - 1];
      if Puts(last) || Deletes(last) then before + [last] else before
  }

  /** The operation is the one the capability asks for, on its object, with the input given for it. */
  predicate StagesAs(cap: Invoked, op: KvOp, inputs: map<ObjectId, Entry>) {
    && cap.path.Some? && op.key == ObjectId(cap.space, cap.path.value)
    && match op
       case Put(key, entry) => Puts(cap) && key in inputs && entry == inputs[key]
       case Del(_) => Deletes(cap)
  }

  predicate Staged(caps: seq<Invoked>, inputs: map<ObjectId, Entry>, ops: seq<KvOp>) {
    && |ops| == |Mutating(caps)|
    && forall i :: 0 <= i < |ops| ==> StagesAs(Mutating(caps)[i], ops[i], inputs)
  }

  /** The guarded keys are those of the capabilities that put or delete. */
  lemma {:induction false} MutationKeysAre(caps: seq<Invoked>)
    ensures |MutationKeys(caps)| == |Mutating(caps)|
    ensures forall i :: 0 <= i < |Mutating(caps)| ==>
              MutationKeys(caps)[i] == ObjectId(Mutating(caps)[i].space, Mutating(caps)[i].path.value)
  {
    hide Resolve, Puts, Deletes;
    if caps != [] {
      MutationKeysAre(caps[..|caps| - 1]);
      AbilitiesDecide(caps[|caps| - 1]);
    }
  }

  /** A deprecated delete is dispatched like the canonical one. */
  lemma AliasedDelete(cap: Invoked)
    requires cap.service == "kv" && cap.ability == KV_DELETE && cap.path.Some?
    ensures IsDel(cap)
  {
  }

  /** One of the first `i` operations puts the key. */
  predicate Taken(caps: seq<Invoked>, i: nat, key: ObjectId)
    requires i <= |caps|
  {
    exists j :: 0 <= j < i && IsPut(caps[j]) && KeyOf(caps[j]) == key
  }

  /** A put without input, or whose input an earlier put has taken. */
  predicate LacksInput(caps: seq<Invoked>, inputs: map<ObjectId, Entry>, i: nat)
    requires i < |caps|
  {
    IsPut(caps[i]) && (KeyOf(caps[i]) !in inputs || Taken(caps, i, KeyOf(caps[i])))
  }

  lemma TakenNext(caps: seq<Invoked>, i: nat, key: ObjectId)
    requires i < |caps|
    ensures Taken(caps, i + 1, key) <==> Taken(caps, i, key) || (IsPut(caps[i]) && KeyOf(caps[i]) == key)
  {
  }

  lemma StagedNext(caps: seq<Invoked>, inputs: map<ObjectId, Entry>, ops: seq<KvOp>, cap: Invoked, op: KvOp)
    requires Staged(caps, inputs, ops) && (Puts(cap) || Deletes(cap)) && StagesAs(cap, op, inputs)
    ensures Staged(caps + [cap], inputs, ops + [op])
  {
    hide Puts, Deletes, StagesAs;
    assert (caps + [cap])[..|caps|] == caps;
  }

  lemma PutStaged(caps: seq<Invoked>, inputs: map<ObjectId, Entry>, ops: seq<KvOp>, cap: Invoked)
    requires Staged(caps, inputs, ops) && IsPut(cap) && KeyOf(cap) in inputs
    ensures Staged(caps + [cap], inputs, ops + [Put(KeyOf(cap), inputs[KeyOf(cap)])])
  {
    hide Resolve, Staged;
    AbilitiesDecide(cap);
    StagedNext(caps, inputs, ops, cap, Put(KeyOf(cap), inputs[KeyOf(cap)]));
  }

  lemma DelStaged(caps: seq<Invoked>, inputs: map<ObjectId, Entry>, ops: seq<KvOp>, cap: Invoked)
    requires Staged(caps, inputs, ops) && IsDel(cap)
    ensures Staged(caps + [cap], inputs, ops + [Del(KeyOf(cap))])
  {
    hide Resolve, Staged;
    AbilitiesDecide(cap);
    StagedNext(caps, inputs, ops, cap, Del(KeyOf(cap)));
  }

  lemma StagedSkips(caps: seq<Invoked>, inputs: map<ObjectId, Entry>, ops: seq<KvOp>, cap: Invoked)
    requires Staged(caps, inputs, ops) && !IsPut(cap) && !IsDel(cap)
    ensures Staged(caps + [cap], inputs, ops)
  {
    AbilitiesDecide(cap);
    hide IsPut, IsDel, Puts, Deletes, StagesAs;
    assert (caps + [cap])[..|caps|] == caps;
  }

  lemma {:induction false} StagedKeys(caps: seq<Invoked>, inputs: map<ObjectId, Entry>, ops: seq<KvOp>)
    requires Staged(caps, inputs, ops)
    ensures OpKeys(ops) == MutationKeys(caps)
  {
    hide Puts, Deletes, MutationKeys, Mutating;
    MutationKeysAre(caps);
    forall i | 0 <= i < |ops| ensures OpKeys(ops)[i] == MutationKeys(caps)[i] {
      assert StagesAs(Mutating(caps)[i], ops[i], inputs);
    }
  }

  /**
   Stages the operations: for each capability that puts or deletes the operation it asks for, in order,
   on exactly the guarded keys. A put takes its input away, so a key is put at most once, and staging
   fails exactly when some put finds no input.
   */
  method Stage(caps: seq<Invoked>, inputs: map<ObjectId, Entry>) returns (r: Option<seq<KvOp>>)
    ensures r.Some? ==> Staged(caps, inputs, r.value) && OpKeys(r.value) == MutationKeys(caps) && PutsDistinct(r.value)
    ensures r.None? <==> exists i :: 0 <= i < |caps| && LacksInput(caps, inputs, i)
  {
    hide Resolve, Taken, Staged, StagesAs, MutationKeys, Puts, Deletes;
    var ops: seq<KvOp> := [];
    var left := inputs;
    assert Staged([], inputs, []) by { NoneStaged(inputs); }
    assert forall k :: !Taken(caps, 0, k) by { NothingTaken(caps); }
    for i := 0 to |caps|
      invariant Staged(caps[..i], inputs, ops) && PutsDistinct(ops)
      invariant forall op :: op in ops && op.Put? ==> op.key !in left
      invariant forall k :: k in left <==> k in inputs && !Taken(caps, i, k)
      invariant forall k :: k in left ==> left[k] == inputs[k]
      invariant forall j :: 0 <= j < i ==> !LacksInput(caps, inputs, j)
    {
      var cap := caps[i];
      assert caps[..i + 1] == caps[..i] + [cap];
      forall k ensures Taken(caps, i + 1, k) <==> Taken(caps, i, k) || (IsPut(cap) && KeyOf(cap) == k) {
        TakenNext(caps, i, k);
      }
      if IsPut(cap) {
        var key := KeyOf(cap);
        if key !in left {
          assert LacksInput(caps, inputs, i);
          return None;
        }
        PutStaged(caps[..i], inputs, ops, cap);
        ops, left := ops + [Put(key, left[key])], left - {key};
      } else if IsDel(cap) {
        DelStaged(caps[..i], inputs, ops, cap);
        ops := ops + [Del(KeyOf(cap))];
      } else {
        StagedSkips(caps[..i], inputs, ops, cap);
      }
    }
    assert caps[..|caps|] == caps;
    StagedKeys(caps, inputs, ops);
    r := Some(ops);
  }

  lemma NoneStaged(inputs: map<ObjectId, Entry>)
    ensures Staged([], inputs, [])
  {
  }

  lemma NothingTaken(caps: seq<Invoked>)
    ensures forall k :: !Taken(caps, 0, k)
  {
  }

  // ---- What the staged operations do ----

  lemma {:induction false} ApplyOpsSnoc(store: map<ObjectId, Entry>, ops: seq<KvOp>, op: KvOp)
    ensures var before := ApplyOps(store, ops);
            ApplyOps(store, ops + [op]) == match op case Put(o, e) => before[o := e] case Del(o) => before - {o}
    decreases |ops|
  {
    if ops == [] {
      assert (ops + [op])[1..] == [];
    } else {
      assert (ops + [op])[1..] == ops[1..] + [op];
      match ops[0]
      case Put(o, e) => ApplyOpsSnoc(store[o := e], ops[1..], op);
      case Del(o) => ApplyOpsSnoc(store - {o}, ops[1..], op);
    }
  }

  /** The operations staged for all capabilities but the last. */
  lemma StagedInit(caps: seq<Invoked>, inputs: map<ObjectId, Entry>, ops: seq<KvOp>) returns (before: seq<KvOp>)
    requires caps != [] && Staged(caps, inputs, ops)
    ensures Staged(caps[..|caps| - 1], inputs, before)
    ensures var last := caps[|caps| - 1];
            if Puts(last) || Deletes(last) then
              ops != [] && ops == before + [ops[|ops| - 1]] && StagesAs(last, ops[|ops| - 1], inputs)
            else ops == before
  {
    hide Puts, Deletes, StagesAs;
    var last := caps[|caps| - 1];
    before := if Puts(last) || Deletes(last) then ops[..|ops| - 1] else ops;
  }

  predicate Touches(cap: Invoked, key: ObjectId) {
    (Puts(cap) || Deletes(cap)) && ObjectId(cap.space, cap.path.value) == key
  }

  /** A key no capability touches keeps what it had. */
  lemma {:induction false} UntouchedStays(
    caps: seq<Invoked>, inputs: map<ObjectId, Entry>, ops: seq<KvOp>, store: map<ObjectId, Entry>, key: ObjectId)
    requires Staged(caps, inputs, ops) && forall i :: 0 <= i < |caps| ==> !Touches(caps[i], key)
    ensures var after := ApplyOps(store, ops);
            (key in after <==> key in store) && (key in store ==> after[key] == store[key])
    decreases |caps|
  {
    hide Puts, Deletes, Staged, ApplyOps;
    if caps == [] {
      NothingStaged(inputs, ops, store);
    } else {
      var last := caps[|caps| - 1];
      var before := StagedInit(caps, inputs, ops);
      UntouchedStays(caps[..|caps| - 1], inputs, before, store, key);
      if Puts(last) || Deletes(last) {
        ApplyOpsSnoc(store, before, ops[|ops| - 1]);
      }
    }
  }

  lemma {:induction false} NothingStaged(inputs: map<ObjectId, Entry>, ops: seq<KvOp>, store: map<ObjectId, Entry>)
    requires Staged([], inputs, ops)
    ensures ops == [] && ApplyOps(store, ops) == store
  {
  }

  /** A key holds its input if the last capability that touches it puts, and nothing if that one deletes. */
  lemma {:induction false} LastMutationDecides(
    caps: seq<Invoked>, inputs: map<ObjectId, Entry>, ops: seq<KvOp>, store: map<ObjectId, Entry>, j: nat,
    key: ObjectId)
    requires Staged(caps, inputs, ops) && j < |caps| && Touches(caps[j], key)
    requires forall i :: j < i < |caps| ==> !Touches(caps[i], key)
    ensures var after := ApplyOps(store, ops);
            && (caps[j].ability == "tinycloud.kv/put" ==> key in inputs && key in after && after[key] == inputs[key])
            && (caps[j].ability == "tinycloud.kv/del" || caps[j].ability == "tinycloud.kv/delete" ==> key !in after)
    decreases |caps|
  {
    AbilitiesDecide(caps[j]);
    hide Staged, ApplyOps, Resolve;
    var last := caps[|caps| - 1];
    var before := StagedInit(caps, inputs, ops);
    if Puts(last) || Deletes(last) {
      ApplyOpsSnoc(store, before, ops[|ops| - 1]);
    }
    if j < |caps| - 1 {
      LastMutationDecides(caps[..|caps| - 1], inputs, before, store, j, key);
    }
  }
}
