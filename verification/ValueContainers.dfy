/**
 PersistentValueMap / GlobalValueMap over a backing map of words, with the re-entrant
 Clear, and PersistentValueVector over a backing vector of words. A map records what happens
 to it in `events`; a Disposed is recorded only by Traits::Dispose, in Dispose and Drop.
*/
module ValueContainers {
  import opened Basics
  import opened Cells
  import opened Engine
  import opened HandleModel
  import opened ContainerModel
  import opened PersistentHandles
  import opened Traces
  import opened MapOwnership
  import opened CallbackData
  import opened ClearSteps

  // The two map classes differ in their weak callbacks only; `kind` tells them apart.
  class ValueMap {
    const isolate: Isolate
    const kind: Kind
    const id: nat
    var impl: map<Key, Slot>
    ghost var events: seq<Event>

    constructor (isolate: Isolate, kind: Kind, id: nat)
      ensures this.isolate == isolate && this.kind == kind && this.id == id && impl == map[] && events == []
      ensures forall k :: !Contains(k) && Get(k) == None
    {
      this.isolate := isolate;
      this.kind := kind;
      this.id := id;
      impl := map[];
      events := [];
    }

    predicate Contains(key: Key)
      reads this
    {
      ContainerModel.Contains(impl, key)
    }

    // Local::New on the word: empty for a key that is not there.
    function Get(key: Key): (r: Option<Address>)
      reads this, isolate
    {
      ObjectOf(isolate.heap, Lookup(impl, key))
    }

    // A map that owns its cells contains exactly the keys of its backing map, and Get
    // answers for exactly these.
    lemma Contained(key: Key, others: set<Slot>)
      requires Owns(isolate.heap, impl, others)
      ensures Contains(key) <==> key in impl
      ensures Get(key).Some? <==> key in impl
      ensures key in impl ==> Get(key) == Some(isolate.heap.cells[impl[key]].referent)
    {
      assert key in impl ==> impl[key] in Words(impl);
    }

    lemma Emptied()
      requires impl == map[]
      ensures forall k :: !Contains(k) && Get(k) == None
    {
    }

    function Self(): Maker {
      Maker(kind, id)
    }

    method Release(v: Slot) returns (r: Handle)
      modifies isolate
      ensures fresh(r) && Held(isolate.heap, r.val) == HandleModel.Release(old(isolate.heap), !kind.Plain?, v)
      ensures r.val == v && (kind.Plain? ==> isolate.heap == old(isolate.heap))
      ensures !kind.Plain? && v != 0 && Cells.IsWeak(old(isolate.heap), v) ==> (
        var c := old(isolate.heap).cells[v];
        && isolate.heap.cells == old(isolate.heap).cells[v := c.(state := Strong, param := None)]
        && isolate.heap.returned
          == old(isolate.heap).returned + (if c.param.Some? then multiset{c.param.value} else multiset{})
      )
      ensures !(v != 0 && Cells.IsWeak(old(isolate.heap), v)) ==> isolate.heap == old(isolate.heap)
    {
      var p := new Handle();
      p.val := v;
      if !kind.Plain? && p.IsWeak(isolate) {
        var data := p.ClearWeak(isolate);
        if data.Some? {
          isolate.ReturnData(data.value);
        }
      }
      r := new Handle.Move(p);
      p.Reset(isolate);
    }

    // Stores the handle's pointer and returns the old value. In a weak map `data` is the new
    // memory that WeakCallbackParameter returns.
    method SetUnique(key: Key, persistent: Handle) returns (r: Handle, ghost data: Param)
      requires persistent.val != 0
      modifies this, isolate, persistent
      ensures fresh(r) && persistent.val == 0
      ensures data.MapMade? && data.container == id && data.key == key
      ensures !kind.Plain? ==> data !in old(isolate.heap).made
      ensures Stored(isolate.heap, impl, r.val) == ContainerModel.SetUnique(
        old(isolate.heap), kind, old(impl), key, old(persistent.val), data)
      ensures kind.Plain? && old(persistent.val) in old(isolate.heap).cells ==> isolate.heap == old(isolate.heap)
      ensures Contains(key) && r.val == Lookup(old(impl), key)
      ensures Get(key) == ObjectOf(old(isolate.heap), old(persistent.val))
      ensures forall k :: k != key ==> Contains(k) == old(Contains(k)) && Get(k) == old(Get(k))
      ensures events == old(events) + [Set(key, Found(old(impl), key), old(persistent.val),
        ObjectOf(old(isolate.heap), old(persistent.val)))]
    {
      data := MapMade(id, key, 0);
      events := events + [Set(key, Found(impl, key), persistent.val, ObjectOf(isolate.heap, persistent.val))];
      if kind.Plain? {
        isolate.AnnotateStrongRetainer(persistent.val);
      } else {
        var parameter := isolate.WeakCallbackParameter(id, key);
        persistent.SetWeak(isolate, parameter);
        data := parameter;
      }
      var word := persistent.val;
      persistent.val := 0;
      var oldValue := Lookup(impl, key);
      impl := impl[key := word];
      r := Release(oldValue);
    }

    // Set with a reference: the word is leaked before the handle is stored.
    method SetWithReference(key: Key, persistent: Handle)
      returns (r: Handle, reference: Slot, ghost data: Param)
      requires persistent.val != 0
      modifies this, isolate, persistent
      ensures fresh(r) && persistent.val == 0
      ensures Stored(isolate.heap, impl, r.val) == ContainerModel.SetUnique(
        old(isolate.heap), kind, old(impl), key, old(persistent.val), data)
      ensures reference == Lookup(impl, key) != 0
    {
      reference := persistent.val;
      r, data := SetUnique(key, persistent);
    }

    method Remove(key: Key) returns (r: Handle)
      modifies this, isolate
      ensures fresh(r)
      ensures Stored(isolate.heap, impl, r.val) == ContainerModel.Remove(old(isolate.heap), kind, old(impl), key)
      ensures kind.Plain? ==> isolate.heap == old(isolate.heap)
      ensures !Contains(key) && Get(key) == None && r.val == Lookup(old(impl), key)
      ensures forall k :: k != key ==> Contains(k) == old(Contains(k)) && Get(k) == old(Get(k))
      ensures events == old(events) + [Removed(key, Found(old(impl), key))]
    {
      events := events + [Removed(key, Found(impl, key))];
      var word := Lookup(impl, key);
      impl := impl - {key};
      r := Release(word);
    }

    method RemoveWeak(key: Key)
      modifies this, isolate
      ensures Stored(isolate.heap, impl, 0) == ContainerModel.RemoveWeak(old(isolate.heap), old(impl), key)
      ensures !Contains(key) && forall k :: k != key ==> Contains(k) == old(Contains(k))
      ensures events == old(events) + [Collected(key, Found(old(impl), key))]
    {
      events := events + [Collected(key, Found(impl, key))];
      var p := new Handle();
      p.val := Lookup(impl, key);
      impl := impl - {key};
      p.Reset(isolate);
    }

    /**
     WeakCallback and OnWeakCallback, for the key and datum the traits class recovers;
     answers whether a second pass was set up. The hooks of the traits class are called in a
     first pass, where the engine allows them no calls but Reset: Dispose drops its value.
    */
    method WeakCallback(key: Key, data: Param) returns (secondPass: bool)
      requires !kind.Plain?
      modifies this, isolate
      ensures Stored(isolate.heap, impl, 0) == ContainerModel.FirstPass(old(isolate.heap), kind, old(impl), key, data)
      ensures secondPass == kind.WeakGlobal?
      ensures events == old(events) + if kind.WeakGlobal?
        then [Collected(key, Found(old(impl), key)), Notified(data)]
        else [Removed(key, Found(old(impl), key)), Disposed(key, Lookup(old(impl), key))]
    {
      if kind.WeakGlobal? {
        RemoveWeak(key);
        OnWeakCallback(data);
        secondPass := true;
      } else {
        var value := Remove(key);
        Drop(key, value);
        isolate.ReturnData(data);
        secondPass := false;
      }
    }

    // Traits::OnWeakCallback.
    method OnWeakCallback(data: Param)
      modifies this`events
      ensures events == old(events) + [Notified(data)]
    {
      events := events + [Notified(data)];
    }

    // Traits::Dispose of an embedder that only drops the value.
    method Drop(key: Key, value: Handle)
      modifies this`events, isolate, value
      ensures Held(isolate.heap, value.val) == HandleModel.Reset(old(isolate.heap), old(value.val))
      ensures events == old(events) + [Disposed(key, old(value.val))]
    {
      events := events + [Disposed(key, value.val)];
      value.Reset(isolate);
    }

    // What an embedder can do from inside Dispose: store a new handle, or remove a value;
    // the old value is dropped or kept. In these and the members below the map owns its cells
    // and its entries are marked as SetUnique leaves them.
    method Store(key: Key, referent: Address, keep: bool, ghost others: set<Slot>)
      requires Owns(isolate.heap, impl, others) && Marks(isolate.heap, Self(), impl)
      modifies this, isolate
      ensures key in impl && impl == old(impl)[key := impl[key]]
      ensures Owns(isolate.heap, impl, Keep(others, keep, Found(old(impl), key)))
      ensures keep && key in old(impl) ==> old(impl)[key] !in others
      ensures events == old(events) + [Set(key, Found(old(impl), key), impl[key], Some(referent))]
      ensures Settled(Self(), old(isolate.heap), Data(old(isolate.heap), Self(), old(impl)),
        [Set(key, Found(old(impl), key), impl[key], Some(referent))],
        isolate.heap, impl, others, Keep({}, keep, Found(old(impl), key)))
    {
      var persistent := new Handle.FromLocal(isolate, Some(referent));
      ghost var h, s := isolate.heap, persistent.val;
      assert h == GlobalizeReference(old(isolate.heap), referent, s) && Free(old(isolate.heap), s);
      assert s != 0 && ObjectOf(h, s) == Some(referent) && h.cells.Keys == old(isolate.heap).cells.Keys + {s};
      assert Self().kind == kind && Self().id == id;
      hide *;
      var displaced, data := SetUnique(key, persistent);
      StoreOwns(old(isolate.heap), h, kind, old(impl), others, key, s, data);
      StoreSettles(old(isolate.heap), h, Self(), old(impl), others, key, s, data, referent, keep);
      StoredParts(isolate.heap, impl, displaced.val, h, kind, old(impl), key, s, data);
      if !keep {
        displaced.Reset(isolate);
      }
      KeepFound(others, keep, old(impl), key);
    }

    method Discard(key: Key, keep: bool, ghost others: set<Slot>)
      requires Owns(isolate.heap, impl, others) && Marks(isolate.heap, Self(), impl)
      modifies this, isolate
      ensures impl == old(impl) - {key}
      ensures Owns(isolate.heap, impl, Keep(others, keep, Found(old(impl), key)))
      ensures keep && key in old(impl) ==> old(impl)[key] !in others
      ensures events == old(events) + [Removed(key, Found(old(impl), key))]
      ensures Settled(Self(), old(isolate.heap), Data(old(isolate.heap), Self(), old(impl)),
        [Removed(key, Found(old(impl), key))],
        isolate.heap, impl, others, Keep({}, keep, Found(old(impl), key)))
    {
      DiscardOwns(isolate.heap, kind, impl, others, key);
      DiscardSettles(isolate.heap, Self(), impl, others, key, keep);
      hide Owns, Found, Keep, Settled, Marks, Data;
      var removed := Remove(key);
      if !keep {
        removed.Reset(isolate);
      }
      KeepFound(others, keep, old(impl), key);
    }

    // A batch of the embedder's operations.
    method Run(ops: seq<MapOp>, script: seq<Batch>, ghost others: set<Slot>)
      returns (rest: seq<Batch>, ghost kept: set<Slot>, ghost ev: seq<Event>)
      requires Owns(isolate.heap, impl, others) && Marks(isolate.heap, Self(), impl)
      modifies this, isolate
      ensures events == old(events) + ev
      ensures Leads(Idle(old(impl), ops, script), ev, Done(impl, rest, kept), isolate.heap, others)
      ensures Settled(Self(), old(isolate.heap), Data(old(isolate.heap), Self(), old(impl)), ev,
        isolate.heap, impl, others, kept)
      ensures |rest| <= |script| && Budget(rest) + |impl| <= Budget(script) + |ops| + |old(impl)|
      decreases |script|, 5
    {
      assert Self().kind == kind && Self().id == id;
      hide *;
      rest, kept, ev := script, {}, [];
      NothingYet(isolate.heap, impl, ops, script, others);
      OthersLive(isolate.heap, impl, others);
      SettledNow(Self(), isolate.heap, impl, others);
      assert events == old(events) + [];
      for i := 0 to |ops|
        invariant events == old(events) + ev
        invariant Leads(Idle(old(impl), ops, script), ev, ToDo(impl, ops, i, rest, kept), isolate.heap, others)
        invariant Settled(Self(), old(isolate.heap), Data(old(isolate.heap), Self(), old(impl)), ev,
          isolate.heap, impl, others, kept)
        invariant |rest| <= |script| && Budget(rest) + |impl| <= Budget(script) + i + |old(impl)|
      {
        ghost var h, before, used := isolate.heap, impl, rest;
        ghost var moreKept, more;
        OwnsNow(Idle(old(impl), ops, script), ev, impl, ops, i, rest, kept, isolate.heap, others);
        SettledMarks(Self(), old(isolate.heap), Data(old(isolate.heap), Self(), old(impl)), ev,
          isolate.heap, impl, others, kept);
        rest, moreKept, more := RunOne(ops[i], rest, others + kept);
        OneOfMany(Idle(old(impl), ops, script), ev, h, before, ops, i, used, kept, others,
          more, isolate.heap, impl, rest, moreKept);
        SettledChain(Self(), old(isolate.heap), Data(old(isolate.heap), Self(), old(impl)), ev, h, before, others, kept,
          more, isolate.heap, impl, moreKept);
        Append3(old(events), ev, more);
        kept, ev := kept + moreKept, ev + more;
      }
      AllDone(impl, ops, rest, kept);
    }

    method RunOne(op: MapOp, script: seq<Batch>, ghost others: set<Slot>)
      returns (rest: seq<Batch>, ghost kept: set<Slot>, ghost ev: seq<Event>)
      requires Owns(isolate.heap, impl, others) && Marks(isolate.heap, Self(), impl)
      modifies this, isolate
      ensures events == old(events) + ev
      ensures Leads(Idle(old(impl), [op], script), ev, Done(impl, rest, kept), isolate.heap, others)
      ensures Settled(Self(), old(isolate.heap), Data(old(isolate.heap), Self(), old(impl)), ev,
        isolate.heap, impl, others, kept)
      ensures |rest| <= |script| && Budget(rest) + |impl| <= Budget(script) + 1 + |old(impl)|
      decreases |script|, 4
    {
      assert Self().kind == kind && Self().id == id;
      hide *;
      ghost var before := impl;
      match op
      case SetOp(k, referent, keep) =>
        Store(k, referent, keep, others);
        rest, kept, ev := script, Keep({}, keep, Found(before, k)), [Set(k, Found(before, k), impl[k], Some(referent))];
        OpExplained(isolate.heap, before, op, script, impl[k], others);
      case RemoveOp(k, keep) =>
        Discard(k, keep, others);
        rest, kept, ev := script, Keep({}, keep, Found(before, k)), [Removed(k, Found(before, k))];
        OpExplained(isolate.heap, before, op, script, 0, others);
      case ClearOp =>
        rest, kept, ev := Clear(script, others);
    }

    /**
     Traits::Dispose on a handed-out value: the embedder's next batch, then the value is
     kept, as it was handed out, or dropped.
    */
    method Dispose(key: Key, value: Handle, script: seq<Batch>, ghost others: set<Slot>)
      returns (rest: seq<Batch>, ghost kept: set<Slot>, ghost ev: seq<Event>)
      requires value.val != 0 && value.val !in others && Owns(isolate.heap, impl, others + {value.val})
      requires Marks(isolate.heap, Self(), impl)
      requires value.val in isolate.heap.cells && !Carries(isolate.heap.cells[value.val], id)
      modifies this, isolate, value
      ensures events == old(events) + ev && ev != [] && ev[0] == Disposed(key, old(value.val))
      ensures Leads(Handed(old(impl), key, old(value.val), script), ev, Done(impl, rest, kept), isolate.heap, others)
      ensures Settled(Self(), old(isolate.heap), Data(old(isolate.heap), Self(), old(impl)), ev,
        isolate.heap, impl, others, kept)
      ensures KeptAs(script, old(value.val), kept, isolate.heap, old(isolate.heap.cells[value.val]))
      ensures |rest| <= |script| && Budget(rest) + |impl| <= Budget(script) + |old(impl)|
      decreases |script|, 1
    {
      assert Self().kind == kind && Self().id == id;
      hide *;
      ghost var v, h0, impl0 := value.val, isolate.heap, impl;
      events := events + [Disposed(key, v)];
      if script == [] {
        rest, kept, ev := script, {}, [Disposed(key, v)];
        NoBatch(Self(), h0, impl0, key, v, others);
        value.Reset(isolate);
        return;
      }
      ghost var more;
      rest, kept, more := Run(script[0].ops, script[1..], others + {v});
      ev := [Disposed(key, v)] + more;
      Append3(old(events), [Disposed(key, v)], more);
      BudgetHead(script);
      BatchEnds(Self(), h0, impl0, key, v, script, more, isolate.heap, impl, rest, kept, others);
      if script[0].keep {
        kept := kept + {v};
      } else {
        value.Reset(isolate);
      }
    }

    // One entry of a pass: released into a handle that goes to Dispose. A kept one comes out
    // strong from a weak map, and as it was from any other.
    method HandOut(key: Key, v: Slot, script: seq<Batch>, ghost others: set<Slot>)
      returns (rest: seq<Batch>, ghost kept: set<Slot>, ghost ev: seq<Event>)
      requires v !in others && Owns(isolate.heap, impl, others + {v}) && Marks(isolate.heap, Self(), impl)
      requires v in isolate.heap.cells && Marked(isolate.heap.cells[v], Self(), key)
      modifies this, isolate
      ensures events == old(events) + ev
      ensures Leads(Handed(old(impl), key, v, script), ev, Done(impl, rest, kept), isolate.heap, others)
      ensures Settled(Self(), old(isolate.heap),
        Data(old(isolate.heap), Self(), old(impl)) + Datum(old(isolate.heap), Self(), v), ev,
        isolate.heap, impl, others, kept)
      ensures var c := old(isolate.heap.cells[v]);
        KeptAs(script, v, kept, isolate.heap, if kind.Plain? then c else c.(state := Strong, param := None))
      ensures |rest| <= |script| && Budget(rest) + |impl| <= Budget(script) + |old(impl)|
      decreases |script|, 2
    {
      assert Self().kind == kind && Self().id == id;
      hide *;
      OwnsAt(isolate.heap, impl, others, v);
      OwnsRelease(isolate.heap, !kind.Plain?, v, impl, others + {v});
      HandOutSettles(Self(), isolate.heap, impl, others, key, v);
      var value := Release(v);
      HeldParts(isolate.heap, value.val, HandleModel.Release(old(isolate.heap), !kind.Plain?, v));
      ghost var released := isolate.heap;
      rest, kept, ev := Dispose(key, value, script, others);
      AlsoSettled(Self(), old(isolate.heap),
        Data(old(isolate.heap), Self(), old(impl)) + Datum(old(isolate.heap), Self(), v),
        released, old(impl), others, ev, isolate.heap, impl, kept);
    }

    /**
     Clear, with an embedder whose Dispose may insert, overwrite, remove and clear
     again. It ends with an empty map. What happened replays against the embedder's script:
     every entry present at the start or stored meanwhile went to Dispose exactly once,
     unless an operation of the embedder displaced it, and each call of Dispose used one
     batch. Apart from what the embedder kept, exactly the map's cells are gone. No cell is
     left with a callback of this map, and each datum attached at the start or made meanwhile
     went back exactly once. Termination rests on the budget of insertions: a pass of the
     outer loop never leaves more entries than it spends.
    */
    method Clear(script: seq<Batch>, ghost others: set<Slot>)
      returns (rest: seq<Batch>, ghost kept: set<Slot>, ghost ev: seq<Event>)
      requires Owns(isolate.heap, impl, others) && Marks(isolate.heap, Self(), impl)
      modifies this, isolate
      ensures impl == map[] && events == old(events) + ev && forall k :: !Contains(k) && Get(k) == None
      ensures Leads(Idle(old(impl), [ClearOp], script), ev, Done(impl, rest, kept), isolate.heap, others)
      ensures Settled(Self(), old(isolate.heap), Data(old(isolate.heap), Self(), old(impl)), ev,
        isolate.heap, impl, others, kept)
      ensures DisposedIn(ev) + DisplacedIn(ev) == Items(old(impl)) + StoredIn(ev)
      ensures rest == Dropped(script, |DisposedIn(ev)|)
      ensures QuietScript(script) ==> DisposedIn(ev) == Items(old(impl))
      ensures !isolate.heap.faulted && isolate.heap.cells.Keys == others + kept
      ensures (forall s :: s in others ==> !Carries(old(isolate.heap).cells[s], id)) ==>
        forall s :: s in isolate.heap.cells ==> !Carries(isolate.heap.cells[s], id)
      ensures old(isolate.heap).made <= isolate.heap.made
      ensures isolate.heap.returned + multiset(old(isolate.heap).made)
        == old(isolate.heap).returned + Data(old(isolate.heap), Self(), old(impl)) + multiset(isolate.heap.made)
      ensures QuietScript(script) ==>
        isolate.heap.returned == old(isolate.heap).returned + Data(old(isolate.heap), Self(), old(impl))
      ensures |rest| <= |script| && Budget(rest) <= Budget(script)
      decreases |script|, 3
    {
      assert Self().kind == kind && Self().id == id;
      hide *;
      ghost var start, due := Idle(impl, [ClearOp], script), Data(isolate.heap, Self(), impl);
      events := events + [Cleared];
      rest, kept, ev := script, {}, [Cleared];
      ClearBegins(isolate.heap, impl, script, others);
      OthersLive(isolate.heap, impl, others);
      ClearBeginsSettled(Self(), isolate.heap, impl, others);
      while impl != map[]
        invariant |rest| <= |script| && Budget(rest) <= Budget(script)
        invariant events == old(events) + ev
        invariant Leads(start, ev, Done(impl, rest, kept), isolate.heap, others)
        invariant Settled(Self(), old(isolate.heap), due, ev, isolate.heap, impl, others, kept)
        decreases Budget(rest) + |impl|
      {
        var local := impl;
        ghost var spent := Budget(rest);
        PassBegins(start, ev, isolate.heap, impl, rest, kept, others);
        PassBeginsSettled(Self(), old(isolate.heap), due, ev, isolate.heap, impl, others, kept);
        impl, events := map[], events + [Swapped];
        Append3(old(events), ev, [Swapped]);
        ev := ev + [Swapped];
        while local != map[]
          invariant |rest| <= |script| && Budget(rest) + |impl| <= spent
          invariant events == old(events) + ev
          invariant Passing(start, ev, impl, local, rest, kept, isolate.heap, others)
          invariant PassSettled(Self(), old(isolate.heap), due, ev, isolate.heap, impl, local, others, kept)
          decreases |local|
        {
          var k := PickKey(local);
          ghost var h, before, used := isolate.heap, impl, rest;
          ghost var moreKept, more;
          PassTakes(start, ev, impl, local, k, rest, kept, isolate.heap, others);
          PassMarks(Self(), old(isolate.heap), due, ev, isolate.heap, impl, local, k, others, kept);
          rest, moreKept, more := HandOut(k, local[k], rest, Around(others + kept, local, k));
          OneOfPass(start, ev, h, before, local, k, used, kept, others, more, isolate.heap, impl, rest, moreKept);
          AroundIs(others + kept, local, k);
          OneOfPassSettled(Self(), old(isolate.heap), due, ev, h, before, local, k, others, kept,
            more, isolate.heap, impl, moreKept);
          Append3(old(events), ev, more);
          kept, ev := kept + moreKept, ev + more;
          local := local - {k};
        }
        PassEnds(start, ev, isolate.heap, impl, rest, kept, others);
        PassEndsSettled(Self(), old(isolate.heap), due, ev, isolate.heap, impl, others, kept);
      }
      ClearedCells(start, ev, rest, kept, isolate.heap, others);
      ClearedOnce(old(impl), script, ev, rest, kept);
      ClearedData(Self(), old(isolate.heap), old(impl), ev, isolate.heap, others, kept);
      Emptied();
    }
  }

  class ValueVector {
    const isolate: Isolate
    var impl: seq<Slot>

    constructor (isolate: Isolate)
      ensures this.isolate == isolate && impl == []
    {
      this.isolate := isolate;
      impl := [];
    }

    method Append(persistent: Handle)
      modifies this, persistent
      ensures impl == old(impl) + [old(persistent.val)] && persistent.val == 0
      ensures Get(|old(impl)|) == ObjectOf(isolate.heap, old(persistent.val)) && Get(|old(impl)| + 1) == None
      ensures forall i: nat :: i < |old(impl)| ==> Get(i) == old(Get(i))
    {
      var word := persistent.val;
      persistent.val := 0;
      impl := impl + [word];
    }

    method AppendLocal(value: Option<Address>)
      modifies this, isolate
      ensures |impl| == |old(impl)| + 1 && impl[..|old(impl)|] == old(impl)
      ensures Held(isolate.heap, impl[|old(impl)|]) == ResetLocal(old(isolate.heap), 0, value, impl[|old(impl)|])
    {
      var persistent := new Handle.FromLocal(isolate, value);
      Append(persistent);
    }

    // Empty out of range.
    function Get(index: nat): (r: Option<Address>)
      reads this, isolate
      ensures r.Some? <==> index < |impl| && impl[index] != 0 && impl[index] in isolate.heap.cells
      ensures r.Some? ==> r.value == isolate.heap.cells[impl[index]].referent
    {
      if index < |impl| then ObjectOf(isolate.heap, impl[index]) else None
    }

    // Each word goes into a handle whose destructor disposes of the cell.
    method Clear()
      modifies this, isolate
      ensures impl == [] && isolate.heap == DisposeWords(old(isolate.heap), old(impl))
    {
      for i := 0 to |impl|
        invariant impl == old(impl)
        invariant DisposeWords(isolate.heap, impl[i..]) == DisposeWords(old(isolate.heap), impl)
      {
        var p := new Handle();
        p.val := impl[i];
        p.Reset(isolate);
        assert impl[i..][1..] == impl[i + 1..];
      }
      impl := [];
    }
  }

  // The entry an iteration visits next; nothing depends on the order.
  method PickKey(impl: map<Key, Slot>) returns (k: Key)
    requires impl != map[]
    ensures k in impl
  {
    assert (forall j :: j !in impl) ==> impl == map[];
    k :| k in impl;
  }
}
