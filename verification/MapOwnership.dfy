/**
 Which cells a map owns: each of its words is the only pointer to a live cell, and with the
 cells held elsewhere they are all the live cells.
*/
module MapOwnership {
  import opened Basics
  import opened Cells
  import opened HandleModel
  import opened ContainerModel
  import opened Traces

  function Words(impl: map<Key, Slot>): set<Slot> {
    set k | k in impl :: impl[k]
  }

  // The live cells are those the map owns, each by one entry, and those of `others`.
  ghost predicate Owns(h: Heap, impl: map<Key, Slot>, others: set<Slot>) {
    && !h.faulted && 0 !in h.cells
    && h.cells.Keys == Words(impl) + others && Words(impl) !! others && Distinct(impl)
  }

  lemma OwnsRemove(h: Heap, impl: map<Key, Slot>, others: set<Slot>, k: Key)
    requires Owns(h, impl, others) && k in impl
    ensures Owns(h, impl - {k}, others + {impl[k]})
  {
    forall s | s in Words(impl) && s != impl[k] ensures s in Words(impl - {k}) {
      var j :| j in impl && impl[j] == s;
      assert j in impl - {k};
    }
    assert impl[k] in Words(impl);
    assert Words(impl) == Words(impl - {k}) + {impl[k]};
  }

  lemma OwnsAdd(h: Heap, impl: map<Key, Slot>, others: set<Slot>, k: Key, v: Slot)
    requires Owns(h, impl, others) && k !in impl && v in others
    ensures Owns(h, impl[k := v], others - {v})
  {
    assert Words(impl[k := v]) == Words(impl) + {v} by {
      forall s | s in Words(impl) ensures s in Words(impl[k := v]) {
        var j :| j in impl && impl[j] == s;
        assert impl[k := v][j] == s;
      }
      assert impl[k := v][k] == v;
    }
  }

  lemma OwnsDispose(h: Heap, impl: map<Key, Slot>, others: set<Slot>, v: Slot)
    requires Owns(h, impl, others) && v in others
    ensures Owns(DisposeGlobal(h, v), impl, others - {v})
  {
  }

  lemma OwnsRelease(h: Heap, weak: bool, v: Slot, impl: map<Key, Slot>, others: set<Slot>)
    requires Owns(h, impl, others)
    ensures Owns(Release(h, weak, v).heap, impl, others)
  {
  }

  lemma OwnsAnnotate(h: Heap, kind: Kind, v: Slot, p: Param, impl: map<Key, Slot>, others: set<Slot>)
    requires Owns(h, impl, others) && v in others
    ensures Owns(Annotate(h, kind, v, p), impl, others)
  {
  }

  lemma ResetIs(h: Heap, v: Slot)
    requires v != 0
    ensures Reset(h, v) == Held(DisposeGlobal(h, v), 0)
  {
  }

  lemma ReleaseIs(h: Heap, weak: bool, v: Slot)
    ensures Release(h, weak, v).val == v
  {
  }

  lemma OwnsAt(h: Heap, impl: map<Key, Slot>, others: set<Slot>, v: Slot)
    requires Owns(h, impl, others + {v})
    ensures v != 0
  {
  }

  ghost predicate Distinct(impl: map<Key, Slot>) {
    forall j, k :: j in impl && k in impl && impl[j] == impl[k] ==> j == k
  }

  lemma TakeEntry(impl: map<Key, Slot>, k: Key)
    requires k in impl && Distinct(impl)
    ensures Words(impl) == Words(impl - {k}) + {impl[k]} && impl[k] !in Words(impl - {k}) && Distinct(impl - {k})
  {
    forall s | s in Words(impl) && s != impl[k] ensures s in Words(impl - {k}) {
      var j :| j in impl && impl[j] == s;
      assert j in impl - {k};
    }
    assert impl[k] in Words(impl);
  }

  // Storing the cell s just allocated, and dropping what it displaced or not.
  lemma StoreOwns(
    h0: Heap, h: Heap, kind: Kind, impl: map<Key, Slot>, others: set<Slot>, k: Key, s: Slot, p: Param)
    requires Owns(h0, impl, others) && Free(h0, s)
    requires h.cells.Keys == h0.cells.Keys + {s} && h.faulted == h0.faulted
    ensures var t := ContainerModel.SetUnique(h, kind, impl, k, s, p);
      && t.impl == impl[k := s] && t.val == Lookup(impl, k)
      && Owns(t.heap, t.impl, Keep(others, true, Found(impl, k)))
      && Owns(Reset(t.heap, t.val).heap, t.impl, others)
      && (k in impl ==> impl[k] !in others)
  {
    assert Owns(h, impl, others + {s});
    var annotated := Annotate(h, kind, s, p);
    OwnsAnnotate(h, kind, s, p, impl, others + {s});
    OwnsRelease(annotated, !kind.Plain?, Lookup(impl, k), impl, others + {s});
    var t := ContainerModel.SetUnique(h, kind, impl, k, s, p);
    assert Owns(t.heap, impl, others + {s}) && t.val == Lookup(impl, k);
    assert impl[k := s] == (impl - {k})[k := s];
    if k in impl {
      var d := impl[k];
      OwnsRemove(t.heap, impl, others + {s}, k);
      OwnsAdd(t.heap, impl - {k}, others + {s} + {d}, k, s);
      assert others + {s} + {d} - {s} == others + {d};
      OwnsDispose(t.heap, impl[k := s], others + {d}, d);
      assert others + {d} - {d} == others;
    } else {
      OwnsAdd(t.heap, impl, others + {s}, k, s);
      assert others + {s} - {s} == others;
    }
  }

  lemma DiscardOwns(h: Heap, kind: Kind, impl: map<Key, Slot>, others: set<Slot>, k: Key)
    requires Owns(h, impl, others)
    ensures var t := ContainerModel.Remove(h, kind, impl, k);
      && t.impl == impl - {k} && t.val == Lookup(impl, k)
      && Owns(t.heap, t.impl, Keep(others, true, Found(impl, k)))
      && Owns(Reset(t.heap, t.val).heap, t.impl, others)
      && (k in impl ==> impl[k] !in others)
  {
    OwnsRelease(h, !kind.Plain?, Lookup(impl, k), impl, others);
    var t := ContainerModel.Remove(h, kind, impl, k);
    if k in impl {
      OwnsRemove(t.heap, impl, others, k);
      OwnsDispose(t.heap, impl - {k}, others + {impl[k]}, impl[k]);
      assert others + {impl[k]} - {impl[k]} == others;
    } else {
      assert impl - {k} == impl;
    }
  }

  lemma KeepFound(others: set<Slot>, keep: bool, impl: map<Key, Slot>, k: Key)
    ensures !keep ==> Keep(others, keep, Found(impl, k)) == others
    ensures k !in impl ==> Keep(others, keep, Found(impl, k)) == others
  {
  }

  // The value handed to Dispose is dropped, or joins what the embedder kept.
  lemma DropOwns(h: Heap, impl: map<Key, Slot>, others: set<Slot>, kept: set<Slot>, v: Slot)
    requires v !in others && kept !! others + {v} && Owns(h, impl, others + {v} + kept)
    ensures Owns(DisposeGlobal(h, v), impl, others + kept)
    ensures Owns(h, impl, others + (kept + {v}))
  {
    OwnsDispose(h, impl, others + {v} + kept, v);
    assert others + {v} + kept - {v} == others + kept;
    assert others + {v} + kept == others + (kept + {v});
  }

  lemma OthersLive(h: Heap, impl: map<Key, Slot>, others: set<Slot>)
    requires Owns(h, impl, others)
    ensures others <= h.cells.Keys
  {
  }

  lemma HeldParts(h: Heap, v: Slot, r: Held)
    requires Held(h, v) == r
    ensures h == r.heap && v == r.val
  {
  }

  lemma StoredParts(
    h: Heap, impl: map<Key, Slot>, v: Slot, h0: Heap, kind: Kind, impl0: map<Key, Slot>, k: Key, s: Slot, p: Param)
    requires Stored(h, impl, v) == ContainerModel.SetUnique(h0, kind, impl0, k, s, p)
    ensures var t := ContainerModel.SetUnique(h0, kind, impl0, k, s, p); h == t.heap && impl == t.impl && v == t.val
    ensures k in impl && impl[k] == s
  {
    hide HandleModel.Release, Annotate;
  }
}
