/**
 The weak callbacks of one map and the data made for them, while the map is changed and
 cleared: entries stay marked with their own callback, what leaves the map carries none, and
 each datum goes back to the embedder when its entry leaves.
*/
module CallbackData {
  import opened Basics
  import opened Cells
  import opened HandleModel
  import opened ContainerModel
  import opened Traces
  import opened MapOwnership

  // A map, as far as its callbacks are concerned.
  datatype Maker = Maker(kind: Kind, id: nat)

  // The cell carries a callback parameter of map id.
  predicate Carries(c: Cell, id: nat) {
    c.param.Some? && c.param.value.MapMade? && c.param.value.container == id
  }

  // The cell of the entry of key k, as SetUnique leaves it.
  predicate Marked(c: Cell, m: Maker, k: Key) {
    if m.kind.Plain? then !Carries(c, m.id) else c.state.Weak? && Carries(c, m.id) && c.param.value.key == k
  }

  ghost predicate Marks(h: Heap, m: Maker, impl: map<Key, Slot>) {
    forall k :: k in impl ==> impl[k] in h.cells && Marked(h.cells[impl[k]], m, k)
  }

  // The datum of one cell, and the data of the entries of a map.
  function Datum(h: Heap, m: Maker, s: Slot): multiset<Param> {
    if !m.kind.Plain? && s in h.cells && h.cells[s].param.Some? then multiset{h.cells[s].param.value} else multiset{}
  }

  function DataSet(h: Heap, impl: map<Key, Slot>): set<Param> {
    set k | k in impl && impl[k] in h.cells && h.cells[impl[k]].param.Some? :: h.cells[impl[k]].param.value
  }

  function Data(h: Heap, m: Maker, impl: map<Key, Slot>): multiset<Param> {
    if m.kind.Plain? then multiset{} else multiset(DataSet(h, impl))
  }

  // Data attached before or made since is attached now or has gone back since, once each.
  ghost predicate Accounts(h0: Heap, due0: multiset<Param>, h: Heap, due: multiset<Param>) {
    h0.made <= h.made && h0.returned + due0 + multiset(h.made) == h.returned + due + multiset(h0.made)
  }

  // One datum was made for each entry stored in a weak map.
  ghost predicate Made(m: Maker, h0: Heap, h: Heap, ev: seq<Event>) {
    |h.made| == |h0.made| + if m.kind.Plain? then 0 else |StoredIn(ev)|
  }

  ghost predicate Untouched(h0: Heap, h: Heap, others: set<Slot>) {
    forall s :: s in others ==> s in h0.cells && s in h.cells && h.cells[s] == h0.cells[s]
  }

  ghost predicate Clean(h: Heap, id: nat, kept: set<Slot>) {
    forall s :: s in kept ==> s in h.cells && !Carries(h.cells[s], id)
  }

  // From h0, with `due` the data to account for, to h with the map impl: cells of others are
  // untouched and what the embedder kept is clean.
  ghost predicate Settled(
    m: Maker, h0: Heap, due: multiset<Param>, ev: seq<Event>, h: Heap, impl: map<Key, Slot>,
    others: set<Slot>, kept: set<Slot>)
  {
    && Marks(h, m, impl) && Untouched(h0, h, others) && Clean(h, m.id, kept)
    && Accounts(h0, due, h, Data(h, m, impl)) && Made(m, h0, h, ev)
  }

  // The same in the middle of a pass of Clear.
  ghost predicate PassSettled(
    m: Maker, h0: Heap, due: multiset<Param>, ev: seq<Event>, h: Heap, impl: map<Key, Slot>, local: map<Key, Slot>,
    others: set<Slot>, kept: set<Slot>)
  {
    && Marks(h, m, impl) && Marks(h, m, local) && Untouched(h0, h, others) && Clean(h, m.id, kept)
    && Accounts(h0, due, h, Data(h, m, impl) + Data(h, m, local)) && Made(m, h0, h, ev)
  }

  // ---- Composition ----

  lemma {:induction false} StoredInAppend(a: seq<Event>, b: seq<Event>)
    ensures StoredIn(a + b) == StoredIn(a) + StoredIn(b)
    decreases |a|
  {
    hide StoredBy;
    if a == [] {
      assert a + b == b;
    } else {
      assert (a + b)[1..] == a[1..] + b;
      StoredInAppend(a[1..], b);
    }
  }

  lemma MadeChain(m: Maker, h0: Heap, ev: seq<Event>, h1: Heap, more: seq<Event>, h2: Heap)
    requires Made(m, h0, h1, ev) && Made(m, h1, h2, more)
    ensures Made(m, h0, h2, ev + more)
  {
    StoredInAppend(ev, more);
  }

  lemma MadeNone(m: Maker, h0: Heap, h: Heap, e: Event, ev: seq<Event>)
    requires h.made == h0.made && !e.Set?
    ensures Made(m, h0, h, [e])
    ensures StoredIn([e] + ev) == StoredIn(ev)
  {
    assert [e][1..] == [];
    StoredInAppend([e], ev);
  }

  // Sums of multisets with the same summands on both sides cancel.
  lemma AccountsChain(h0: Heap, due0: multiset<Param>, h1: Heap, due1: multiset<Param>, h2: Heap, due2: multiset<Param>)
    requires Accounts(h0, due0, h1, due1) && Accounts(h1, due1, h2, due2)
    ensures Accounts(h0, due0, h2, due2)
  {
    Cancel(h0.returned + due0, multiset(h1.made), h1.returned + due1, multiset(h0.made), multiset(h2.made),
      h2.returned + due2);
  }

  lemma Cancel<T>(a: multiset<T>, m1: multiset<T>, b: multiset<T>, m0: multiset<T>, m2: multiset<T>, c: multiset<T>)
    requires a + m1 == b + m0 && b + m2 == c + m1
    ensures a + m2 == c + m0
  {
    forall x ensures (a + m2)[x] == (c + m0)[x] {
      assert (a + m1)[x] == (b + m0)[x] && (b + m2)[x] == (c + m1)[x];
    }
  }

  lemma AccountsMore(h0: Heap, due0: multiset<Param>, h: Heap, due: multiset<Param>, extra: multiset<Param>)
    requires Accounts(h0, due0, h, due)
    ensures Accounts(h0, due0 + extra, h, due + extra)
  {
    assert h0.returned + (due0 + extra) + multiset(h.made) == (h0.returned + due0 + multiset(h.made)) + extra;
    assert h.returned + (due + extra) + multiset(h0.made) == (h.returned + due + multiset(h0.made)) + extra;
  }

  lemma SettledNow(m: Maker, h: Heap, impl: map<Key, Slot>, others: set<Slot>)
    requires Marks(h, m, impl) && others <= h.cells.Keys
    ensures Settled(m, h, Data(h, m, impl), [], h, impl, others, {})
  {
  }

  lemma SettledChain(
    m: Maker, h0: Heap, due: multiset<Param>, ev: seq<Event>, h1: Heap, impl1: map<Key, Slot>, others: set<Slot>,
    kept: set<Slot>, more: seq<Event>, h2: Heap, impl2: map<Key, Slot>, moreKept: set<Slot>)
    requires Settled(m, h0, due, ev, h1, impl1, others, kept)
    requires Settled(m, h1, Data(h1, m, impl1), more, h2, impl2, others + kept, moreKept)
    ensures Settled(m, h0, due, ev + more, h2, impl2, others, kept + moreKept)
  {
    AccountsChain(h0, due, h1, Data(h1, m, impl1), h2, Data(h2, m, impl2));
    MadeChain(m, h0, ev, h1, more, h2);
    hide Marks, Accounts, Made, Carries, Data;
  }

  // ---- One operation of the embedder ----

  // The data of a map depend on the cells of its entries only.
  lemma SameData(h: Heap, h': Heap, m: Maker, impl: map<Key, Slot>)
    requires forall k :: k in impl ==>
      impl[k] in h.cells && impl[k] in h'.cells && h'.cells[impl[k]] == h.cells[impl[k]]
    ensures Marks(h, m, impl) ==> Marks(h', m, impl)
    ensures Data(h', m, impl) == Data(h, m, impl)
  {
    assert DataSet(h', impl) == DataSet(h, impl);
  }

  // Entries are marked with different data, so taking one out takes out its datum.
  lemma DataRemove(h: Heap, m: Maker, impl: map<Key, Slot>, k: Key)
    requires Marks(h, m, impl) && k in impl
    ensures Marks(h, m, impl - {k})
    ensures Data(h, m, impl) == Data(h, m, impl - {k}) + Datum(h, m, impl[k])
  {
    if !m.kind.Plain? {
      var p := h.cells[impl[k]].param.value;
      forall q | q in DataSet(h, impl) && q != p ensures q in DataSet(h, impl - {k}) {
        var j :| j in impl && impl[j] in h.cells && h.cells[impl[j]].param == Some(q);
        assert j in impl - {k};
      }
      assert p in DataSet(h, impl) && p !in DataSet(h, impl - {k});
      assert DataSet(h, impl) == DataSet(h, impl - {k}) + {p};
    }
  }

  lemma DataAdd(h: Heap, m: Maker, impl: map<Key, Slot>, k: Key, s: Slot)
    requires Marks(h, m, impl) && k !in impl && s in h.cells && Marked(h.cells[s], m, k)
    ensures Marks(h, m, impl[k := s])
    ensures Data(h, m, impl[k := s]) == Data(h, m, impl) + Datum(h, m, s)
  {
    assert impl[k := s] - {k} == impl;
    assert Marks(h, m, impl[k := s]);
    DataRemove(h, m, impl[k := s], k);
  }

  // What Release does to the cell of an entry: its datum goes back and it carries none.
  lemma ReleaseSettles(h: Heap, m: Maker, v: Slot, k: Key)
    requires v != 0 && v in h.cells && Marked(h.cells[v], m, k)
    ensures var h' := Release(h, !m.kind.Plain?, v).heap;
      && h'.made == h.made && h'.returned == h.returned + Datum(h, m, v) && h'.faulted == h.faulted
      && h'.cells.Keys == h.cells.Keys && !Carries(h'.cells[v], m.id)
      && (forall s :: s in h.cells && s != v ==> h'.cells[s] == h.cells[s])
      && h'.cells[v] == if m.kind.Plain? then h.cells[v] else h.cells[v].(state := Strong, param := None)
  {
  }

  // Removing an entry, whose value is dropped or kept.
  lemma DiscardSettles(h: Heap, m: Maker, impl: map<Key, Slot>, others: set<Slot>, k: Key, keep: bool)
    requires Owns(h, impl, others) && Marks(h, m, impl)
    ensures var t, found := ContainerModel.Remove(h, m.kind, impl, k), Found(impl, k);
      var h' := if keep then t.heap else Reset(t.heap, t.val).heap;
      Settled(m, h, Data(h, m, impl), [Removed(k, found)], h', impl - {k}, others, Keep({}, keep, found))
  {
    var t := ContainerModel.Remove(h, m.kind, impl, k);
    MadeNone(m, h, h, Removed(k, Found(impl, k)), []);
    if k in impl {
      var v := impl[k];
      EntryApart(h, impl, others, k);
      ReleaseSettles(h, m, v, k);
      DataRemove(h, m, impl, k);
      LeaveSettles(h, t.heap, m, impl - {k}, others, v, Removed(k, Found(impl, k)));
    } else {
      assert impl - {k} == impl;
      SettledNow(m, h, impl, others);
    }
  }

  // The cell of an entry is none of the others and of no other entry.
  lemma EntryApart(h: Heap, impl: map<Key, Slot>, others: set<Slot>, k: Key)
    requires Owns(h, impl, others) && k in impl
    ensures impl[k] != 0 && impl[k] !in others && others <= h.cells.Keys
    ensures forall j :: j in impl - {k} ==> impl[j] != impl[k] && impl[j] in h.cells
  {
    assert forall j :: j in impl ==> impl[j] in Words(impl);
  }

  // The released cell v leaves the map, with the datum of its entry.
  lemma LeaveSettles(h: Heap, h': Heap, m: Maker, rest: map<Key, Slot>, others: set<Slot>, v: Slot, e: Event)
    requires v != 0 && v in h.cells && v !in others && others <= h.cells.Keys && Marks(h, m, rest) && !e.Set?
    requires forall j :: j in rest ==> rest[j] != v
    requires h'.made == h.made && h'.returned == h.returned + Datum(h, m, v) && h'.cells.Keys == h.cells.Keys
    requires !Carries(h'.cells[v], m.id) && forall s :: s in h.cells && s != v ==> h'.cells[s] == h.cells[s]
    ensures Settled(m, h, Data(h, m, rest) + Datum(h, m, v), [e], h', rest, others, {v})
    ensures Settled(m, h, Data(h, m, rest) + Datum(h, m, v), [e], Reset(h', v).heap, rest, others, {})
  {
    var dropped := Reset(h', v).heap;
    assert dropped.made == h.made && dropped.returned == h'.returned;
    assert forall s :: s in h.cells && s != v ==> s in dropped.cells && dropped.cells[s] == h.cells[s];
    SameData(h, h', m, rest);
    SameData(h, dropped, m, rest);
    hide Reset, Data, Datum, Marks;
    Left(m, h, h', rest, others, {v}, e, Datum(h, m, v));
    Left(m, h, dropped, rest, others, {}, e, Datum(h, m, v));
  }

  lemma Left(
    m: Maker, h: Heap, h': Heap, rest: map<Key, Slot>, others: set<Slot>, kept: set<Slot>, e: Event,
    datum: multiset<Param>)
    requires Marks(h', m, rest) && Data(h', m, rest) == Data(h, m, rest) && !e.Set?
    requires h'.made == h.made && h'.returned == h.returned + datum && Clean(h', m.id, kept)
    requires forall s :: s in others ==> s in h.cells && s in h'.cells && h'.cells[s] == h.cells[s]
    ensures Settled(m, h, Data(h, m, rest) + datum, [e], h', rest, others, kept)
  {
    MadeNone(m, h, h', e, []);
    hide Data, Marks, Clean, Made;
    assert h.returned + (Data(h, m, rest) + datum) == h'.returned + Data(h', m, rest);
  }

  // The new cell s is annotated for the entry of key k, and the datum for it made.
  ghost predicate Annotated(
    m: Maker, h0: Heap, h: Heap, impl: map<Key, Slot>, others: set<Slot>, k: Key, s: Slot)
  {
    && Marks(h, m, impl) && Data(h, m, impl) == Data(h0, m, impl) && Untouched(h0, h, others)
    && s in h.cells && Marked(h.cells[s], m, k) && h.returned == h0.returned
    && h0.made <= h.made && multiset(h.made) == multiset(h0.made) + Datum(h, m, s)
    && |h.made| == |h0.made| + if m.kind.Plain? then 0 else 1
  }

  // Then the value it displaces has left with the data `left`, and the cell s is still there.
  ghost predicate MadeRoom(
    m: Maker, h: Heap, h': Heap, rest: map<Key, Slot>, left: multiset<Param>, others: set<Slot>, kept: set<Slot>,
    s: Slot)
  {
    && Marks(h', m, rest) && Data(h', m, rest) == Data(h, m, rest)
    && Untouched(h, h', others) && Clean(h', m.id, kept)
    && h'.made == h.made && h'.returned == h.returned + left
    && s in h.cells && s in h'.cells && h'.cells[s] == h.cells[s]
  }

  // Storing the new cell s for key k, with the value displaced dropped or kept.
  lemma StoreSettles(
    h0: Heap, h: Heap, m: Maker, impl: map<Key, Slot>, others: set<Slot>, k: Key, s: Slot, p: Param, referent: Address,
    keep: bool)
    requires Owns(h0, impl, others) && Marks(h0, m, impl) && Free(h0, s)
    requires h == GlobalizeReference(h0, referent, s)
    requires p.MapMade? && p.container == m.id && p.key == k && (!m.kind.Plain? ==> p !in h0.made)
    ensures var t, found := ContainerModel.SetUnique(h, m.kind, impl, k, s, p), Found(impl, k);
      var h' := if keep then t.heap else Reset(t.heap, t.val).heap;
      Settled(m, h0, Data(h0, m, impl), [Set(k, found, s, Some(referent))], h', impl[k := s], others,
        Keep({}, keep, found))
  {
    var e, a := Set(k, Found(impl, k), s, Some(referent)), Annotate(h, m.kind, s, p);
    AnnotateSettles(h0, h, m, impl, others, s, p, k, referent);
    if k in impl {
      EntryApart(h0, impl, others, k);
      var v := impl[k];
      assert v in h0.cells && s != v;
      hide Owns, Marks, Annotate, Release, Reset, Annotated, Settled, Data;
      ReplaceSettles(h0, a, m, impl, others, k, s, v, e);
    } else {
      StaysPut(m, h0, a, impl, others, k, s);
      hide Owns, Marks, Annotate, Annotated, MadeRoom, Settled, Data;
      EnterSettles(h0, a, a, m, impl, impl, others, k, s, multiset{}, e, {});
    }
  }

  lemma StaysPut(m: Maker, h0: Heap, a: Heap, impl: map<Key, Slot>, others: set<Slot>, k: Key, s: Slot)
    requires Annotated(m, h0, a, impl, others, k, s)
    ensures MadeRoom(m, a, a, impl, multiset{}, others, {}, s)
    ensures Data(a, m, impl) == Data(a, m, impl) + multiset{}
  {
    hide Marks, Data;
  }

  lemma ReplaceSettles(
    h0: Heap, a: Heap, m: Maker, impl: map<Key, Slot>, others: set<Slot>, k: Key, s: Slot, v: Slot, e: Event)
    requires Annotated(m, h0, a, impl, others, k, s) && e.Set?
    requires k in impl && v == impl[k] != 0 && v !in others && s != v
    requires forall j :: j in impl - {k} ==> impl[j] != v
    ensures var r := Release(a, !m.kind.Plain?, v).heap;
      && Settled(m, h0, Data(h0, m, impl), [e], r, impl[k := s], others, {v})
      && Settled(m, h0, Data(h0, m, impl), [e], Reset(r, v).heap, impl[k := s], others, {})
  {
    var r, rest := Release(a, !m.kind.Plain?, v).heap, impl - {k};
    Released(m, h0, a, impl, others, k, s, v);
    ThenDropped(m, a, r, rest, Datum(a, m, v), others, s, v);
    assert rest[k := s] == impl[k := s];
    hide Annotated, MadeRoom, Settled, Data, Datum, Release, Reset;
    EnterSettles(h0, a, r, m, impl, rest, others, k, s, Datum(a, m, v), e, {v});
    EnterSettles(h0, a, Reset(r, v).heap, m, impl, rest, others, k, s, Datum(a, m, v), e, {});
  }

  lemma Released(
    m: Maker, h0: Heap, a: Heap, impl: map<Key, Slot>, others: set<Slot>, k: Key, s: Slot, v: Slot)
    requires Annotated(m, h0, a, impl, others, k, s)
    requires k in impl && v == impl[k] != 0 && v !in others && s != v
    requires forall j :: j in impl - {k} ==> impl[j] != v
    ensures MadeRoom(m, a, Release(a, !m.kind.Plain?, v).heap, impl - {k}, Datum(a, m, v), others, {v}, s)
    ensures Data(a, m, impl) == Data(a, m, impl - {k}) + Datum(a, m, v)
    ensures forall j :: j in impl - {k} ==> impl[j] != v && impl[j] in a.cells
  {
    ReleaseSettles(a, m, v, k);
    DataRemove(a, m, impl, k);
    hide Marked, Data, Datum, Release;
    SameData(a, Release(a, !m.kind.Plain?, v).heap, m, impl - {k});
  }

  lemma ThenDropped(
    m: Maker, a: Heap, r: Heap, rest: map<Key, Slot>, left: multiset<Param>, others: set<Slot>, s: Slot, v: Slot)
    requires MadeRoom(m, a, r, rest, left, others, {v}, s) && v != 0 && v !in others && s != v
    requires forall j :: j in rest ==> rest[j] != v
    ensures MadeRoom(m, a, Reset(r, v).heap, rest, left, others, {}, s)
  {
    SameData(r, Reset(r, v).heap, m, rest);
    hide Data, Marked;
  }

  lemma AnnotateSettles(
    h0: Heap, h: Heap, m: Maker, impl: map<Key, Slot>, others: set<Slot>, s: Slot, p: Param, k: Key, referent: Address)
    requires Owns(h0, impl, others) && Marks(h0, m, impl) && Free(h0, s) && h == GlobalizeReference(h0, referent, s)
    requires p.MapMade? && p.container == m.id && p.key == k && (!m.kind.Plain? ==> p !in h0.made)
    ensures Annotated(m, h0, Annotate(h, m.kind, s, p), impl, others, k, s)
  {
    var a := Annotate(h, m.kind, s, p);
    AnnotateCells(h0, h, m, s, p, k, referent);
    hide Annotate, Marked, Data, Datum;
    assert others <= h0.cells.Keys && forall j :: j in impl ==> impl[j] in Words(impl);
    SameData(h0, a, m, impl);
  }

  lemma AnnotateCells(h0: Heap, h: Heap, m: Maker, s: Slot, p: Param, k: Key, referent: Address)
    requires Free(h0, s) && h == GlobalizeReference(h0, referent, s)
    requires p.MapMade? && p.container == m.id && p.key == k && (!m.kind.Plain? ==> p !in h0.made)
    ensures var a := Annotate(h, m.kind, s, p);
      && a.cells.Keys == h0.cells.Keys + {s} && Marked(a.cells[s], m, k) && a.returned == h0.returned
      && (forall t :: t in h0.cells ==> t != s && a.cells[t] == h0.cells[t])
      && h0.made <= a.made && multiset(a.made) == multiset(h0.made) + Datum(a, m, s)
      && |a.made| == |h0.made| + if m.kind.Plain? then 0 else 1
  {
  }

  lemma MadeOne(e: Event)
    requires e.Set?
    ensures |StoredIn([e])| == 1
  {
    assert [e][1..] == [];
  }

  // The annotated cell s enters the map in which its key is free.
  lemma EnterSettles(
    h0: Heap, a: Heap, h': Heap, m: Maker, impl: map<Key, Slot>, rest: map<Key, Slot>, others: set<Slot>, k: Key,
    s: Slot, left: multiset<Param>, e: Event, kept: set<Slot>)
    requires Annotated(m, h0, a, impl, others, k, s) && MadeRoom(m, a, h', rest, left, others, kept, s)
    requires Data(a, m, impl) == Data(a, m, rest) + left && k !in rest && e.Set?
    ensures Settled(m, h0, Data(h0, m, impl), [e], h', rest[k := s], others, kept)
  {
    MadeOne(e);
    DataAdd(h', m, rest, k, s);
    assert Datum(h', m, s) == Datum(a, m, s);
    assert Untouched(h0, h', others);
    hide Data, Datum, Carries, Marks, Marked, Clean, Untouched, StoredIn;
    Entering(h0.returned, Data(a, m, rest), left, multiset(h0.made), Datum(a, m, s));
    assert Accounts(h0, Data(h0, m, impl), h', Data(h', m, rest[k := s]));
  }

  lemma Entering<T>(returned: multiset<T>, rest: multiset<T>, left: multiset<T>, made: multiset<T>, datum: multiset<T>)
    ensures returned + (rest + left) + (made + datum) == (returned + left) + (rest + datum) + made
  {
  }

  // ---- The value handed to Dispose ----

  // Over a batch, the cell v the embedder holds stays as it is; then it is dropped or kept.
  lemma BatchSettles(
    m: Maker, h0: Heap, due: multiset<Param>, k: Key, v: Slot, ev: seq<Event>, h: Heap, impl: map<Key, Slot>,
    others: set<Slot>, kept: set<Slot>)
    requires Settled(m, h0, due, ev, h, impl, others + {v}, kept)
    requires v in h0.cells && !Carries(h0.cells[v], m.id)
    ensures v in h.cells && h.cells[v] == h0.cells[v]
    ensures Settled(m, h0, due, [Disposed(k, v)] + ev, h, impl, others, kept + {v})
  {
    MadeNone(m, h0, h0, Disposed(k, v), ev);
    hide Marks, Accounts, Data, Carries;
  }

  lemma DropSettles(
    m: Maker, h0: Heap, due: multiset<Param>, ev: seq<Event>, h: Heap, impl: map<Key, Slot>,
    others: set<Slot>, kept: set<Slot>, v: Slot)
    requires Settled(m, h0, due, ev, h, impl, others, kept + {v})
    requires v in h.cells && v !in Words(impl) && v !in others && v !in kept
    ensures Settled(m, h0, due, ev, DisposeGlobal(h, v), impl, others, kept)
  {
    assert forall k :: k in impl ==> impl[k] in Words(impl);
    SameData(h, DisposeGlobal(h, v), m, impl);
    hide Data, Carries, Marked;
  }

  // ---- A pass of Clear ----

  // Releasing an entry before it goes to Dispose.
  lemma HandOutSettles(m: Maker, h: Heap, impl: map<Key, Slot>, others: set<Slot>, k: Key, v: Slot)
    requires v !in others && Owns(h, impl, others + {v}) && Marks(h, m, impl) && Marked(h.cells[v], m, k)
    ensures var h1 := Release(h, !m.kind.Plain?, v).heap;
      && Marks(h1, m, impl) && v in h1.cells && !Carries(h1.cells[v], m.id)
      && h1.cells[v] == (if m.kind.Plain? then h.cells[v] else h.cells[v].(state := Strong, param := None))
      && Settled(m, h, Data(h, m, impl) + Datum(h, m, v), [], h1, impl, others, {})
  {
    assert v in others + {v} && forall j :: j in impl ==> impl[j] in Words(impl);
    var h1 := Release(h, !m.kind.Plain?, v).heap;
    ReleaseSettles(h, m, v, k);
    LeaveSettles(h, h1, m, impl, others, v, Cleared);
  }

  lemma PassBeginsSettled(
    m: Maker, h0: Heap, due: multiset<Param>, ev: seq<Event>, h: Heap, impl: map<Key, Slot>,
    others: set<Slot>, kept: set<Slot>)
    requires Settled(m, h0, due, ev, h, impl, others, kept)
    ensures PassSettled(m, h0, due, ev + [Swapped], h, map[], impl, others, kept)
  {
    MadeNone(m, h, h, Swapped, []);
    MadeChain(m, h0, ev, h, [Swapped], h);
    assert DataSet(h, map[]) == {};
  }

  lemma PassEndsSettled(
    m: Maker, h0: Heap, due: multiset<Param>, ev: seq<Event>, h: Heap, impl: map<Key, Slot>,
    others: set<Slot>, kept: set<Slot>)
    requires PassSettled(m, h0, due, ev, h, impl, map[], others, kept)
    ensures Settled(m, h0, due, ev, h, impl, others, kept)
  {
    assert DataSet(h, map[]) == {};
  }

  // One entry of a pass: everything its disposal sets off, with the rest of the pass apart.
  lemma OneOfPassSettled(
    m: Maker, h0: Heap, due: multiset<Param>, ev: seq<Event>, h: Heap, impl: map<Key, Slot>, local: map<Key, Slot>,
    k: Key, others: set<Slot>, kept: set<Slot>, more: seq<Event>, h': Heap, impl': map<Key, Slot>, moreKept: set<Slot>)
    requires k in local && PassSettled(m, h0, due, ev, h, impl, local, others, kept)
    requires Settled(m, h, Data(h, m, impl) + Datum(h, m, local[k]), more, h', impl',
      others + kept + Words(local - {k}), moreKept)
    ensures PassSettled(m, h0, due, ev + more, h', impl', local - {k}, others, kept + moreKept)
  {
    var rest := local - {k};
    DataRemove(h, m, local, k);
    assert forall j :: j in rest ==> rest[j] in Words(rest);
    SameData(h, h', m, rest);
    var now, left, datum := Data(h, m, impl), Data(h, m, rest), Datum(h, m, local[k]);
    AccountsMore(h, now + datum, h', Data(h', m, impl'), left);
    assert (now + datum) + left == now + Data(h, m, local);
    AccountsChain(h0, due, h, now + Data(h, m, local), h', Data(h', m, impl') + left);
    MadeChain(m, h0, ev, h, more, h');
    hide Accounts, Made, Data, Datum, Marks, Carries, Words;
  }

  // ---- What is settled after a whole Clear ----

  lemma ClearedData(
    m: Maker, h0: Heap, impl: map<Key, Slot>, ev: seq<Event>, h: Heap, others: set<Slot>, kept: set<Slot>)
    requires Settled(m, h0, Data(h0, m, impl), ev, h, map[], others, kept) && h.cells.Keys == others + kept
    ensures h0.made <= h.made
    ensures h.returned + multiset(h0.made) == h0.returned + Data(h0, m, impl) + multiset(h.made)
    ensures StoredIn(ev) == multiset{} ==> h.made == h0.made && h.returned == h0.returned + Data(h0, m, impl)
    ensures (forall s :: s in others ==> !Carries(h0.cells[s], m.id)) ==>
      forall s :: s in h.cells ==> !Carries(h.cells[s], m.id)
  {
    assert DataSet(h, map[]) == {};
    if StoredIn(ev) == multiset{} {
      SameSize(h0.made, h.made);
      assert h.returned + multiset(h0.made) - multiset(h0.made) == h.returned;
    }
  }

  lemma SameSize<T>(a: set<T>, b: set<T>)
    requires a <= b && |a| == |b|
    ensures a == b
  {
    assert b == a + (b - a);
  }

  // ---- Small facts for the methods ----

  lemma SettledMarks(
    m: Maker, h0: Heap, due: multiset<Param>, ev: seq<Event>, h: Heap, impl: map<Key, Slot>,
    others: set<Slot>, kept: set<Slot>)
    requires Settled(m, h0, due, ev, h, impl, others, kept)
    ensures Marks(h, m, impl)
  {
  }

  lemma PassMarks(
    m: Maker, h0: Heap, due: multiset<Param>, ev: seq<Event>, h: Heap, impl: map<Key, Slot>, local: map<Key, Slot>,
    k: Key, others: set<Slot>, kept: set<Slot>)
    requires PassSettled(m, h0, due, ev, h, impl, local, others, kept) && k in local
    ensures Marks(h, m, impl) && local[k] in h.cells && Marked(h.cells[local[k]], m, k)
  {
  }

  lemma ClearBeginsSettled(m: Maker, h: Heap, impl: map<Key, Slot>, others: set<Slot>)
    requires Marks(h, m, impl) && others <= h.cells.Keys
    ensures Settled(m, h, Data(h, m, impl), [Cleared], h, impl, others, {})
  {
    MadeNone(m, h, h, Cleared, []);
  }

  // Dispose without a script: the value is dropped.
  lemma QuietSettles(m: Maker, h: Heap, impl: map<Key, Slot>, others: set<Slot>, k: Key, v: Slot)
    requires v !in others && v in h.cells && !Carries(h.cells[v], m.id)
    requires Owns(h, impl, others + {v}) && Marks(h, m, impl)
    ensures Settled(m, h, Data(h, m, impl), [Disposed(k, v)], DisposeGlobal(h, v), impl, others, {})
  {
    assert v in others + {v} && others <= h.cells.Keys;
    SettledNow(m, h, impl, others + {v});
    BatchSettles(m, h, Data(h, m, impl), k, v, [], h, impl, others, {});
    assert [Disposed(k, v)] + [] == [Disposed(k, v)];
    DropSettles(m, h, Data(h, m, impl), [Disposed(k, v)], h, impl, others, {}, v);
  }

  // What happened after the release counts from before it.
  lemma AlsoSettled(
    m: Maker, h0: Heap, due: multiset<Param>, h1: Heap, impl1: map<Key, Slot>, others: set<Slot>,
    ev: seq<Event>, h: Heap, impl: map<Key, Slot>, kept: set<Slot>)
    requires Settled(m, h0, due, [], h1, impl1, others, {})
    requires Settled(m, h1, Data(h1, m, impl1), ev, h, impl, others, kept)
    ensures Settled(m, h0, due, ev, h, impl, others, kept)
  {
    hide Settled;
    assert others + {} == others && {} + kept == kept && [] + ev == ev;
    SettledChain(m, h0, due, [], h1, impl1, others, {}, ev, h, impl, kept);
  }
}
