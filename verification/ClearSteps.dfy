/** The steps of Clear: how each part of it leads from one state of the books to the next. */
module ClearSteps {
  import opened Basics
  import opened Cells
  import opened HandleModel
  import opened ContainerModel
  import opened Traces
  import opened MapOwnership
  import opened CallbackData

  lemma Append3(a: seq<Event>, b: seq<Event>, c: seq<Event>)
    ensures a + b + c == a + (b + c)
  {
  }

  lemma BudgetHead(script: seq<Batch>)
    requires script != []
    ensures Budget(script) == |script[0].ops| + Budget(script[1..])
  {
  }

  // ---- The books and the cells during a Clear ----

  // A batch of which the operations from i on are still to come.
  function ToDo(impl: map<Key, Slot>, ops: seq<MapOp>, i: nat, rest: seq<Batch>, kept: set<Slot>): Books
    requires i <= |ops|
  {
    Books(impl, NoEntries(), ops[i..], rest, kept)
  }

  // The first call of Dispose keeps its value, and the cell of v is then the given one.
  ghost predicate KeptAs(script: seq<Batch>, v: Slot, kept: set<Slot>, h: Heap, c: Cell) {
    script != [] && script[0].keep ==> v in kept && v in h.cells && h.cells[v] == c
  }

  // One entry released and about to go to Dispose.
  function Handed(impl: map<Key, Slot>, k: Key, v: Slot, script: seq<Batch>): Books {
    Books(impl, multiset{(k, v)}, [], script, {})
  }

  // A pass under way, with the entries of `local` still to come.
  function Midway(impl: map<Key, Slot>, local: map<Key, Slot>, rest: seq<Batch>, kept: set<Slot>): Books {
    Books(impl, Items(local), [], rest, kept)
  }

  // The events explain the books, and the live cells are those of the map, of what the
  // embedder kept and of `others`.
  ghost predicate Leads(start: Books, ev: seq<Event>, now: Books, h: Heap, others: set<Slot>) {
    Explains(start, ev, now) && now.kept !! others && Owns(h, now.impl, others + now.kept)
  }

  // The same in the middle of a pass, where the local map still owns its cells.
  ghost predicate Passing(
    start: Books, ev: seq<Event>, impl: map<Key, Slot>, local: map<Key, Slot>, rest: seq<Batch>, kept: set<Slot>,
    h: Heap, others: set<Slot>)
  {
    && Explains(start, ev, Midway(impl, local, rest, kept)) && kept !! others
    && Owns(h, impl, others + kept + Words(local)) && Words(local) !! others + kept && Distinct(local)
  }

  ghost function Around(others: set<Slot>, local: map<Key, Slot>, k: Key): set<Slot> {
    others + Words(local - {k})
  }

  lemma OwnsNow(
    start: Books, ev: seq<Event>, impl: map<Key, Slot>, ops: seq<MapOp>, i: nat, rest: seq<Batch>, kept: set<Slot>,
    h: Heap, others: set<Slot>)
    requires i <= |ops| && Leads(start, ev, ToDo(impl, ops, i, rest, kept), h, others)
    ensures Owns(h, impl, others + kept)
  {
  }

  lemma NothingYet(h: Heap, impl: map<Key, Slot>, ops: seq<MapOp>, script: seq<Batch>, others: set<Slot>)
    requires Owns(h, impl, others)
    ensures Leads(Idle(impl, ops, script), [], ToDo(impl, ops, 0, script, {}), h, others)
  {
    assert ops[0..] == ops && others + {} == others;
  }

  lemma AllDone(impl: map<Key, Slot>, ops: seq<MapOp>, rest: seq<Batch>, kept: set<Slot>)
    ensures ToDo(impl, ops, |ops|, rest, kept) == Done(impl, rest, kept)
  {
    assert ops[|ops|..] == [];
  }

  lemma OneOfMany(
    start: Books, ev: seq<Event>, h: Heap, before: map<Key, Slot>, ops: seq<MapOp>, i: nat, used: seq<Batch>,
    kept: set<Slot>, others: set<Slot>,
    more: seq<Event>, h': Heap, impl: map<Key, Slot>, rest: seq<Batch>, moreKept: set<Slot>)
    requires i < |ops| && Leads(start, ev, ToDo(before, ops, i, used, kept), h, others)
    requires Leads(Idle(before, [ops[i]], used), more, Done(impl, rest, moreKept), h', others + kept)
    ensures Leads(start, ev + more, ToDo(impl, ops, i + 1, rest, kept + moreKept), h', others)
  {
    hide Explains, Owns;
    assert others + kept + moreKept == others + (kept + moreKept);
    ExplainsWithin(Idle(before, [ops[i]], used), more, Done(impl, rest, moreKept), NoEntries(), ops[i + 1..], kept);
    assert [ops[i]] + ops[i + 1..] == ops[i..] && [] + ops[i + 1..] == ops[i + 1..];
    assert {} + kept == kept && moreKept + kept == kept + moreKept && NoEntries() + NoEntries() == NoEntries();
    assert Within(Idle(before, [ops[i]], used), NoEntries(), ops[i + 1..], kept) == ToDo(before, ops, i, used, kept);
    assert Within(Done(impl, rest, moreKept), NoEntries(), ops[i + 1..], kept)
      == ToDo(impl, ops, i + 1, rest, kept + moreKept);
    ExplainsChain(start, ev, ToDo(before, ops, i, used, kept), more, ToDo(impl, ops, i + 1, rest, kept + moreKept));
  }

  lemma OpExplained(h: Heap, impl: map<Key, Slot>, op: MapOp, script: seq<Batch>, s: Slot, others: set<Slot>)
    requires !op.ClearOp?
    requires var impl' := if op.SetOp? then impl[op.key := s] else impl - {op.key};
      Owns(h, impl', Keep(others, op.keep, Found(impl, op.key)))
    requires op.keep && op.key in impl ==> impl[op.key] !in others
    ensures var found := Found(impl, op.key);
      if op.SetOp? then
        Leads(Idle(impl, [op], script), [Set(op.key, found, s, Some(op.referent))],
          Done(impl[op.key := s], script, Keep({}, op.keep, found)), h, others)
      else
        Leads(Idle(impl, [op], script), [Removed(op.key, found)],
          Done(impl - {op.key}, script, Keep({}, op.keep, found)), h, others)
  {
    assert [op][1..] == [];
    hide Explains, Owns;
    var found, start := Found(impl, op.key), Idle(impl, [op], script);
    assert Keep(others, op.keep, found) == others + Keep({}, op.keep, found);
    if op.SetOp? {
      ExplainsOne(start, Set(op.key, found, s, Some(op.referent)));
    } else {
      ExplainsOne(start, Removed(op.key, found));
    }
  }

  lemma HandedQuietly(h: Heap, impl: map<Key, Slot>, k: Key, v: Slot, others: set<Slot>)
    requires v !in others && Owns(h, impl, others + {v})
    ensures Leads(Handed(impl, k, v, []), [Disposed(k, v)], Done(impl, [], {}), DisposeGlobal(h, v), others)
  {
    assert others + {v} + {} == others + {v};
    DropOwns(h, impl, others, {}, v);
    hide Explains, Owns;
    ExplainsOne(Handed(impl, k, v, []), Disposed(k, v));
  }

  lemma HandedBatch(
    h: Heap, impl: map<Key, Slot>, k: Key, v: Slot, script: seq<Batch>,
    more: seq<Event>, impl': map<Key, Slot>, rest: seq<Batch>, kept: set<Slot>, others: set<Slot>)
    requires script != [] && v !in others
    requires Leads(Idle(impl, script[0].ops, script[1..]), more, Done(impl', rest, kept), h, others + {v})
    ensures var start, ev := Handed(impl, k, v, script), [Disposed(k, v)] + more;
      if script[0].keep then Leads(start, ev, Done(impl', rest, kept + {v}), h, others)
      else Leads(start, ev, Done(impl', rest, kept), DisposeGlobal(h, v), others)
  {
    hide Explains, Owns;
    DropOwns(h, impl', others, kept, v);
    var own := Keep({}, script[0].keep, Some(v));
    HandedExplained(impl, k, v, script, more, impl', rest, kept, own);
    assert kept + own == if script[0].keep then kept + {v} else kept;
  }

  lemma HandedExplained(
    impl: map<Key, Slot>, k: Key, v: Slot, script: seq<Batch>,
    more: seq<Event>, impl': map<Key, Slot>, rest: seq<Batch>, kept: set<Slot>, own: set<Slot>)
    requires script != [] && own == Keep({}, script[0].keep, Some(v))
    requires Explains(Idle(impl, script[0].ops, script[1..]), more, Done(impl', rest, kept))
    ensures Explains(Handed(impl, k, v, script), [Disposed(k, v)] + more, Done(impl', rest, kept + own))
  {
    hide Explains;
    var start, begun := Handed(impl, k, v, script), Idle(impl, script[0].ops, script[1..]);
    assert script[0].ops + [] == script[0].ops && multiset{(k, v)} - multiset{(k, v)} == NoEntries();
    assert {} + own == own && NoEntries() + NoEntries() == NoEntries();
    assert After(start, Disposed(k, v)) == Some(Within(begun, NoEntries(), [], own));
    ExplainsOne(start, Disposed(k, v));
    hide After, Keep;
    ExplainsWithin(begun, more, Done(impl', rest, kept), NoEntries(), [], own);
    assert Within(Done(impl', rest, kept), NoEntries(), [], own) == Done(impl', rest, kept + own);
    ExplainsChain(start, [Disposed(k, v)], Within(begun, NoEntries(), [], own), more, Done(impl', rest, kept + own));
  }

  lemma ClearBegins(h: Heap, impl: map<Key, Slot>, script: seq<Batch>, others: set<Slot>)
    requires Owns(h, impl, others)
    ensures Leads(Idle(impl, [ClearOp], script), [Cleared], Done(impl, script, {}), h, others)
  {
    hide Owns, Explains;
    assert [ClearOp][1..] == [] && others + {} == others;
    ExplainsOne(Idle(impl, [ClearOp], script), Cleared);
  }

  lemma PassBegins(
    start: Books, ev: seq<Event>, h: Heap, impl: map<Key, Slot>, rest: seq<Batch>, kept: set<Slot>, others: set<Slot>)
    requires Leads(start, ev, Done(impl, rest, kept), h, others)
    ensures Passing(start, ev + [Swapped], map[], impl, rest, kept, h, others)
  {
    assert Owns(h, map[], others + kept + Words(impl));
    hide Explains, Items, Owns;
    assert NoEntries() + Items(impl) == Items(impl);
    ExplainsOne(Done(impl, rest, kept), Swapped);
    ExplainsChain(start, ev, Done(impl, rest, kept), [Swapped], Midway(map[], impl, rest, kept));
  }

  lemma PassTakes(
    start: Books, ev: seq<Event>, impl: map<Key, Slot>, local: map<Key, Slot>, k: Key, rest: seq<Batch>,
    kept: set<Slot>, h: Heap, others: set<Slot>)
    requires Passing(start, ev, impl, local, rest, kept, h, others) && k in local
    ensures var outside := Around(others + kept, local, k);
      local[k] !in outside && Owns(h, impl, outside + {local[k]})
    ensures |local - {k}| < |local|
  {
    TakeEntry(local, k);
    assert others + kept + Words(local) == Around(others + kept, local, k) + {local[k]};
    assert (local - {k}).Keys == local.Keys - {k};
  }

  lemma OneOfPass(
    start: Books, ev: seq<Event>, h: Heap, before: map<Key, Slot>, local: map<Key, Slot>, k: Key, used: seq<Batch>,
    kept: set<Slot>, others: set<Slot>,
    more: seq<Event>, h': Heap, impl: map<Key, Slot>, rest: seq<Batch>, moreKept: set<Slot>)
    requires k in local && Passing(start, ev, before, local, used, kept, h, others)
    requires Leads(Handed(before, k, local[k], used), more, Done(impl, rest, moreKept), h',
      Around(others + kept, local, k))
    ensures Passing(start, ev + more, impl, local - {k}, rest, kept + moreKept, h', others)
  {
    hide Explains, Owns;
    OneOfPassExplained(start, ev, before, local, k, used, kept, more, impl, rest, moreKept);
    TakeEntry(local, k);
    assert Around(others + kept, local, k) + moreKept == others + (kept + moreKept) + Words(local - {k});
  }

  lemma OneOfPassExplained(
    start: Books, ev: seq<Event>, before: map<Key, Slot>, local: map<Key, Slot>, k: Key, used: seq<Batch>,
    kept: set<Slot>, more: seq<Event>, impl: map<Key, Slot>, rest: seq<Batch>, moreKept: set<Slot>)
    requires k in local && Explains(start, ev, Midway(before, local, used, kept))
    requires Explains(Handed(before, k, local[k], used), more, Done(impl, rest, moreKept))
    ensures Explains(start, ev + more, Midway(impl, local - {k}, rest, kept + moreKept))
  {
    ItemsRemove(local, k);
    hide Explains, Items;
    var left := Items(local - {k});
    ExplainsWithin(Handed(before, k, local[k], used), more, Done(impl, rest, moreKept), left, [], kept);
    assert multiset{(k, local[k])} + left == Items(local) && NoEntries() + left == left;
    assert {} + kept == kept && moreKept + kept == kept + moreKept;
    assert Within(Handed(before, k, local[k], used), left, [], kept) == Midway(before, local, used, kept);
    assert Within(Done(impl, rest, moreKept), left, [], kept) == Midway(impl, local - {k}, rest, kept + moreKept);
    ExplainsChain(start, ev, Midway(before, local, used, kept), more, Midway(impl, local - {k}, rest, kept + moreKept));
  }

  lemma ClearedCells(start: Books, ev: seq<Event>, rest: seq<Batch>, kept: set<Slot>, h: Heap, others: set<Slot>)
    requires Leads(start, ev, Done(map[], rest, kept), h, others)
    ensures Explains(start, ev, Done(map[], rest, kept))
    ensures !h.faulted && h.cells.Keys == others + kept
  {
  }

  lemma PassEnds(
    start: Books, ev: seq<Event>, h: Heap, impl: map<Key, Slot>, rest: seq<Batch>, kept: set<Slot>, others: set<Slot>)
    requires Passing(start, ev, impl, map[], rest, kept, h, others)
    ensures Leads(start, ev, Done(impl, rest, kept), h, others)
  {
    hide Owns, Explains;
    NoItems();
    assert others + kept + Words(map[]) == others + kept;
  }

  lemma AroundIs(others: set<Slot>, local: map<Key, Slot>, k: Key)
    ensures Around(others, local, k) == others + Words(local - {k})
  {
  }

  // The value held by the embedder is still apart from the map, the others and the kept.
  lemma BatchApart(
    h: Heap, start: Books, ev: seq<Event>, impl: map<Key, Slot>, rest: seq<Batch>, kept: set<Slot>,
    others: set<Slot>, v: Slot)
    requires Leads(start, ev, Done(impl, rest, kept), h, others + {v})
    ensures v in h.cells && v !in Words(impl) && v !in kept
  {
    assert v in others + {v};
  }

  // Without a script the value is dropped.
  lemma NoBatch(m: Maker, h: Heap, impl: map<Key, Slot>, k: Key, v: Slot, others: set<Slot>)
    requires v != 0 && v !in others && v in h.cells && !Carries(h.cells[v], m.id)
    requires Owns(h, impl, others + {v}) && Marks(h, m, impl)
    ensures var h', c := Reset(h, v).heap, h.cells[v];
      && Leads(Handed(impl, k, v, []), [Disposed(k, v)], Done(impl, [], {}), h', others)
      && Settled(m, h, Data(h, m, impl), [Disposed(k, v)], h', impl, others, {})
      && KeptAs([], v, {}, h', c)
  {
    HandedQuietly(h, impl, k, v, others);
    QuietSettles(m, h, impl, others, k, v);
  }

  // After its batch the value is kept or dropped.
  lemma BatchEnds(
    m: Maker, h0: Heap, impl0: map<Key, Slot>, k: Key, v: Slot, script: seq<Batch>, more: seq<Event>,
    h: Heap, impl: map<Key, Slot>, rest: seq<Batch>, kept: set<Slot>, others: set<Slot>)
    requires script != [] && v != 0 && v !in others && v in h0.cells && !Carries(h0.cells[v], m.id)
    requires Leads(Idle(impl0, script[0].ops, script[1..]), more, Done(impl, rest, kept), h, others + {v})
    requires Settled(m, h0, Data(h0, m, impl0), more, h, impl, others + {v}, kept)
    ensures var kept' := if script[0].keep then kept + {v} else kept;
      var h' := if script[0].keep then h else Reset(h, v).heap;
      && Leads(Handed(impl0, k, v, script), [Disposed(k, v)] + more, Done(impl, rest, kept'), h', others)
      && Settled(m, h0, Data(h0, m, impl0), [Disposed(k, v)] + more, h', impl, others, kept')
      && KeptAs(script, v, kept', h', h0.cells[v])
  {
    BatchApart(h, Idle(impl0, script[0].ops, script[1..]), more, impl, rest, kept, others, v);
    HandedBatch(h, impl0, k, v, script, more, impl, rest, kept, others);
    BatchSettles(m, h0, Data(h0, m, impl0), k, v, more, h, impl, others, kept);
    hide Leads, Settled, Data, Carries, Idle, Done, Handed;
    if !script[0].keep {
      DropSettles(m, h0, Data(h0, m, impl0), [Disposed(k, v)] + more, h, impl, others, kept, v);
    }
  }
}
