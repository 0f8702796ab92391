/**
 Linear ownership: in every state of every run each live cell has exactly one
 owner, no owner points at a dead cell and no cell is disposed of twice.
*/
module LinearOwnership {
  import opened Basics
  import opened Cells
  import opened HandleModel
  import opened ContainerModel
  import opened Ownership

  // Naming the one owner of every cell: inv is the inverse of Val on live cells.
  type Owners = map<Slot, Owner>

  ghost predicate Inverse(w: World, inv: Owners) {
    && !w.heap.faulted
    && 0 !in w.heap.cells
    && inv.Keys == w.heap.cells.Keys
    && (forall o :: Val(w, o) != 0 ==> Val(w, o) in inv && inv[Val(w, o)] == o)
    && (forall s :: s in inv ==> Val(w, inv[s]) == s)
  }

  lemma InverseAt(w: World, inv: Owners, o: Owner)
    requires Inverse(w, inv)
    ensures !w.heap.faulted && 0 !in w.heap.cells
    ensures Val(w, o) != 0 ==> Val(w, o) in w.heap.cells
  {
  }

  lemma InverseDistinct(w: World, inv: Owners, o1: Owner, o2: Owner)
    requires Inverse(w, inv)
    ensures Val(w, o1) == Val(w, o2) != 0 ==> o1 == o2
  {
  }

  lemma AllocInverse(w: World, w': World, inv: Owners, o: Owner, s: Slot) returns (inv': Owners)
    requires Inverse(w, inv) && Val(w, o) == 0 && Free(w.heap, s)
    requires !w'.heap.faulted && w'.heap.cells.Keys == w.heap.cells.Keys + {s}
    requires forall q :: Val(w', q) == if q == o then s else Val(w, q)
    ensures Inverse(w', inv')
  {
    inv' := inv[s := o];
  }

  lemma DropInverse(w: World, w': World, inv: Owners, o: Owner) returns (inv': Owners)
    requires Inverse(w, inv)
    requires w'.heap.faulted == Reset(w.heap, Val(w, o)).heap.faulted
    requires w'.heap.cells.Keys == w.heap.cells.Keys - {Val(w, o)}
    requires forall q :: Val(w', q) == if q == o then 0 else Val(w, q)
    ensures Inverse(w', inv')
  {
    inv' := inv - {Val(w, o)};
  }

  lemma MoveInverse(w: World, w': World, inv: Owners, from: Owner, to: Owner) returns (inv': Owners)
    requires Inverse(w, inv) && from != to && Val(w, to) == 0
    requires w'.heap.faulted == w.heap.faulted && w'.heap.cells.Keys == w.heap.cells.Keys
    requires forall q :: Val(w', q) == if q == to then Val(w, from) else if q == from then 0 else Val(w, q)
    ensures Inverse(w', inv')
  {
    inv' := if Val(w, from) == 0 then inv else inv[Val(w, from) := to];
  }

  // Flags, objects and callback data change, owners do not.
  lemma SameOwnersInverse(w: World, w': World, inv: Owners)
    requires Inverse(w, inv)
    requires w'.heap.faulted == w.heap.faulted && w'.heap.cells.Keys == w.heap.cells.Keys
    requires w'.vars == w.vars && w'.maps == w.maps && w'.vecs == w.vecs && w'.frames == w.frames
    ensures Inverse(w', inv)
  {
    assert forall o :: Val(w', o) == Val(w, o);
  }

  // Dropping the cell of x in place, as every form of Reset does first.
  lemma DropVar(w: World, inv: Owners, x: nat) returns (w1: World, inv1: Owners)
    requires Inverse(w, inv)
    ensures w1 == PutVar(w, x, Reset(w.heap, VarVal(w, x))) && Inverse(w1, inv1)
    ensures forall q :: Val(w1, q) == if q == Var(x) then 0 else Val(w, q)
    ensures w1.heap.cells.Keys == w.heap.cells.Keys - {VarVal(w, x)} && !w1.heap.faulted
  {
    w1 := PutVar(w, x, Reset(w.heap, VarVal(w, x)));
    assert Val(w, Var(x)) == VarVal(w, x);
    inv1 := DropInverse(w, w1, inv, Var(x));
  }

  lemma ResetPersistentInverse(w: World, inv: Owners, x: nat, y: nat, s: Slot) returns (inv': Owners)
    requires Inverse(w, inv) && Free(Reset(w.heap, VarVal(w, x)).heap, s)
    ensures Inverse(PutVar(w, x, ResetPersistent(w.heap, VarVal(w, x), Other(w, x, y), s)), inv')
  {
    hide Inverse;
    var w1, inv1 := DropVar(w, inv, x);
    InverseAt(w1, inv1, Var(y));
    var w' := PutVar(w, x, ResetPersistent(w.heap, VarVal(w, x), Other(w, x, y), s));
    var other := Other(w, x, y);
    if other == 0 {
      assert w' == w1;
      inv' := inv1;
    } else {
      assert Val(w1, Var(y)) == other;
      inv' := AllocInverse(w1, w', inv1, Var(x), s);
    }
  }

  lemma MoveAssignInverse(w: World, inv: Owners, x: nat, y: nat) returns (inv': Owners)
    requires Inverse(w, inv) && Enabled(w, MoveAssign(x, y))
    ensures Inverse(Next(w, MoveAssign(x, y)), inv')
  {
    hide Inverse;
    if x == y {
      inv' := inv;
    } else {
      var w1, inv1 := DropVar(w, inv, x);
      inv' := MoveInverse(w1, Next(w, MoveAssign(x, y)), inv1, Var(y), Var(x));
    }
  }

  // Release changes flags only.
  lemma ReleaseKeys(h: Heap, weak: bool, v: Slot)
    ensures Release(h, weak, v).val == v
    ensures Release(h, weak, v).heap.cells.Keys == h.cells.Keys
    ensures Release(h, weak, v).heap.faulted == h.faulted
  {
  }

  // The displaced entry goes to r, then the handle x into its place.
  lemma DisplaceInverse(w: World, inv: Owners, m: nat, k: Key, r: nat) returns (w1: World, inv1: Owners)
    requires Inverse(w, inv) && m in w.maps && VarVal(w, r) == 0
    ensures w1 == w.(
      maps := w.maps[m := w.maps[m].(impl := w.maps[m].impl - {k})],
      vars := w.vars[r := Lookup(w.maps[m].impl, k)])
    ensures Inverse(w1, inv1)
  {
    hide Inverse;
    w1 := w.(
      maps := w.maps[m := w.maps[m].(impl := w.maps[m].impl - {k})],
      vars := w.vars[r := Lookup(w.maps[m].impl, k)]);
    assert Val(w, Entry(m, k)) == Lookup(w.maps[m].impl, k) && Val(w, Var(r)) == 0;
    inv1 := MoveInverse(w, w1, inv, Entry(m, k), Var(r));
  }

  // A handle's pointer goes into an empty entry.
  lemma PlaceInverse(w: World, inv: Owners, m: nat, k: Key, x: nat) returns (w2: World, inv2: Owners)
    requires Inverse(w, inv) && m in w.maps && k !in w.maps[m].impl
    ensures w2 == w.(
      maps := w.maps[m := w.maps[m].(impl := w.maps[m].impl[k := VarVal(w, x)])],
      vars := w.vars[x := 0])
    ensures Inverse(w2, inv2)
  {
    hide Inverse;
    w2 := w.(
      maps := w.maps[m := w.maps[m].(impl := w.maps[m].impl[k := VarVal(w, x)])],
      vars := w.vars[x := 0]);
    assert Val(w, Var(x)) == VarVal(w, x) && Val(w, Entry(m, k)) == 0;
    inv2 := MoveInverse(w, w2, inv, Var(x), Entry(m, k));
  }

  // Annotating the new entry and releasing the displaced one change flags only.
  lemma SetUniqueShape(h: Heap, kind: Kind, impl: map<Key, Slot>, k: Key, v: Slot, p: Param)
    ensures SetUnique(h, kind, impl, k, v, p).impl == impl[k := v]
    ensures SetUnique(h, kind, impl, k, v, p).val == Lookup(impl, k)
    ensures v in h.cells ==> SetUnique(h, kind, impl, k, v, p).heap.cells.Keys == h.cells.Keys
    ensures v in h.cells ==> SetUnique(h, kind, impl, k, v, p).heap.faulted == h.faulted
  {
    ReleaseKeys(Annotate(h, kind, v, p), !kind.Plain?, Lookup(impl, k));
  }

  lemma MapSetInverse(w: World, inv: Owners, m: nat, k: Key, x: nat, serial: nat, r: nat) returns (inv': Owners)
    requires Inverse(w, inv) && Enabled(w, MapSet(m, k, x, serial, r))
    ensures Inverse(Next(w, MapSet(m, k, x, serial, r)), inv')
  {
    hide Inverse, SetUnique;
    InverseAt(w, inv, Var(x));
    assert Val(w, Var(x)) == VarVal(w, x);
    SetUniqueShape(w.heap, w.maps[m].kind, w.maps[m].impl, k, VarVal(w, x), MapMade(m, k, serial));
    var w1, inv1 := DisplaceInverse(w, inv, m, k, r);
    var w2, inv2 := PlaceInverse(w1, inv1, m, k, x);
    var w' := Next(w, MapSet(m, k, x, serial, r));
    var impl := w.maps[m].impl;
    assert (impl - {k})[k := VarVal(w, x)] == impl[k := VarVal(w, x)];
    assert w2.maps == w'.maps && w2.vars == w'.vars;
    SameOwnersInverse(w2, w', inv2);
    inv' := inv2;
  }

  lemma MapRemoveInverse(w: World, inv: Owners, m: nat, k: Key, r: nat) returns (inv': Owners)
    requires Inverse(w, inv) && Enabled(w, MapRemove(m, k, r))
    ensures Inverse(Next(w, MapRemove(m, k, r)), inv')
  {
    hide Inverse;
    InverseAt(w, inv, Var(r));
    ReleaseKeys(w.heap, !w.maps[m].kind.Plain?, Lookup(w.maps[m].impl, k));
    var w1, inv1 := DisplaceInverse(w, inv, m, k, r);
    inv' := inv1;
    SameOwnersInverse(w1, Next(w, MapRemove(m, k, r)), inv');
  }

  lemma HandOutInverse(w: World, inv: Owners, f: nat, k: Key, r: nat) returns (inv': Owners)
    requires Inverse(w, inv) && Enabled(w, HandOut(f, k, r))
    ensures Inverse(Next(w, HandOut(f, k, r)), inv')
  {
    hide Inverse;
    InverseAt(w, inv, Var(r));
    assert Val(w, Var(r)) == VarVal(w, r);
    ReleaseKeys(w.heap, !w.frames[f].kind.Plain?, w.frames[f].rest[k]);
    inv' := MoveInverse(w, Next(w, HandOut(f, k, r)), inv, Swapped(f, k), Var(r));
  }

  lemma AppendInverse(w: World, inv: Owners, v: nat, i: nat, x: nat) returns (inv': Owners)
    requires Inverse(w, inv) && Enabled(w, Append(v, i, x))
    ensures Inverse(Next(w, Append(v, i, x)), inv')
  {
    hide Inverse;
    InverseAt(w, inv, Var(x));
    assert Val(w, Elem(v, i)) == 0 && Val(w, Var(x)) == VarVal(w, x);
    inv' := MoveInverse(w, Next(w, Append(v, i, x)), inv, Var(x), Elem(v, i));
  }

  // All entries of map m become entries of the local map f.
  ghost function SwappedVal(w: World, m: nat, f: nat, o: Owner): Slot {
    if o.Entry? && o.m == m then 0
    else if o.Swapped? && o.f == f then Val(w, Entry(m, o.key))
    else Val(w, o)
  }

  lemma RenameInverse(w: World, w': World, inv: Owners, m: nat, f: nat) returns (inv': Owners)
    requires Inverse(w, inv)
    requires forall k :: Val(w, Swapped(f, k)) == 0
    requires w'.heap == w.heap
    requires forall o :: Val(w', o) == SwappedVal(w, m, f, o)
    ensures Inverse(w', inv')
  {
    inv' := map s | s in inv :: if inv[s].Entry? && inv[s].m == m then Swapped(f, inv[s].key) else inv[s];
  }

  lemma SwapOutInverse(w: World, inv: Owners, m: nat, f: nat) returns (inv': Owners)
    requires Inverse(w, inv) && Enabled(w, SwapOut(m, f))
    ensures Inverse(Next(w, SwapOut(m, f)), inv')
  {
    hide Inverse;
    inv' := RenameInverse(w, Next(w, SwapOut(m, f)), inv, m, f);
  }

  lemma ForgetInverse(w: World, w': World, inv: Owners) returns (inv': Owners)
    requires Inverse(w, inv) && w'.heap == w.heap && forall o :: Val(w', o) == Val(w, o)
    ensures Inverse(w', inv')
  {
    inv' := inv;
  }

  lemma {:induction false} VectorClearInverse(w: World, inv: Owners, v: nat, i: nat) returns (inv': Owners)
    requires Inverse(w, inv) && v in w.vecs && i <= |w.vecs[v]|
    requires forall j :: 0 <= j < i ==> w.vecs[v][j] == 0
    ensures Inverse(w.(heap := DisposeWords(w.heap, w.vecs[v][i..]), vecs := w.vecs[v := []]), inv')
    decreases |w.vecs[v]| - i
  {
    hide Inverse;
    InverseAt(w, inv, Elem(v, i));
    var words := w.vecs[v];
    if i == |words| {
      assert words[i..] == [];
      var w' := w.(vecs := w.vecs[v := []]);
      inv' := ForgetInverse(w, w', inv);
    } else {
      var w1 := w.(heap := Reset(w.heap, words[i]).heap, vecs := w.vecs[v := words[i := 0]]);
      assert Val(w, Elem(v, i)) == words[i];
      var inv1 := DropInverse(w, w1, inv, Elem(v, i));
      inv' := VectorClearInverse(w1, inv1, v, i + 1);
      assert w1.vecs[v][i + 1..] == words[i..][1..];
      assert w1.(heap := DisposeWords(w1.heap, w1.vecs[v][i + 1..]), vecs := w1.vecs[v := []])
        == w.(heap := DisposeWords(w.heap, words[i..]), vecs := w.vecs[v := []]);
    }
  }

  // Whatever word the map holds at the key, a first pass frees exactly its cell.
  lemma FirstPassKeys(h: Heap, kind: Kind, impl: map<Key, Slot>, k: Key, p: Param)
    ensures FirstPass(h, kind, impl, k, p).heap.cells.Keys
      == h.cells.Keys - if Lookup(impl, k) == 0 then {} else {Lookup(impl, k)}
    ensures FirstPass(h, kind, impl, k, p).heap.faulted == Reset(h, Lookup(impl, k)).heap.faulted
    ensures FirstPass(h, kind, impl, k, p).impl == impl - {k}
  {
    ReleaseKeys(h, !kind.Plain?, Lookup(impl, k));
  }

  lemma DropEntryInverse(w: World, inv: Owners, m: nat, k: Key) returns (w1: World, inv1: Owners)
    requires Inverse(w, inv) && m in w.maps
    ensures w1 == w.(
      heap := Reset(w.heap, Lookup(w.maps[m].impl, k)).heap,
      maps := w.maps[m := w.maps[m].(impl := w.maps[m].impl - {k})])
    ensures Inverse(w1, inv1)
  {
    hide Inverse;
    InverseAt(w, inv, Entry(m, k));
    w1 := w.(
      heap := Reset(w.heap, Lookup(w.maps[m].impl, k)).heap,
      maps := w.maps[m := w.maps[m].(impl := w.maps[m].impl - {k})]);
    assert Val(w, Entry(m, k)) == Lookup(w.maps[m].impl, k);
    inv1 := DropInverse(w, w1, inv, Entry(m, k));
  }

  lemma FirstPassInverse(w: World, inv: Owners, s: Slot, m: nat, k: Key, serial: nat) returns (inv': Owners)
    requires Inverse(w, inv) && Enabled(w, FirstPassOf(s, m, k, serial))
    ensures Inverse(Next(w, FirstPassOf(s, m, k, serial)), inv')
  {
    hide Inverse;
    InverseAt(w, inv, Entry(m, k));
    FirstPassKeys(w.heap, w.maps[m].kind, w.maps[m].impl, k, MapMade(m, k, serial));
    assert Val(w, Entry(m, k)) == Lookup(w.maps[m].impl, k);
    var w1, inv1 := DropEntryInverse(w, inv, m, k);
    SameOwnersInverse(w1, Next(w, FirstPassOf(s, m, k, serial)), inv1);
    inv' := inv1;
  }

  lemma FromLocalInverse(w: World, inv: Owners, x: nat, local: Option<Address>, s: Slot) returns (inv': Owners)
    requires Inverse(w, inv) && Enabled(w, FromLocal(x, local, s))
    ensures Inverse(Next(w, FromLocal(x, local, s)), inv')
  {
    hide Inverse;
    var w1, inv1 := DropVar(w, inv, x);
    if local.Some? {
      inv' := AllocInverse(w1, Next(w, FromLocal(x, local, s)), inv1, Var(x), s);
    } else {
      inv' := inv1;
    }
  }

  lemma DestroyInverse(w: World, inv: Owners, x: nat) returns (inv': Owners)
    requires Inverse(w, inv) && Enabled(w, Destroy(x))
    ensures Inverse(Next(w, Destroy(x)), inv')
  {
    hide Inverse;
    InverseAt(w, inv, Var(x));
    assert Val(w, Var(x)) == VarVal(w, x);
    inv' := DropInverse(w, Next(w, Destroy(x)), inv, Var(x));
  }

  // One step of anything keeps ownership linear.
  lemma StepInverse(w: World, inv: Owners, st: Step) returns (inv': Owners)
    requires Inverse(w, inv) && Enabled(w, st)
    ensures Inverse(Next(w, st), inv')
  {
    match st
    case ResetVar(x) => var w1, inv1 := DropVar(w, inv, x); inv' := inv1;
    case FromLocal(x, local, s) => inv' := FromLocalInverse(w, inv, x, local, s);
    case FromPersistent(x, y, s) => inv' := ResetPersistentInverse(w, inv, x, y, s);
    case CopyAssign(x, y, s) => inv' := ResetPersistentInverse(w, inv, x, y, s);
    case MoveAssign(x, y) => inv' := MoveAssignInverse(w, inv, x, y);
    case Destroy(x) => inv' := DestroyInverse(w, inv, x);
    case SetWeak(x, _) =>
      assert Val(w, Var(x)) == VarVal(w, x);
      SameOwnersInverse(w, Next(w, st), inv); inv' := inv;
    case ClearVarWeak(x) =>
      assert Val(w, Var(x)) == VarVal(w, x);
      SameOwnersInverse(w, Next(w, st), inv); inv' := inv;
    case MapSet(m, k, x, serial, r) => inv' := MapSetInverse(w, inv, m, k, x, serial, r);
    case MapRemove(m, k, r) => inv' := MapRemoveInverse(w, inv, m, k, r);
    case SwapOut(m, f) => inv' := SwapOutInverse(w, inv, m, f);
    case HandOut(f, k, r) => inv' := HandOutInverse(w, inv, f, k, r);
    case Append(v, i, x) => inv' := AppendInverse(w, inv, v, i, x);
    case VectorClear(v) =>
      assert w.vecs[v][0..] == w.vecs[v];
      inv' := VectorClearInverse(w, inv, v, 0);
    case GcMove(_) => SameOwnersInverse(w, Next(w, st), inv); inv' := inv;
    case GcKill(_) => SameOwnersInverse(w, Next(w, st), inv); inv' := inv;
    case FirstPassOf(s, m, k, serial) => inv' := FirstPassInverse(w, inv, s, m, k, serial);
    case OwnPassOf(x) =>
      var w1, inv1 := DropVar(w, inv, x);
      SameOwnersInverse(w1, Next(w, st), inv1); inv' := inv1;
    case SecondPassOf(_) => SameOwnersInverse(w, Next(w, st), inv); inv' := inv;
  }
}
