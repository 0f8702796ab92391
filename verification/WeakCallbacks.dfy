/**
 Weak containers: which cells carry a container's weak callback, and what becomes
 of the data made for each callback.
*/
module WeakCallbacks {
  import opened Basics
  import opened Cells
  import opened HandleModel
  import opened ContainerModel
  import opened Ownership
  import opened LinearOwnership

  // The cell of an entry: weak with a callback for that very entry, or not the
  // business of any container callback.
  predicate Labelled(c: Cell, kind: Kind, m: nat, k: Key) {
    if kind.Plain? then !MapCell(c)
    else MapCell(c) && c.param.value.container == m && c.param.value.key == k
  }

  ghost predicate Typed(w: World, o: Owner) {
    Val(w, o) in w.heap.cells ==>
      var c := w.heap.cells[Val(w, o)];
      match o
      case Entry(m, k) => m in w.maps && Labelled(c, w.maps[m].kind, m, k)
      case Swapped(f, k) => f in w.frames && Labelled(c, w.frames[f].kind, w.frames[f].origin, k)
      case _ => !MapCell(c)
  }

  ghost predicate Targeted(w: World) {
    forall o :: Typed(w, o)
  }

  // NearDeath cells are those whose first pass is due; each belongs to a container or a handle.
  ghost predicate PendingOk(w: World) {
    && (forall s :: s in w.pending <==> s in w.heap.cells && w.heap.cells[s].state.NearDeath?)
    && (forall s :: s in w.pending ==> MapCell(w.heap.cells[s]) || HeldByVar(w, s))
    && (forall s :: s in w.heap.cells && w.heap.cells[s].state.Strong? ==> w.heap.cells[s].param.None?)
    && (w.pending != {} ==> forall f :: f in w.frames ==> w.frames[f].rest == map[])
  }

  // `at` names the one cell that carries each datum still attached.
  ghost predicate Accounted(h: Heap, second: multiset<Param>, at: map<Param, Slot>) {
    && at.Keys <= h.made
    && (forall s :: s in h.cells && MapCell(h.cells[s]) ==>
          h.cells[s].param.value in at && at[h.cells[s].param.value] == s)
    && (forall p :: p in at ==> at[p] in h.cells && MapCell(h.cells[at[p]]) && h.cells[at[p]].param == Some(p))
    && (forall p :: p in h.made ==> h.returned[p] + second[p] == if p in at then 0 else 1)
    && (forall p :: p !in h.made ==> h.returned[p] == 0 && second[p] == 0)
  }

  ghost predicate Inv(w: World, inv: Owners, at: map<Param, Slot>) {
    Inverse(w, inv) && Targeted(w) && PendingOk(w) && Accounted(w.heap, w.second, at)
  }

  // ---- Accounting of callback data, heap by heap ----

  // The container callbacks are on the same cells with the same data.
  ghost predicate SameMapCells(h: Heap, h': Heap) {
    && h'.made == h.made && h'.returned == h.returned
    && (forall s :: s in h.cells && MapCell(h.cells[s]) ==>
          s in h'.cells && MapCell(h'.cells[s]) && h'.cells[s].param == h.cells[s].param)
    && (forall s :: s in h'.cells && MapCell(h'.cells[s]) ==> s in h.cells && MapCell(h.cells[s]))
  }

  lemma AccountedSame(h: Heap, h': Heap, second: multiset<Param>, at: map<Param, Slot>)
    requires Accounted(h, second, at) && SameMapCells(h, h')
    ensures Accounted(h', second, at)
  {
  }

  lemma AccountedAnnotate(h: Heap, second: multiset<Param>, at: map<Param, Slot>, kind: Kind, v: Slot, p: Param)
    returns (at': map<Param, Slot>)
    requires Accounted(h, second, at) && v in h.cells && !MapCell(h.cells[v])
    requires p.MapMade? && (kind.Plain? || p !in h.made)
    ensures Accounted(Annotate(h, kind, v, p), second, at')
  {
    at' := if kind.Plain? then at else at[p := v];
  }

  // Release hands the data of a weak entry back and of nothing else.
  lemma AccountedRelease(h: Heap, second: multiset<Param>, at: map<Param, Slot>, kind: Kind, m: nat, k: Key, v: Slot)
    returns (at': map<Param, Slot>)
    requires Accounted(h, second, at)
    requires v in h.cells ==> Labelled(h.cells[v], kind, m, k) && !h.cells[v].state.NearDeath?
    ensures Accounted(Release(h, !kind.Plain?, v).heap, second, at')
  {
    at' := if !kind.Plain? && v != 0 && v in h.cells then at - {h.cells[v].param.value} else at;
  }

  lemma AccountedFirstPass(
    h: Heap, second: multiset<Param>, at: map<Param, Slot>, kind: Kind, impl: map<Key, Slot>, k: Key, p: Param)
    returns (at': map<Param, Slot>)
    requires Accounted(h, second, at) && !kind.Plain?
    requires var v := Lookup(impl, k);
      v != 0 && v in h.cells && h.cells[v].state.NearDeath? && h.cells[v].param == Some(p) && MapCell(h.cells[v])
    ensures var due := if kind.WeakGlobal? then second + multiset{p} else second;
      Accounted(FirstPass(h, kind, impl, k, p).heap, due, at')
  {
    at' := at - {p};
  }

  lemma AccountedSecondPass(h: Heap, second: multiset<Param>, at: map<Param, Slot>, p: Param)
    requires Accounted(h, second, at) && p in second
    ensures Accounted(ReturnData(h, p), second - multiset{p}, at)
  {
  }

  // ---- Targeting: every container callback is on the current entry of its key ----

  ghost predicate SameShape(w: World, w': World) {
    && (forall m :: m in w.maps ==> m in w'.maps && w'.maps[m].kind == w.maps[m].kind)
    && (forall f :: f in w.frames ==>
          f in w'.frames && w'.frames[f].origin == w.frames[f].origin && w'.frames[f].kind == w.frames[f].kind)
  }

  // o keeps its cell with the callback it had, or is a handle on a cell without one.
  ghost predicate Retyped(w: World, w': World, o: Owner) {
    var s := Val(w', o);
    s in w'.heap.cells ==>
      || ((o.Var? || o.Elem?) && !MapCell(w'.heap.cells[s]))
      || (s == Val(w, o) && s in w.heap.cells && MapCell(w'.heap.cells[s]) == MapCell(w.heap.cells[s])
          && (MapCell(w.heap.cells[s]) ==> w'.heap.cells[s].param == w.heap.cells[s].param))
  }

  lemma KeepTargeted(w: World, w': World)
    requires Targeted(w) && SameShape(w, w') && forall o :: Retyped(w, w', o)
    ensures Targeted(w')
  {
    forall o ensures Typed(w', o) {
      assert Typed(w, o) && Retyped(w, w', o);
    }
  }

  // The cell `dropped` is gone, the cell `val` is new and strong, the others are as before.
  ghost predicate Renewed(h: Heap, r: Held, dropped: Slot) {
    && r.heap.made == h.made && r.heap.returned == h.returned && 0 !in r.heap.cells
    && (forall t :: t in r.heap.cells ==>
          if t == r.val then r.heap.cells[t].state.Strong? && r.heap.cells[t].param.None?
          else t != dropped && t in h.cells && r.heap.cells[t] == h.cells[t])
    && (forall t :: t in h.cells && t != dropped ==> t in r.heap.cells && t != r.val)
  }

  lemma ResetRenews(h: Heap, val: Slot, local: Option<Address>, other: Slot, s: Slot)
    requires 0 !in h.cells && Free(Reset(h, val).heap, s)
    ensures Renewed(h, Reset(h, val), val)
    ensures Renewed(h, ResetLocal(h, val, local, s), val)
    ensures other == 0 || other in Reset(h, val).heap.cells ==> Renewed(h, ResetPersistent(h, val, other, s), val)
  {
  }

  // A step of x that leaves the other places alone.
  lemma RenewedTargeted(w: World, inv: Owners, w': World, x: nat, r: Held)
    requires Inverse(w, inv) && Targeted(w) && Renewed(w.heap, r, VarVal(w, x))
    requires w'.heap == r.heap && w'.maps == w.maps && w'.vecs == w.vecs && w'.frames == w.frames
    requires forall y :: VarVal(w', y) == if y == x then r.val else VarVal(w, y)
    ensures Targeted(w')
  {
    forall o ensures Retyped(w, w', o) {
      assert o.Var? ==> Val(w', o) == VarVal(w', o.x);
      if o != Var(x) {
        assert Val(w, Var(x)) == VarVal(w, x);
        assert Val(w, o) == Val(w', o);
      }
    }
    KeepTargeted(w, w');
  }

  // Every form of Reset, construction, copy and destruction of a variable, and its result.
  ghost predicate IsVarStep(st: Step) {
    st.ResetVar? || st.FromLocal? || st.FromPersistent? || st.CopyAssign? || st.Destroy? || st.OwnPassOf?
  }

  function VarHeld(w: World, st: Step): Held
    requires IsVarStep(st)
  {
    match st
    case FromLocal(x, local, s) => ResetLocal(w.heap, VarVal(w, x), local, s)
    case FromPersistent(x, y, s) => ResetPersistent(w.heap, VarVal(w, x), Other(w, x, y), s)
    case CopyAssign(x, y, s) => ResetPersistent(w.heap, VarVal(w, x), Other(w, x, y), s)
    case _ => Reset(w.heap, VarVal(w, st.x))
  }

  lemma VarStepFrame(w: World, st: Step)
    requires Enabled(w, st) && IsVarStep(st)
    ensures var w', r := Next(w, st), VarHeld(w, st);
      && w'.heap == r.heap && w'.maps == w.maps && w'.vecs == w.vecs && w'.frames == w.frames
      && w'.second == w.second
      && forall y :: VarVal(w', y) == if y == st.x then r.val else VarVal(w, y)
  {
    hide ResetLocal, ResetPersistent, DisposeGlobal;
  }

  lemma VarStepRenews(w: World, inv: Owners, st: Step)
    requires Inverse(w, inv) && Enabled(w, st) && IsVarStep(st)
    ensures Renewed(w.heap, VarHeld(w, st), VarVal(w, st.x))
  {
    InverseAt(w, inv, Var(st.x));
    hide Renewed, Inverse;
    var h, x := w.heap, st.x;
    match st
    case FromLocal(_, local, s) => ResetRenews(h, VarVal(w, x), local, 0, s);
    case FromPersistent(_, y, s) => CopyRenews(w, inv, x, y, s);
    case CopyAssign(_, y, s) => CopyRenews(w, inv, x, y, s);
    case _ => DropRenews(h, VarVal(w, x));
  }

  lemma DropRenews(h: Heap, val: Slot)
    requires 0 !in h.cells
    ensures Renewed(h, Reset(h, val), val)
  {
  }

  lemma CopyRenews(w: World, inv: Owners, x: nat, y: nat, s: Slot)
    requires Inverse(w, inv) && Free(Reset(w.heap, VarVal(w, x)).heap, s)
    ensures Renewed(w.heap, ResetPersistent(w.heap, VarVal(w, x), Other(w, x, y), s), VarVal(w, x))
  {
    assert Val(w, Var(x)) == VarVal(w, x) && Val(w, Var(y)) == VarVal(w, y);
    ResetRenews(w.heap, VarVal(w, x), None, Other(w, x, y), s);
  }

  // Steps on handle variables.
  lemma VarStepTargeted(w: World, inv: Owners, st: Step)
    requires Inverse(w, inv) && Targeted(w) && Enabled(w, st)
    requires IsVarStep(st)
    ensures Targeted(Next(w, st))
  {
    hide Inverse, Targeted, Renewed, Next, VarHeld;
    VarStepFrame(w, st);
    VarStepRenews(w, inv, st);
    RenewedTargeted(w, inv, Next(w, st), st.x, VarHeld(w, st));
  }

  lemma FlagStepTargeted(w: World, inv: Owners, st: Step)
    requires Inverse(w, inv) && Targeted(w) && Enabled(w, st)
    requires st.SetWeak? || st.ClearVarWeak?
    ensures Targeted(Next(w, st))
  {
    assert Typed(w, Var(st.x));
    var w' := Next(w, st);
    forall o ensures Typed(w', o) {
      assert Typed(w, o) && Val(w', o) == Val(w, o);
    }
  }

  // One handle's pointer moves to `to`.
  ghost predicate Moved(w: World, w': World, from: Owner, to: Owner) {
    SameShape(w, w') && forall q :: Val(w', q) == if q == to then Val(w, from) else if q == from then 0 else Val(w, q)
  }

  // The pointer of one handle moves to another; the latter's old cell may go.
  lemma HandleMoved(w: World, w': World, from: Owner, to: Owner)
    requires Targeted(w) && Moved(w, w', from, to) && from.Var? && (to.Var? || to.Elem?) && from != to
    requires forall s :: s in w'.heap.cells ==> s in w.heap.cells && w'.heap.cells[s] == w.heap.cells[s]
    requires 0 !in w'.heap.cells
    ensures Targeted(w')
  {
    forall o ensures Typed(w', o) {
      assert Typed(w, o) && Typed(w, from);
      assert Val(w', o) == if o == to then Val(w, from) else if o == from then 0 else Val(w, o);
    }
  }

  lemma MoveStepTargeted(w: World, inv: Owners, st: Step)
    requires Inverse(w, inv) && Targeted(w) && Enabled(w, st)
    requires st.MoveAssign? || st.Append?
    ensures Targeted(Next(w, st))
  {
    InverseAt(w, inv, Var(st.x));
    hide Inverse, Targeted;
    if st.Append? {
      AppendFrame(w, st);
      hide Next, Enabled, Val;
      HandleMoved(w, Next(w, st), Var(st.x), Elem(st.v, st.index));
    } else if st.x != st.y {
      MoveAssignFrame(w, st);
      hide Next, Enabled, Val;
      HandleMoved(w, Next(w, st), Var(st.y), Var(st.x));
    }
  }

  lemma AppendFrame(w: World, st: Step)
    requires Enabled(w, st) && st.Append?
    ensures var w' := Next(w, st);
      && w'.heap == w.heap && Moved(w, w', Var(st.x), Elem(st.v, st.index))
  {
  }

  lemma MoveAssignFrame(w: World, st: Step)
    requires Enabled(w, st) && st.MoveAssign? && st.x != st.y && 0 !in w.heap.cells
    ensures var w' := Next(w, st);
      && 0 !in w'.heap.cells && Moved(w, w', Var(st.y), Var(st.x))
      && forall s :: s in w'.heap.cells ==> s in w.heap.cells && w'.heap.cells[s] == w.heap.cells[s]
  {
  }

  lemma SameCellsTargeted(w: World, w': World)
    requires Targeted(w) && w'.vars == w.vars && w'.maps == w.maps && w'.vecs == w.vecs && w'.frames == w.frames
    requires SameCallbacks(w.heap, w'.heap)
    ensures Targeted(w')
  {
    forall o ensures Typed(w', o) {
      assert Typed(w, o) && Val(w', o) == Val(w, o);
    }
  }

  lemma GcStepTargeted(w: World, st: Step)
    requires Targeted(w) && Enabled(w, st)
    requires st.GcMove? || st.GcKill? || st.SecondPassOf?
    ensures Targeted(Next(w, st))
  {
    hide Targeted;
    GcKeepsCallbacks(w, st);
    hide Enabled, Next, SameCallbacks;
    SameCellsTargeted(w, Next(w, st));
  }

  lemma GcKeepsCallbacks(w: World, st: Step)
    requires Enabled(w, st) && (st.GcMove? || st.GcKill? || st.SecondPassOf?)
    ensures var w' := Next(w, st);
      && w'.vars == w.vars && w'.maps == w.maps && w'.vecs == w.vecs && w'.frames == w.frames
      && SameCallbacks(w.heap, w'.heap)
  {
    hide Relocate, Kill, SameCallbacks;
    match st
    case GcMove(reloc) => RelocateKeepsCallbacks(w.heap, reloc);
    case GcKill(dying) => KillKeepsCallbacks(w.heap, dying);
    case SecondPassOf(p) => ReturnKeepsCallbacks(w.heap, p);
  }

  lemma RelocateKeepsCallbacks(h: Heap, reloc: map<Address, Address>)
    requires forall s :: s in h.cells ==> h.cells[s].referent in reloc
    ensures SameCallbacks(h, Relocate(h, reloc))
  {
  }

  lemma ReturnKeepsCallbacks(h: Heap, p: Param)
    ensures SameCallbacks(h, ReturnData(h, p))
  {
  }

  ghost predicate SameCallbacks(h: Heap, h': Heap) {
    && h'.cells.Keys == h.cells.Keys
    && forall s :: s in h.cells ==> MapCell(h'.cells[s]) == MapCell(h.cells[s]) && h'.cells[s].param == h.cells[s].param
  }

  lemma KillKeepsCallbacks(h: Heap, dying: set<Slot>)
    requires forall s :: s in dying ==> IsWeak(h, s)
    ensures SameCallbacks(h, Kill(h, dying))
  {
  }

  // Outside the slots in `changed` the cells of the two heaps are the same.
  ghost predicate SameOutside(h: Heap, h': Heap, changed: set<Slot>) {
    forall t :: t !in changed ==> (t in h'.cells <==> t in h.cells) && (t in h.cells ==> h'.cells[t] == h.cells[t])
  }

  // A released handle carries no container callback any more.
  lemma ReleaseEffect(h: Heap, kind: Kind, m: nat, k: Key, v: Slot)
    requires v in h.cells ==> Labelled(h.cells[v], kind, m, k) && !h.cells[v].state.NearDeath?
    ensures Release(h, !kind.Plain?, v).val == v
    ensures var h' := Release(h, !kind.Plain?, v).heap;
      h'.cells.Keys == h.cells.Keys && SameOutside(h, h', {v}) && (v in h'.cells && v != 0 ==> !MapCell(h'.cells[v]))
  {
  }

  lemma SetUniqueEffect(h: Heap, kind: Kind, impl: map<Key, Slot>, m: nat, k: Key, v: Slot, serial: nat)
    requires v in h.cells && !MapCell(h.cells[v]) && v != Lookup(impl, k) && 0 !in h.cells
    requires var d := Lookup(impl, k); d in h.cells ==> Labelled(h.cells[d], kind, m, k) && !h.cells[d].state.NearDeath?
    ensures var t := SetUnique(h, kind, impl, k, v, MapMade(m, k, serial));
      t.impl == impl[k := v] && t.val == Lookup(impl, k)
    ensures var h', d := SetUnique(h, kind, impl, k, v, MapMade(m, k, serial)).heap, Lookup(impl, k);
      && h'.cells.Keys == h.cells.Keys && SameOutside(h, h', {v, d})
      && v in h'.cells && Labelled(h'.cells[v], kind, m, k)
      && (d in h'.cells ==> !MapCell(h'.cells[d]))
  {
    ReleaseEffect(Annotate(h, kind, v, MapMade(m, k, serial)), kind, m, k, Lookup(impl, k));
  }

  lemma {:induction false} DisposeWordsEffect(h: Heap, words: seq<Slot>)
    ensures var h' := DisposeWords(h, words);
      && h'.made == h.made && h'.returned == h.returned
      && (forall t :: t in h'.cells ==> t in h.cells && h'.cells[t] == h.cells[t])
      && (forall t :: t in h.cells && t !in words ==> t in h'.cells)
    decreases |words|
  {
    if words != [] { DisposeWordsEffect(Reset(h, words[0]).heap, words[1..]); }
  }

  lemma FirstPassEffect(h: Heap, kind: Kind, impl: map<Key, Slot>, k: Key, p: Param)
    requires var v := Lookup(impl, k); v != 0 && v in h.cells && h.cells[v].state.NearDeath?
    ensures FirstPass(h, kind, impl, k, p).impl == impl - {k}
    ensures var h', v := FirstPass(h, kind, impl, k, p).heap, Lookup(impl, k);
      SameOutside(h, h', {v}) && v !in h'.cells
  {
  }

  // An entry becomes a handle, released on the way.
  lemma EntryToHandleTargeted(w: World, inv: Owners, w': World, from: Owner, to: Owner)
    requires Inverse(w, inv) && Targeted(w) && Moved(w, w', from, to) && from != to
    requires to.Var? || to.Elem?
    requires SameOutside(w.heap, w'.heap, {Val(w, from)}) && 0 !in w'.heap.cells
    requires Val(w, from) in w'.heap.cells && Val(w, from) != 0 ==> !MapCell(w'.heap.cells[Val(w, from)])
    ensures Targeted(w')
  {
    forall o ensures Retyped(w, w', o) {
      assert Val(w', o) == if o == to then Val(w, from) else if o == from then 0 else Val(w, o);
    }
    KeepTargeted(w, w');
  }

  // The handle at `from` becomes the entry of key k, the displaced one the handle at `to`.
  ghost function Replaced(w: World, m: nat, k: Key, from: Owner, to: Owner, q: Owner): Slot {
    if q == Entry(m, k) then Val(w, from) else if q == from then 0
    else if q == to then Val(w, Entry(m, k)) else Val(w, q)
  }

  lemma ReplaceTargeted(w: World, inv: Owners, w': World, m: nat, k: Key, from: Owner, to: Owner)
    requires Inverse(w, inv) && Targeted(w) && SameShape(w, w') && m in w.maps
    requires from.Var? && to.Var? && from != to
    requires forall q :: Val(w', q) == Replaced(w, m, k, from, to, q)
    requires var v, d := Val(w, from), Val(w, Entry(m, k));
      && SameOutside(w.heap, w'.heap, {v, d})
      && (v in w'.heap.cells ==> Labelled(w'.heap.cells[v], w.maps[m].kind, m, k))
      && (d in w'.heap.cells ==> !MapCell(w'.heap.cells[d]))
      && 0 !in w'.heap.cells
    ensures Targeted(w')
  {
    hide Inverse;
    forall o ensures Typed(w', o) {
      assert Typed(w, o) && Val(w', o) == Replaced(w, m, k, from, to, o);
      InverseDistinct(w, inv, o, from);
      InverseDistinct(w, inv, o, Entry(m, k));
    }
  }

  lemma MapSetFrame(w: World, m: nat, k: Key, x: nat, serial: nat, r: nat)
    requires Enabled(w, MapSet(m, k, x, serial, r))
    ensures var w' := Next(w, MapSet(m, k, x, serial, r));
      && w'.heap == SetUnique(w.heap, w.maps[m].kind, w.maps[m].impl, k, Val(w, Var(x)), MapMade(m, k, serial)).heap
      && SameShape(w, w')
      && forall q :: Val(w', q) == Replaced(w, m, k, Var(x), Var(r), q)
  {
    hide SetUnique;
    SetUniqueShape(w.heap, w.maps[m].kind, w.maps[m].impl, k, VarVal(w, x), MapMade(m, k, serial));
  }

  lemma MapSetTargeted(w: World, inv: Owners, m: nat, k: Key, x: nat, serial: nat, r: nat)
    requires Inverse(w, inv) && Targeted(w) && PendingOk(w) && Enabled(w, MapSet(m, k, x, serial, r))
    ensures Targeted(Next(w, MapSet(m, k, x, serial, r)))
  {
    hide Next, SetUnique;
    var v, d := Val(w, Var(x)), Val(w, Entry(m, k));
    assert Typed(w, Var(x)) && Typed(w, Entry(m, k)) && v != d;
    SetUniqueEffect(w.heap, w.maps[m].kind, w.maps[m].impl, m, k, v, serial);
    MapSetFrame(w, m, k, x, serial, r);
    ReplaceTargeted(w, inv, Next(w, MapSet(m, k, x, serial, r)), m, k, Var(x), Var(r));
  }

  lemma MapRemoveFrame(w: World, m: nat, k: Key, r: nat)
    requires Enabled(w, MapRemove(m, k, r))
    ensures var w' := Next(w, MapRemove(m, k, r));
      && w'.heap == Release(w.heap, !w.maps[m].kind.Plain?, Val(w, Entry(m, k))).heap
      && Moved(w, w', Entry(m, k), Var(r))
  {
    hide Release;
    var v, w' := Lookup(w.maps[m].impl, k), Next(w, MapRemove(m, k, r));
    ReleaseKeys(w.heap, !w.maps[m].kind.Plain?, v);
    assert w'.vars == w.vars[r := v] && w'.vecs == w.vecs && w'.frames == w.frames;
    assert w'.maps == w.maps[m := w.maps[m].(impl := w.maps[m].impl - {k})];
    assert w'.heap == Release(w.heap, !w.maps[m].kind.Plain?, v).heap && Val(w, Entry(m, k)) == v;
    assert VarVal(w, r) == 0;
    hide Next, Enabled;
    EntryToVar(w, w', m, k, r);
  }

  lemma EntryToVar(w: World, w': World, m: nat, k: Key, r: nat)
    requires m in w.maps && VarVal(w, r) == 0 && w'.vars == w.vars[r := Lookup(w.maps[m].impl, k)]
    requires w'.maps == w.maps[m := w.maps[m].(impl := w.maps[m].impl - {k})]
    requires w'.vecs == w.vecs && w'.frames == w.frames
    ensures Moved(w, w', Entry(m, k), Var(r))
  {
  }

  lemma HandOutFrame(w: World, f: nat, k: Key, r: nat)
    requires Enabled(w, HandOut(f, k, r))
    ensures var w' := Next(w, HandOut(f, k, r));
      && w'.heap == Release(w.heap, !w.frames[f].kind.Plain?, Val(w, Swapped(f, k))).heap
      && Moved(w, w', Swapped(f, k), Var(r))
  {
    hide Release;
    var v, w' := w.frames[f].rest[k], Next(w, HandOut(f, k, r));
    ReleaseKeys(w.heap, !w.frames[f].kind.Plain?, v);
    assert w'.vars == w.vars[r := v] && w'.maps == w.maps && w'.vecs == w.vecs;
    assert w'.frames == w.frames[f := w.frames[f].(rest := w.frames[f].rest - {k})];
    assert w'.heap == Release(w.heap, !w.frames[f].kind.Plain?, v).heap && Val(w, Swapped(f, k)) == v;
    assert VarVal(w, r) == 0 && k in w.frames[f].rest;
    hide Next, Enabled;
    SwappedToVar(w, w', f, k, r);
  }

  lemma SwappedToVar(w: World, w': World, f: nat, k: Key, r: nat)
    requires f in w.frames && k in w.frames[f].rest && VarVal(w, r) == 0
    requires w'.vars == w.vars[r := w.frames[f].rest[k]] && w'.maps == w.maps && w'.vecs == w.vecs
    requires w'.frames == w.frames[f := w.frames[f].(rest := w.frames[f].rest - {k})]
    ensures Moved(w, w', Swapped(f, k), Var(r))
  {
  }

  lemma MapRemoveTargeted(w: World, inv: Owners, m: nat, k: Key, r: nat)
    requires Inverse(w, inv) && Targeted(w) && PendingOk(w) && Enabled(w, MapRemove(m, k, r))
    ensures Targeted(Next(w, MapRemove(m, k, r)))
  {
    hide Inverse, Release, Next, Moved;
    InverseAt(w, inv, Entry(m, k));
    assert Typed(w, Entry(m, k));
    ReleaseEffect(w.heap, w.maps[m].kind, m, k, Val(w, Entry(m, k)));
    MapRemoveFrame(w, m, k, r);
    EntryToHandleTargeted(w, inv, Next(w, MapRemove(m, k, r)), Entry(m, k), Var(r));
  }

  lemma HandOutTargeted(w: World, inv: Owners, f: nat, k: Key, r: nat)
    requires Inverse(w, inv) && Targeted(w) && PendingOk(w) && Enabled(w, HandOut(f, k, r))
    ensures Targeted(Next(w, HandOut(f, k, r)))
  {
    hide Inverse, Release, Next, Moved;
    InverseAt(w, inv, Swapped(f, k));
    assert Typed(w, Swapped(f, k));
    ReleaseEffect(w.heap, w.frames[f].kind, w.frames[f].origin, k, Val(w, Swapped(f, k)));
    HandOutFrame(w, f, k, r);
    EntryToHandleTargeted(w, inv, Next(w, HandOut(f, k, r)), Swapped(f, k), Var(r));
  }

  lemma SwapOutTargeted(w: World, inv: Owners, m: nat, f: nat)
    requires Inverse(w, inv) && Targeted(w) && Enabled(w, SwapOut(m, f))
    ensures Targeted(Next(w, SwapOut(m, f)))
  {
    var w' := Next(w, SwapOut(m, f));
    forall o ensures Typed(w', o) {
      assert Typed(w, if o.Swapped? && o.f == f then Entry(m, o.key) else o);
    }
  }

  lemma VectorClearTargeted(w: World, inv: Owners, v: nat)
    requires Inverse(w, inv) && Targeted(w) && Enabled(w, VectorClear(v))
    ensures Targeted(Next(w, VectorClear(v)))
  {
    DisposeWordsEffect(w.heap, w.vecs[v]);
    var w' := Next(w, VectorClear(v));
    forall o ensures Typed(w', o) {
      assert Typed(w, o);
    }
  }

  // The entry a first pass finds at its key is the dying cell itself.
  lemma FirstPassHits(w: World, inv: Owners, s: Slot, m: nat, k: Key, serial: nat)
    requires Inverse(w, inv) && Targeted(w) && PendingOk(w) && Enabled(w, FirstPassOf(s, m, k, serial))
    ensures Val(w, Entry(m, k)) == s && !w.maps[m].kind.Plain? && k in w.maps[m].impl
    ensures w.heap.cells[s].state.NearDeath? && MapCell(w.heap.cells[s])
  {
    assert Typed(w, inv[s]);
  }

  // An owner's cell is disposed of and the owner emptied.
  lemma DroppedTargeted(w: World, w': World, o: Owner)
    requires Targeted(w) && SameShape(w, w')
    requires forall q :: Val(w', q) == if q == o then 0 else Val(w, q)
    requires SameOutside(w.heap, w'.heap, {Val(w, o)}) && Val(w, o) !in w'.heap.cells && 0 !in w'.heap.cells
    ensures Targeted(w')
  {
    forall q ensures Typed(w', q) {
      assert Typed(w, q) && Val(w', q) == if q == o then 0 else Val(w, q);
    }
  }

  lemma FirstPassFrame(w: World, s: Slot, m: nat, k: Key, serial: nat)
    requires Enabled(w, FirstPassOf(s, m, k, serial))
    ensures var w' := Next(w, FirstPassOf(s, m, k, serial));
      && w'.heap == FirstPass(w.heap, w.maps[m].kind, w.maps[m].impl, k, MapMade(m, k, serial)).heap
      && SameShape(w, w') && w'.pending == w.pending - {s} && w'.frames == w.frames && w'.vars == w.vars
      && forall q :: Val(w', q) == if q == Entry(m, k) then 0 else Val(w, q)
  {
    hide FirstPass;
    var w' := Next(w, FirstPassOf(s, m, k, serial));
    FirstPassKeys(w.heap, w.maps[m].kind, w.maps[m].impl, k, MapMade(m, k, serial));
    assert w'.maps == w.maps[m := w.maps[m].(impl := w.maps[m].impl - {k})];
    assert w'.vars == w.vars && w'.vecs == w.vecs && w'.frames == w.frames && w'.pending == w.pending - {s};
    assert w'.heap == FirstPass(w.heap, w.maps[m].kind, w.maps[m].impl, k, MapMade(m, k, serial)).heap;
    hide Next, Enabled;
    EntryGone(w, w', m, k);
  }

  lemma EntryGone(w: World, w': World, m: nat, k: Key)
    requires m in w.maps && w'.maps == w.maps[m := w.maps[m].(impl := w.maps[m].impl - {k})]
    requires w'.vars == w.vars && w'.vecs == w.vecs && w'.frames == w.frames
    ensures SameShape(w, w') && forall q :: Val(w', q) == if q == Entry(m, k) then 0 else Val(w, q)
  {
  }

  lemma FirstPassTargeted(w: World, inv: Owners, s: Slot, m: nat, k: Key, serial: nat)
    requires Inverse(w, inv) && Targeted(w) && PendingOk(w) && Enabled(w, FirstPassOf(s, m, k, serial))
    ensures Targeted(Next(w, FirstPassOf(s, m, k, serial)))
  {
    hide FirstPass, Inverse, Targeted, PendingOk, Next;
    InverseAt(w, inv, Entry(m, k));
    FirstPassHits(w, inv, s, m, k, serial);
    FirstPassEffect(w.heap, w.maps[m].kind, w.maps[m].impl, k, MapMade(m, k, serial));
    FirstPassFrame(w, s, m, k, serial);
    DroppedTargeted(w, Next(w, FirstPassOf(s, m, k, serial)), Entry(m, k));
  }

  // ---- Pending first passes ----

  // No first pass is due, and strong cells carry no parameter.
  ghost predicate Calm(h: Heap) {
    forall s :: s in h.cells ==> !h.cells[s].state.NearDeath? && (h.cells[s].state.Strong? ==> h.cells[s].param.None?)
  }

  lemma PendingCalm(w: World)
    requires w.pending == {}
    ensures PendingOk(w) <==> Calm(w.heap)
  {
  }

  lemma ResetCalm(h: Heap, val: Slot, local: Option<Address>, other: Slot, s: Slot)
    requires Calm(h)
    ensures Calm(Reset(h, val).heap)
    ensures Calm(ResetLocal(h, val, local, s).heap)
    ensures Calm(ResetPersistent(h, val, other, s).heap)
  {
  }

  lemma ReleaseCalm(h: Heap, kind: Kind, v: Slot)
    requires Calm(h)
    ensures Calm(Release(h, !kind.Plain?, v).heap)
  {
  }

  lemma SetUniqueCalm(h: Heap, kind: Kind, impl: map<Key, Slot>, k: Key, v: Slot, p: Param)
    requires Calm(h)
    ensures Calm(SetUnique(h, kind, impl, k, v, p).heap)
  {
    assert Calm(Annotate(h, kind, v, p));
    hide Calm, Annotate, Release;
    ReleaseCalm(Annotate(h, kind, v, p), kind, Lookup(impl, k));
  }

  lemma DisposeWordsCalm(h: Heap, words: seq<Slot>)
    requires Calm(h)
    ensures Calm(DisposeWords(h, words))
  {
    DisposeWordsEffect(h, words);
  }

  lemma FlagsCalm(w: World, st: Step)
    requires Calm(w.heap) && Enabled(w, st) && (st.SetWeak? || st.ClearVarWeak? || st.GcMove?)
    ensures Calm(Next(w, st).heap)
  {
  }

  lemma MutatorPending(w: World, st: Step)
    requires PendingOk(w) && Enabled(w, st) && !st.GcKill? && !st.FirstPassOf? && !st.OwnPassOf?
    ensures PendingOk(Next(w, st))
  {
    hide PendingOk, Calm, Release, SetUnique, Reset, ResetLocal, ResetPersistent, DisposeWords;
    var h := w.heap;
    PendingCalm(w);
    PendingCalm(Next(w, st));
    match st
    case ResetVar(x) => ResetCalm(h, VarVal(w, x), None, 0, 0);
    case FromLocal(x, local, s) => ResetCalm(h, VarVal(w, x), local, 0, s);
    case FromPersistent(x, y, s) => ResetCalm(h, VarVal(w, x), None, Other(w, x, y), s);
    case CopyAssign(x, y, s) => ResetCalm(h, VarVal(w, x), None, Other(w, x, y), s);
    case MoveAssign(x, y) => ResetCalm(h, VarVal(w, x), None, 0, 0);
    case Destroy(x) => ResetCalm(h, VarVal(w, x), None, 0, 0);
    case SetWeak(_, _) => FlagsCalm(w, st);
    case ClearVarWeak(_) => FlagsCalm(w, st);
    case MapSet(m, k, x, serial, r) =>
      SetUniqueCalm(h, w.maps[m].kind, w.maps[m].impl, k, VarVal(w, x), MapMade(m, k, serial));
    case MapRemove(m, k, r) => ReleaseCalm(h, w.maps[m].kind, Lookup(w.maps[m].impl, k));
    case SwapOut(_, _) =>
    case HandOut(f, k, r) => ReleaseCalm(h, w.frames[f].kind, w.frames[f].rest[k]);
    case Append(_, _, _) =>
    case VectorClear(v) => DisposeWordsCalm(h, w.vecs[v]);
    case GcMove(_) => FlagsCalm(w, st);
    case SecondPassOf(p) => assert Calm(ReturnData(h, p)) by { SecondPassCalm(h, p); }
  }

  lemma SecondPassCalm(h: Heap, p: Param)
    requires Calm(h)
    ensures Calm(ReturnData(h, p))
  {
  }

  lemma KillPending(w: World, dying: set<Slot>)
    requires PendingOk(w) && Enabled(w, GcKill(dying))
    ensures PendingOk(Next(w, GcKill(dying)))
  {
    hide HeldByVar;
    SameHolders(w, Next(w, GcKill(dying)));
  }

  lemma SameHolders(w: World, w': World)
    requires w'.vars == w.vars
    ensures forall s :: HeldByVar(w, s) <==> HeldByVar(w', s)
  {
    assert forall x :: VarVal(w', x) == VarVal(w, x);
  }

  lemma OwnPassPending(w: World, inv: Owners, x: nat)
    requires Inverse(w, inv) && PendingOk(w) && Enabled(w, OwnPassOf(x))
    ensures PendingOk(Next(w, OwnPassOf(x)))
  {
    InverseAt(w, inv, Var(x));
    hide Inverse;
    var w' := Next(w, OwnPassOf(x));
    forall s | HeldByVar(w, s) && s != VarVal(w, x) ensures HeldByVar(w', s) {
      var y :| VarVal(w, y) == s;
      assert VarVal(w', y) == s;
    }
    hide HeldByVar;
  }

  lemma FirstPassPending(w: World, inv: Owners, s: Slot, m: nat, k: Key, serial: nat)
    requires Inverse(w, inv) && Targeted(w) && PendingOk(w) && Enabled(w, FirstPassOf(s, m, k, serial))
    ensures PendingOk(Next(w, FirstPassOf(s, m, k, serial)))
  {
    hide FirstPass, Inverse, Targeted, Next, HeldByVar;
    InverseAt(w, inv, Entry(m, k));
    FirstPassHits(w, inv, s, m, k, serial);
    FirstPassEffect(w.heap, w.maps[m].kind, w.maps[m].impl, k, MapMade(m, k, serial));
    FirstPassFrame(w, s, m, k, serial);
    SameHolders(w, Next(w, FirstPassOf(s, m, k, serial)));
  }

  // ---- Accounting over steps ----

  lemma RenewedSame(w: World, inv: Owners, x: nat, r: Held)
    requires Inverse(w, inv) && Targeted(w) && Renewed(w.heap, r, VarVal(w, x))
    ensures SameMapCells(w.heap, r.heap)
  {
    assert Typed(w, Var(x));
  }

  lemma VarStepSame(w: World, inv: Owners, st: Step)
    requires Inverse(w, inv) && Targeted(w) && Enabled(w, st)
    requires IsVarStep(st)
    ensures SameMapCells(w.heap, Next(w, st).heap) && Next(w, st).second == w.second
  {
    hide Inverse, Targeted, Renewed, Next, VarHeld;
    VarStepFrame(w, st);
    VarStepRenews(w, inv, st);
    RenewedSame(w, inv, st.x, VarHeld(w, st));
  }

  lemma FlagStepSame(w: World, inv: Owners, st: Step)
    requires Inverse(w, inv) && Targeted(w) && Enabled(w, st)
    requires st.SetWeak? || st.ClearVarWeak? || st.MoveAssign? || st.Append?
    ensures SameMapCells(w.heap, Next(w, st).heap)
  {
    if st.MoveAssign? { ResetOwnSame(w, inv, st.x); }
    if st.SetWeak? || st.ClearVarWeak? { OwnFlagSame(w, inv, st); }
    hide Inverse, Targeted, MakeWeak, ClearWeak, Reset;
    if st.Append? || (st.MoveAssign? && st.x == st.y) { assert Next(w, st).heap == w.heap; }
  }

  lemma OwnFlagSame(w: World, inv: Owners, st: Step)
    requires Inverse(w, inv) && Targeted(w) && Enabled(w, st) && (st.SetWeak? || st.ClearVarWeak?)
    ensures SameMapCells(w.heap, Next(w, st).heap)
  {
    assert Typed(w, Var(st.x));
    InverseAt(w, inv, Var(st.x));
    hide Inverse, Targeted;
  }

  lemma ResetOwnSame(w: World, inv: Owners, x: nat)
    requires Inverse(w, inv) && Targeted(w)
    ensures SameMapCells(w.heap, Reset(w.heap, VarVal(w, x)).heap)
  {
    assert Typed(w, Var(x));
  }

  lemma VectorClearSame(w: World, v: nat)
    requires Targeted(w) && Enabled(w, VectorClear(v))
    ensures SameMapCells(w.heap, Next(w, VectorClear(v)).heap)
  {
    var words := w.vecs[v];
    DisposeWordsEffect(w.heap, words);
    forall s | s in w.heap.cells && s in words ensures !MapCell(w.heap.cells[s]) {
      var i :| 0 <= i < |words| && words[i] == s;
      assert Typed(w, Elem(v, i));
    }
  }

  lemma StepAccounted(w: World, inv: Owners, at: map<Param, Slot>, st: Step) returns (at': map<Param, Slot>)
    requires Inv(w, inv, at) && Enabled(w, st)
    ensures Accounted(Next(w, st).heap, Next(w, st).second, at')
  {
    hide Inverse, Targeted, PendingOk, Accounted, SameMapCells;
    var h, second, w' := w.heap, w.second, Next(w, st);
    at' := at;
    match st
    case ResetVar(_) => VarStepSame(w, inv, st); AccountedSame(h, w'.heap, second, at);
    case FromLocal(_, _, _) => VarStepSame(w, inv, st); AccountedSame(h, w'.heap, second, at);
    case FromPersistent(_, _, _) => VarStepSame(w, inv, st); AccountedSame(h, w'.heap, second, at);
    case CopyAssign(_, _, _) => VarStepSame(w, inv, st); AccountedSame(h, w'.heap, second, at);
    case Destroy(_) => VarStepSame(w, inv, st); AccountedSame(h, w'.heap, second, at);
    case OwnPassOf(_) => VarStepSame(w, inv, st); AccountedSame(h, w'.heap, second, at);
    case SetWeak(_, _) => FlagStepSame(w, inv, st); AccountedSame(h, w'.heap, second, at);
    case ClearVarWeak(_) => FlagStepSame(w, inv, st); AccountedSame(h, w'.heap, second, at);
    case MoveAssign(_, _) => FlagStepSame(w, inv, st); AccountedSame(h, w'.heap, second, at);
    case Append(_, _, _) =>
    case VectorClear(v) => VectorClearSame(w, v); AccountedSame(h, w'.heap, second, at);
    case MapSet(m, k, x, serial, r) => at' := MapSetAccounted(w, inv, at, m, k, x, serial, r);
    case MapRemove(m, k, r) => at' := MapRemoveAccounted(w, inv, at, m, k, r);
    case HandOut(f, k, r) => at' := HandOutAccounted(w, inv, at, f, k, r);
    case SwapOut(_, _) =>
    case GcMove(_) => GcSame(w, st); AccountedSame(h, w'.heap, second, at);
    case GcKill(_) => GcSame(w, st); AccountedSame(h, w'.heap, second, at);
    case FirstPassOf(s, m, k, serial) => at' := FirstPassAccounted(w, inv, at, s, m, k, serial);
    case SecondPassOf(p) => AccountedSecondPass(h, second, at, p);
  }

  lemma GcSame(w: World, st: Step)
    requires Enabled(w, st) && (st.GcMove? || st.GcKill?)
    ensures SameMapCells(w.heap, Next(w, st).heap)
  {
  }

  lemma MapSetAccounted(w: World, inv: Owners, at: map<Param, Slot>, m: nat, k: Key, x: nat, serial: nat, r: nat)
    returns (at': map<Param, Slot>)
    requires Inv(w, inv, at) && Enabled(w, MapSet(m, k, x, serial, r))
    ensures Accounted(Next(w, MapSet(m, k, x, serial, r)).heap, w.second, at')
  {
    hide Accounted;
    var v, d, kind, p := Val(w, Var(x)), Val(w, Entry(m, k)), w.maps[m].kind, MapMade(m, k, serial);
    assert Typed(w, Var(x)) && Typed(w, Entry(m, k)) && v != d;
    at' := AccountedAnnotate(w.heap, w.second, at, kind, v, p);
    at' := AccountedRelease(Annotate(w.heap, kind, v, p), w.second, at', kind, m, k, d);
  }

  lemma MapRemoveAccounted(w: World, inv: Owners, at: map<Param, Slot>, m: nat, k: Key, r: nat)
    returns (at': map<Param, Slot>)
    requires Inv(w, inv, at) && Enabled(w, MapRemove(m, k, r))
    ensures Accounted(Next(w, MapRemove(m, k, r)).heap, w.second, at')
  {
    hide Accounted;
    assert Typed(w, Entry(m, k));
    at' := AccountedRelease(w.heap, w.second, at, w.maps[m].kind, m, k, Val(w, Entry(m, k)));
  }

  lemma HandOutAccounted(w: World, inv: Owners, at: map<Param, Slot>, f: nat, k: Key, r: nat)
    returns (at': map<Param, Slot>)
    requires Inv(w, inv, at) && Enabled(w, HandOut(f, k, r))
    ensures Accounted(Next(w, HandOut(f, k, r)).heap, w.second, at')
  {
    hide Accounted;
    assert Typed(w, Swapped(f, k));
    at' := AccountedRelease(w.heap, w.second, at, w.frames[f].kind, w.frames[f].origin, k, Val(w, Swapped(f, k)));
  }

  lemma FirstPassAccounted(w: World, inv: Owners, at: map<Param, Slot>, s: Slot, m: nat, k: Key, serial: nat)
    returns (at': map<Param, Slot>)
    requires Inv(w, inv, at) && Enabled(w, FirstPassOf(s, m, k, serial))
    ensures var w' := Next(w, FirstPassOf(s, m, k, serial)); Accounted(w'.heap, w'.second, at')
  {
    hide Accounted;
    FirstPassHits(w, inv, s, m, k, serial);
    InverseAt(w, inv, Entry(m, k));
    at' := AccountedFirstPass(w.heap, w.second, at, w.maps[m].kind, w.maps[m].impl, k, MapMade(m, k, serial));
  }

  // ---- Every step keeps the whole invariant ----

  lemma StepTargeted(w: World, inv: Owners, st: Step)
    requires Inverse(w, inv) && Targeted(w) && PendingOk(w) && Enabled(w, st)
    ensures Targeted(Next(w, st))
  {
    hide Inverse, Targeted, PendingOk, Next;
    match st
    case ResetVar(_) => VarStepTargeted(w, inv, st);
    case FromLocal(_, _, _) => VarStepTargeted(w, inv, st);
    case FromPersistent(_, _, _) => VarStepTargeted(w, inv, st);
    case CopyAssign(_, _, _) => VarStepTargeted(w, inv, st);
    case Destroy(_) => VarStepTargeted(w, inv, st);
    case OwnPassOf(_) => VarStepTargeted(w, inv, st);
    case SetWeak(_, _) => FlagStepTargeted(w, inv, st);
    case ClearVarWeak(_) => FlagStepTargeted(w, inv, st);
    case MoveAssign(_, _) => MoveStepTargeted(w, inv, st);
    case Append(_, _, _) => MoveStepTargeted(w, inv, st);
    case VectorClear(v) => VectorClearTargeted(w, inv, v);
    case MapSet(m, k, x, serial, r) => MapSetTargeted(w, inv, m, k, x, serial, r);
    case MapRemove(m, k, r) => MapRemoveTargeted(w, inv, m, k, r);
    case HandOut(f, k, r) => HandOutTargeted(w, inv, f, k, r);
    case SwapOut(m, f) => SwapOutTargeted(w, inv, m, f);
    case GcMove(_) => GcStepTargeted(w, st);
    case GcKill(_) => GcStepTargeted(w, st);
    case SecondPassOf(_) => GcStepTargeted(w, st);
    case FirstPassOf(s, m, k, serial) => FirstPassTargeted(w, inv, s, m, k, serial);
  }

  lemma StepInv(w: World, inv: Owners, at: map<Param, Slot>, st: Step)
    returns (inv': Owners, at': map<Param, Slot>)
    requires Inv(w, inv, at) && Enabled(w, st)
    ensures Inv(Next(w, st), inv', at')
  {
    hide Inverse, Targeted, PendingOk, Accounted, Next;
    inv' := StepInverse(w, inv, st);
    at' := StepAccounted(w, inv, at, st);
    StepTargeted(w, inv, st);
    if st.GcKill? {
      KillPending(w, st.dying);
    } else if st.FirstPassOf? {
      FirstPassPending(w, inv, st.s, st.m, st.key, st.serial);
    } else if st.OwnPassOf? {
      OwnPassPending(w, inv, st.x);
    } else {
      MutatorPending(w, st);
    }
  }

  lemma {:induction false} RunInv(w: World, inv: Owners, at: map<Param, Slot>, steps: seq<Step>)
    returns (inv': Owners, at': map<Param, Slot>)
    requires Inv(w, inv, at) && CanRun(w, steps)
    ensures Inv(Run(w, steps), inv', at')
    decreases |steps|
  {
    hide Inv, Enabled, Next;
    if steps == [] {
      inv', at' := inv, at;
    } else {
      inv', at' := StepInv(w, inv, at, steps[0]);
      inv', at' := RunInv(Next(w, steps[0]), inv', at', steps[1..]);
    }
  }
}
