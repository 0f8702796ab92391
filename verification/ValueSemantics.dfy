/**
 The cell heap with its smuggled pointers behaves like plain values: every place
 simply holds an object or nothing. Containers of Globals are plain maps and vectors
 of objects, handle variables are optional objects, and a moving collector renames
 objects everywhere at once.
*/
module ValueSemantics {
  import opened Basics
  import opened Cells
  import opened HandleModel
  import opened ContainerModel
  import opened Ownership
  import opened LinearOwnership
  import opened WeakCallbacks
  import opened RunTheorems

  // The reference machine's state: the object at each place that is not empty.
  type Values = imap<Owner, Address>

  ghost function At(v: Values, o: Owner): Option<Address> {
    if o in v then Some(v[o]) else None
  }

  ghost function Put(v: Values, o: Owner, a: Option<Address>): Values {
    if a.Some? then v[o := a.value] else imap q | q in v && q != o :: v[q]
  }

  ghost function Shift(v: Values, from: Owner, to: Owner): Values {
    Put(Put(v, from, None), to, At(v, from))
  }

  ghost function ValueStep(v: Values, st: Step): Values {
    match st
    case ResetVar(x) => Put(v, Var(x), None)
    case FromLocal(x, local, _) => Put(v, Var(x), local)
    case FromPersistent(x, y, _) => Put(v, Var(x), if x == y then None else At(v, Var(y)))
    case CopyAssign(x, y, _) => Put(v, Var(x), if x == y then None else At(v, Var(y)))
    case MoveAssign(x, y) => if x == y then v else Shift(v, Var(y), Var(x))
    case Destroy(x) => Put(v, Var(x), None)
    case MapSet(m, k, x, _, r) => Put(Shift(v, Var(x), Entry(m, k)), Var(r), At(v, Entry(m, k)))
    case MapRemove(m, k, r) => Shift(v, Entry(m, k), Var(r))
    case SwapOut(m, f) =>
      imap o: Owner | (if o.Swapped? && o.f == f then Entry(m, o.key) in v else o in v && !(o.Entry? && o.m == m)) ::
        if o.Swapped? && o.f == f then v[Entry(m, o.key)] else v[o]
    case HandOut(f, k, r) => Shift(v, Swapped(f, k), Var(r))
    case Append(n, i, x) => Shift(v, Var(x), Elem(n, i))
    case VectorClear(n) => imap o | o in v && !(o.Elem? && o.v == n) :: v[o]
    case GcMove(reloc) => imap o | o in v :: if v[o] in reloc then reloc[v[o]] else v[o]
    case OwnPassOf(x) => Put(v, Var(x), None)
    case FirstPassOf(_, m, k, _) => Put(v, Entry(m, k), None)
    case _ => v
  }

  // What the place o refers to through its cell.
  ghost function ObjectAt(w: World, o: Owner): Option<Address> {
    ObjectOf(w.heap, Val(w, o))
  }

  ghost function Abs(w: World): Values {
    imap o: Owner | ObjectAt(w, o).Some? :: ObjectAt(w, o).value
  }

  lemma AbsAt(w: World)
    ensures forall o :: At(Abs(w), o) == ObjectAt(w, o)
  {
  }

  lemma PutAt(v: Values, o: Owner, a: Option<Address>)
    ensures forall q :: At(Put(v, o, a), q) == if q == o then a else At(v, q)
  {
  }

  lemma ShiftAt(v: Values, from: Owner, to: Owner)
    requires from != to
    ensures forall q :: (
      At(Shift(v, from, to), q) == if q == to then At(v, from) else if q == from then None else At(v, q))
  {
    PutAt(v, from, None);
    PutAt(Put(v, from, None), to, At(v, from));
  }

  lemma SameValues(v: Values, v': Values)
    requires forall o :: At(v, o) == At(v', o)
    ensures v == v'
  {
    forall o ensures o in v <==> o in v' {
      assert At(v, o) == At(v', o);
    }
    forall o | o in v ensures v[o] == v'[o] {
      assert At(v, o) == At(v', o);
    }
  }

  // Cells outside `changed` are there or not as before, and refer to the same objects.
  ghost predicate SameReferents(h: Heap, h': Heap, changed: set<Slot>) {
    forall s :: s !in changed ==> ObjectOf(h', s) == ObjectOf(h, s)
  }

  // A step that changes what one place holds.
  lemma PutValues(w: World, inv: Owners, w': World, inv': Owners, x: Owner, a: Option<Address>)
    requires Inverse(w, inv) && Inverse(w', inv')
    requires forall o :: o != x ==> Val(w', o) == Val(w, o)
    requires SameReferents(w.heap, w'.heap, {Val(w, x), Val(w', x)}) && ObjectAt(w', x) == a
    ensures Abs(w') == Put(Abs(w), x, a)
  {
    hide Inverse, Abs, Put, At, Val;
    AbsAt(w);
    AbsAt(w');
    PutAt(Abs(w), x, a);
    forall o ensures At(Abs(w'), o) == At(Put(Abs(w), x, a), o) {
      if o != x {
        InverseDistinct(w, inv, o, x);
        InverseDistinct(w', inv', o, x);
      }
    }
    SameValues(Abs(w'), Put(Abs(w), x, a));
  }

  // A step that moves what one place holds to another; the latter's old cell may go.
  lemma ShiftValues(w: World, inv: Owners, w': World, inv': Owners, from: Owner, to: Owner)
    requires Inverse(w, inv) && Inverse(w', inv') && from != to
    requires forall q :: Val(w', q) == if q == to then Val(w, from) else if q == from then 0 else Val(w, q)
    requires SameReferents(w.heap, w'.heap, {Val(w, to)})
    ensures Abs(w') == Shift(Abs(w), from, to)
  {
    hide Inverse, Abs, Shift, At, Val;
    AbsAt(w);
    AbsAt(w');
    ShiftAt(Abs(w), from, to);
    forall o ensures At(Abs(w'), o) == At(Shift(Abs(w), from, to), o) {
      InverseDistinct(w, inv, o, to);
      InverseDistinct(w, inv, from, to);
      assert Val(w', o) == if o == to then Val(w, from) else if o == from then 0 else Val(w, o);
    }
    SameValues(Abs(w'), Shift(Abs(w), from, to));
  }

  lemma ResetReferents(h: Heap, val: Slot, other: Slot, s: Slot)
    requires 0 !in h.cells && Free(Reset(h, val).heap, s) && (other == 0 || other != val)
    ensures SameReferents(h, Reset(h, val).heap, {val, 0})
    ensures other == 0 || other in h.cells ==>
      var r := ResetPersistent(h, val, other, s);
      SameReferents(h, r.heap, {val, r.val}) && ObjectOf(r.heap, r.val) == ObjectOf(h, other)
  {
  }

  // The handle variable x is reset, destroyed, or reset by its own callback.
  lemma DropValues(w: World, inv: Owners, w': World, inv': Owners, x: nat)
    requires Inverse(w, inv) && Inverse(w', inv') && w'.heap == Reset(w.heap, VarVal(w, x)).heap
    requires forall o :: Val(w', o) == if o == Var(x) then 0 else Val(w, o)
    ensures Abs(w') == Put(Abs(w), Var(x), None)
  {
    InverseAt(w, inv, Var(x));
    var free := Bound(w.heap.cells.Keys) + 1;
    hide Inverse, Abs, Put, Reset, SameReferents;
    ResetFree(w.heap, VarVal(w, x), free);
    ResetReferents(w.heap, VarVal(w, x), 0, free);
    PutValues(w, inv, w', inv', Var(x), None);
  }

  lemma DropStepValues(w: World, inv: Owners, inv': Owners, st: Step)
    requires Inverse(w, inv) && Enabled(w, st) && Inverse(Next(w, st), inv')
    requires st.ResetVar? || st.Destroy? || st.OwnPassOf?
    ensures Abs(Next(w, st)) == ValueStep(Abs(w), st)
  {
    hide Inverse, Abs, Put, DisposeGlobal;
    DropValues(w, inv, Next(w, st), inv', st.x);
  }

  lemma FromLocalValues(w: World, inv: Owners, inv': Owners, x: nat, local: Option<Address>, s: Slot)
    requires Inverse(w, inv) && Enabled(w, FromLocal(x, local, s)) && Inverse(Next(w, FromLocal(x, local, s)), inv')
    ensures Abs(Next(w, FromLocal(x, local, s))) == Put(Abs(w), Var(x), local)
  {
    var r := ResetLocal(w.heap, VarVal(w, x), local, s);
    assert Next(w, FromLocal(x, local, s)) == PutVar(w, x, r);
    assert Free(Reset(w.heap, VarVal(w, x)).heap, s);
    hide Next, Enabled, Inverse, Abs, Put, ResetLocal, Reset, SameReferents, PutVar, ObjectOf;
    InverseAt(w, inv, Var(x));
    PutVarAt(w, x, r);
    LocalReferents(w.heap, VarVal(w, x), local, s);
    PutValues(w, inv, PutVar(w, x, r), inv', Var(x), local);
  }

  lemma PutVarAt(w: World, x: nat, r: Held)
    ensures PutVar(w, x, r).heap == r.heap && Val(w, Var(x)) == VarVal(w, x)
    ensures forall o :: Val(PutVar(w, x, r), o) == if o == Var(x) then r.val else Val(w, o)
  {
  }

  lemma LocalReferents(h: Heap, val: Slot, local: Option<Address>, s: Slot)
    requires 0 !in h.cells && Free(Reset(h, val).heap, s)
    ensures var r := ResetLocal(h, val, local, s);
      SameReferents(h, r.heap, {val, r.val}) && ObjectOf(r.heap, r.val) == local
  {
  }

  lemma ResetFree(h: Heap, val: Slot, s: Slot)
    requires Free(h, s)
    ensures Free(Reset(h, val).heap, s) && Reset(h, val).val == 0
  {
  }

  lemma CopyStepValues(w: World, inv: Owners, inv': Owners, st: Step)
    requires Inverse(w, inv) && Enabled(w, st) && Inverse(Next(w, st), inv')
    requires st.FromPersistent? || st.CopyAssign?
    ensures Abs(Next(w, st)) == ValueStep(Abs(w), st)
  {
    hide Inverse, Abs, Put, ResetPersistent, Reset, SameReferents;
    var x, y := st.x, st.y;
    assert Val(w, Var(x)) == VarVal(w, x) && Val(w, Var(y)) == VarVal(w, y);
    InverseAt(w, inv, Var(y));
    InverseDistinct(w, inv, Var(x), Var(y));
    ResetReferents(w.heap, VarVal(w, x), Other(w, x, y), st.s);
    AbsAt(w);
    PutValues(w, inv, Next(w, st), inv', Var(x), if x == y then None else ObjectAt(w, Var(y)));
  }

  lemma MoveAssignValues(w: World, inv: Owners, inv': Owners, x: nat, y: nat)
    requires Inverse(w, inv) && Enabled(w, MoveAssign(x, y)) && Inverse(Next(w, MoveAssign(x, y)), inv')
    ensures Abs(Next(w, MoveAssign(x, y))) == ValueStep(Abs(w), MoveAssign(x, y))
  {
    hide Inverse, Abs, Shift;
    if x != y {
      ShiftValues(w, inv, Next(w, MoveAssign(x, y)), inv', Var(y), Var(x));
    }
  }

  lemma AppendValues(w: World, inv: Owners, inv': Owners, v: nat, i: nat, x: nat)
    requires Inverse(w, inv) && Enabled(w, Append(v, i, x)) && Inverse(Next(w, Append(v, i, x)), inv')
    ensures Abs(Next(w, Append(v, i, x))) == ValueStep(Abs(w), Append(v, i, x))
  {
    hide Inverse, Abs, Shift;
    ShiftValues(w, inv, Next(w, Append(v, i, x)), inv', Var(x), Elem(v, i));
  }

  // Flags are no part of the values.
  lemma ReleaseReferents(h: Heap, weak: bool, v: Slot)
    ensures forall s :: ObjectOf(Release(h, weak, v).heap, s) == ObjectOf(h, s)
  {
  }

  lemma SetUniqueReferents(h: Heap, kind: Kind, impl: map<Key, Slot>, k: Key, v: Slot, p: Param)
    ensures forall s :: ObjectOf(SetUnique(h, kind, impl, k, v, p).heap, s) == ObjectOf(h, s)
  {
    ReleaseReferents(Annotate(h, kind, v, p), !kind.Plain?, Lookup(impl, k));
  }

  lemma ReplaceValues(w: World, w': World, m: nat, k: Key, x: nat, r: nat)
    requires x != r && forall s :: ObjectOf(w'.heap, s) == ObjectOf(w.heap, s)
    requires forall q :: Val(w', q) == Replaced(w, m, k, Var(x), Var(r), q)
    ensures Abs(w') == Put(Shift(Abs(w), Var(x), Entry(m, k)), Var(r), At(Abs(w), Entry(m, k)))
  {
    hide Abs, Shift, Put, At, Val;
    var v1 := Shift(Abs(w), Var(x), Entry(m, k));
    var v2 := Put(v1, Var(r), At(Abs(w), Entry(m, k)));
    AbsAt(w);
    AbsAt(w');
    ShiftAt(Abs(w), Var(x), Entry(m, k));
    PutAt(v1, Var(r), At(Abs(w), Entry(m, k)));
    forall o ensures At(Abs(w'), o) == At(v2, o) {
      assert Val(w', o) == Replaced(w, m, k, Var(x), Var(r), o);
    }
    SameValues(Abs(w'), v2);
  }

  lemma MapSetValues(w: World, m: nat, k: Key, x: nat, serial: nat, r: nat)
    requires Enabled(w, MapSet(m, k, x, serial, r))
    ensures Abs(Next(w, MapSet(m, k, x, serial, r))) == ValueStep(Abs(w), MapSet(m, k, x, serial, r))
  {
    hide Next, Abs, Put, Shift, At, SetUnique;
    MapSetFrame(w, m, k, x, serial, r);
    SetUniqueReferents(w.heap, w.maps[m].kind, w.maps[m].impl, k, Val(w, Var(x)), MapMade(m, k, serial));
    ReplaceValues(w, Next(w, MapSet(m, k, x, serial, r)), m, k, x, r);
  }

  lemma MapRemoveValues(w: World, inv: Owners, inv': Owners, m: nat, k: Key, r: nat)
    requires Inverse(w, inv) && Enabled(w, MapRemove(m, k, r)) && Inverse(Next(w, MapRemove(m, k, r)), inv')
    ensures Abs(Next(w, MapRemove(m, k, r))) == ValueStep(Abs(w), MapRemove(m, k, r))
  {
    hide Inverse, Next, Abs, Shift, Release;
    MapRemoveFrame(w, m, k, r);
    ReleaseReferents(w.heap, !w.maps[m].kind.Plain?, Val(w, Entry(m, k)));
    ShiftValues(w, inv, Next(w, MapRemove(m, k, r)), inv', Entry(m, k), Var(r));
  }

  lemma HandOutValues(w: World, inv: Owners, inv': Owners, f: nat, k: Key, r: nat)
    requires Inverse(w, inv) && Enabled(w, HandOut(f, k, r)) && Inverse(Next(w, HandOut(f, k, r)), inv')
    ensures Abs(Next(w, HandOut(f, k, r))) == ValueStep(Abs(w), HandOut(f, k, r))
  {
    hide Inverse, Next, Abs, Shift, Release;
    HandOutFrame(w, f, k, r);
    ReleaseReferents(w.heap, !w.frames[f].kind.Plain?, Val(w, Swapped(f, k)));
    ShiftValues(w, inv, Next(w, HandOut(f, k, r)), inv', Swapped(f, k), Var(r));
  }

  lemma SwapOutValues(w: World, m: nat, f: nat)
    requires Enabled(w, SwapOut(m, f))
    ensures Abs(Next(w, SwapOut(m, f))) == ValueStep(Abs(w), SwapOut(m, f))
  {
    var w', v' := Next(w, SwapOut(m, f)), ValueStep(Abs(w), SwapOut(m, f));
    forall o ensures At(Abs(w'), o) == At(v', o) {
      assert Val(w', o) == SwappedVal(w, m, f, o);
      assert ObjectAt(w', o) == if o.Entry? && o.m == m then None
        else if o.Swapped? && o.f == f then ObjectAt(w, Entry(m, o.key)) else ObjectAt(w, o);
    }
    SameValues(Abs(w'), v');
  }

  lemma VectorClearAt(w: World, inv: Owners, inv': Owners, v: nat, o: Owner)
    requires Inverse(w, inv) && Enabled(w, VectorClear(v)) && Inverse(Next(w, VectorClear(v)), inv')
    ensures ObjectAt(Next(w, VectorClear(v)), o) == if o.Elem? && o.v == v then None else ObjectAt(w, o)
  {
    hide Inverse;
    DisposeWordsEffect(w.heap, w.vecs[v]);
    InverseAt(w, inv, o);
    InverseAt(Next(w, VectorClear(v)), inv', o);
  }

  lemma VectorClearValues(w: World, inv: Owners, inv': Owners, v: nat)
    requires Inverse(w, inv) && Enabled(w, VectorClear(v)) && Inverse(Next(w, VectorClear(v)), inv')
    ensures Abs(Next(w, VectorClear(v))) == ValueStep(Abs(w), VectorClear(v))
  {
    hide Inverse, Next, ObjectAt;
    var w', v' := Next(w, VectorClear(v)), ValueStep(Abs(w), VectorClear(v));
    forall o ensures At(Abs(w'), o) == At(v', o) {
      VectorClearAt(w, inv, inv', v, o);
    }
    SameValues(Abs(w'), v');
  }

  lemma SameVal(w: World, w': World, o: Owner)
    requires w'.vars == w.vars && w'.maps == w.maps && w'.vecs == w.vecs && w'.frames == w.frames
    ensures Val(w', o) == Val(w, o)
  {
  }

  lemma GcMoveAt(w: World, reloc: map<Address, Address>, o: Owner)
    requires Enabled(w, GcMove(reloc))
    ensures ObjectAt(w, o).Some? ==> ObjectAt(w, o).value in reloc
    ensures ObjectAt(Next(w, GcMove(reloc)), o) ==
      if ObjectAt(w, o).Some? then Some(reloc[ObjectAt(w, o).value]) else None
  {
    hide Val;
    SameVal(w, Next(w, GcMove(reloc)), o);
    assert Val(Next(w, GcMove(reloc)), o) == Val(w, o);
  }

  lemma GcMoveValues(w: World, reloc: map<Address, Address>)
    requires Enabled(w, GcMove(reloc))
    ensures Abs(Next(w, GcMove(reloc))) == ValueStep(Abs(w), GcMove(reloc))
  {
    hide Next, Enabled, ObjectAt;
    var w', v' := Next(w, GcMove(reloc)), ValueStep(Abs(w), GcMove(reloc));
    forall o ensures At(Abs(w'), o) == At(v', o) {
      GcMoveAt(w, reloc, o);
    }
    SameValues(Abs(w'), v');
  }

  lemma FlagReferents(w: World, st: Step, s: Slot)
    requires Enabled(w, st) && (st.SetWeak? || st.ClearVarWeak? || st.GcKill? || st.SecondPassOf?)
    ensures ObjectOf(Next(w, st).heap, s) == ObjectOf(w.heap, s)
  {
  }

  lemma FlagStepAt(w: World, st: Step, o: Owner)
    requires Enabled(w, st) && (st.SetWeak? || st.ClearVarWeak? || st.GcKill? || st.SecondPassOf?)
    ensures ObjectAt(Next(w, st), o) == ObjectAt(w, o)
  {
    hide ObjectOf, Val;
    FlagReferents(w, st, Val(w, o));
    SameVal(w, Next(w, st), o);
  }

  lemma FlagStepValues(w: World, st: Step)
    requires Enabled(w, st) && (st.SetWeak? || st.ClearVarWeak? || st.GcKill? || st.SecondPassOf?)
    ensures Abs(Next(w, st)) == Abs(w)
  {
    hide Next, Enabled, ObjectAt;
    forall o ensures At(Abs(Next(w, st)), o) == At(Abs(w), o) {
      FlagStepAt(w, st, o);
    }
    SameValues(Abs(Next(w, st)), Abs(w));
  }

  lemma FirstPassValues(w: World, inv: Owners, inv': Owners, s: Slot, m: nat, k: Key, serial: nat)
    requires Reachable(w) && Inverse(w, inv) && Enabled(w, FirstPassOf(s, m, k, serial))
    requires Inverse(Next(w, FirstPassOf(s, m, k, serial)), inv')
    ensures Abs(Next(w, FirstPassOf(s, m, k, serial))) == ValueStep(Abs(w), FirstPassOf(s, m, k, serial))
  {
    hide Inverse, Next, Abs, Put, Reachable;
    FirstPassExact(w, s, m, k, serial);
    PutValues(w, inv, Next(w, FirstPassOf(s, m, k, serial)), inv', Entry(m, k), None);
  }

  lemma StepValues(w: World, st: Step)
    requires Reachable(w) && Enabled(w, st)
    ensures Abs(Next(w, st)) == ValueStep(Abs(w), st)
  {
    var inv, at := ReachableInv(w);
    ReachableNext(w, st);
    var inv', at' := ReachableInv(Next(w, st));
    assert Inverse(w, inv) && Inverse(Next(w, st), inv');
    hide *;
    StepValuesOf(w, st, inv, inv');
  }

  lemma StepValuesOf(w: World, st: Step, inv: Owners, inv': Owners)
    requires Reachable(w) && Enabled(w, st) && Inverse(w, inv) && Inverse(Next(w, st), inv')
    ensures Abs(Next(w, st)) == ValueStep(Abs(w), st)
  {
    hide Inverse, Next, Enabled, Abs, Reachable, Put, Shift, At;
    match st
    case ResetVar(_) => DropStepValues(w, inv, inv', st);
    case FromLocal(x, local, s) => FromLocalValues(w, inv, inv', x, local, s);
    case Destroy(_) => DropStepValues(w, inv, inv', st);
    case OwnPassOf(_) => DropStepValues(w, inv, inv', st);
    case FromPersistent(_, _, _) => CopyStepValues(w, inv, inv', st);
    case CopyAssign(_, _, _) => CopyStepValues(w, inv, inv', st);
    case MoveAssign(x, y) => MoveAssignValues(w, inv, inv', x, y);
    case SetWeak(_, _) => FlagStepValues(w, st);
    case ClearVarWeak(_) => FlagStepValues(w, st);
    case MapSet(m, k, x, serial, r) => MapSetValues(w, m, k, x, serial, r);
    case MapRemove(m, k, r) => MapRemoveValues(w, inv, inv', m, k, r);
    case SwapOut(m, f) => SwapOutValues(w, m, f);
    case HandOut(f, k, r) => HandOutValues(w, inv, inv', f, k, r);
    case Append(v, i, x) => AppendValues(w, inv, inv', v, i, x);
    case VectorClear(v) => VectorClearValues(w, inv, inv', v);
    case GcMove(reloc) => GcMoveValues(w, reloc);
    case GcKill(_) => FlagStepValues(w, st);
    case FirstPassOf(s, m, k, serial) => FirstPassValues(w, inv, inv', s, m, k, serial);
    case SecondPassOf(_) => FlagStepValues(w, st);
  }

  /**
   Copy assignment keeps the source's object in the target exactly if the two are different
   handles or the source was empty: assigning a handle to itself empties it.
  */
  lemma CopyKeepsObject(w: World, x: nat, y: nat, s: Slot)
    requires Reachable(w) && Enabled(w, CopyAssign(x, y, s))
    ensures ObjectAt(Next(w, CopyAssign(x, y, s)), Var(x)) == ObjectAt(w, Var(y)) <==>
      (x != y || ObjectAt(w, Var(y)) == None)
  {
    StepValues(w, CopyAssign(x, y, s));
    AbsAt(w);
    AbsAt(Next(w, CopyAssign(x, y, s)));
    PutAt(Abs(w), Var(x), if x == y then None else At(Abs(w), Var(y)));
    hide Enabled, Next, Abs, Put, At, ObjectAt, Reachable;
  }

  ghost function ValueRun(v: Values, steps: seq<Step>): Values
    decreases |steps|
  {
    if steps == [] then v else ValueRun(ValueStep(v, steps[0]), steps[1..])
  }

  /**
   Refinement. After any run of any interleaving, every handle, map entry and vector
   element refers to the object that the machine without cells and pointers says.
  */
  lemma {:induction false} RunRefinesValues(w: World, steps: seq<Step>)
    requires Reachable(w) && CanRun(w, steps)
    ensures Abs(Run(w, steps)) == ValueRun(Abs(w), steps)
    decreases |steps|
  {
    hide Enabled, Next, Reachable, Abs, ValueStep;
    if steps != [] {
      StepValues(w, steps[0]);
      ReachableNext(w, steps[0]);
      RunRefinesValues(Next(w, steps[0]), steps[1..]);
    }
  }

  /** Contains is right: in a reachable state a key is in a map exactly if it has an object. */
  lemma ContainsMeans(w: World, m: nat, k: Key)
    requires Reachable(w) && m in w.maps
    ensures Contains(w.maps[m].impl, k) <==> Entry(m, k) in Abs(w)
  {
    LinearOverRuns(w);
    assert Val(w, Entry(m, k)) == Lookup(w.maps[m].impl, k);
    AbsAt(w);
  }

  // No map stores an empty word, which would read as a key that is not there.
  ghost predicate Filled(w: World) {
    forall m, k :: m in w.maps && k in w.maps[m].impl ==> w.maps[m].impl[k] != 0
  }

  lemma StepFilled(w: World, st: Step)
    requires Filled(w) && Enabled(w, st)
    ensures Filled(Next(w, st))
  {
    hide SetUnique, Remove, FirstPass, Release, Reset, ResetLocal, ResetPersistent, DisposeWords;
    if st.MapSet? {
      var p := MapMade(st.m, st.key, st.serial);
      SetUniqueShape(w.heap, w.maps[st.m].kind, w.maps[st.m].impl, st.key, VarVal(w, st.x), p);
    } else if st.MapRemove? {
      RemoveShape(w.heap, w.maps[st.m].kind, w.maps[st.m].impl, st.key);
    } else if st.FirstPassOf? {
      FirstPassKeys(w.heap, w.maps[st.m].kind, w.maps[st.m].impl, st.key, MapMade(st.m, st.key, st.serial));
    }
  }

  lemma RemoveShape(h: Heap, kind: Kind, impl: map<Key, Slot>, k: Key)
    ensures Remove(h, kind, impl, k).impl == impl - {k}
  {
  }

  lemma {:induction false} RunFilled(w: World, steps: seq<Step>)
    requires Filled(w) && CanRun(w, steps)
    ensures Filled(Run(w, steps))
    decreases |steps|
  {
    hide Enabled, Next, Filled;
    if steps != [] {
      StepFilled(w, steps[0]);
      RunFilled(Next(w, steps[0]), steps[1..]);
    }
  }

  /**
   Size and Contains agree: in a reachable state the backing map has exactly the keys that
   have an object, so its size is their number.
  */
  lemma SizeMeans(w: World, m: nat, keys: set<Key>)
    requires Reachable(w) && m in w.maps
    requires forall k :: k in keys <==> Entry(m, k) in Abs(w)
    ensures |w.maps[m].impl| == |keys| && w.maps[m].impl.Keys == keys
  {
    hide Enabled, Next, Run, CanRun, Abs;
    var kinds, vecs, steps :| CanRun(Initial(kinds, vecs), steps) && w == Run(Initial(kinds, vecs), steps);
    RunFilled(Initial(kinds, vecs), steps);
    forall k ensures k in w.maps[m].impl <==> k in keys {
      ContainsMeans(w, m, k);
    }
    assert w.maps[m].impl.Keys == keys;
  }

  // HandleHelper::EqualHandles on two places of the model.
  ghost predicate EqualAt(w: World, a: Owner, b: Owner) {
    ObjectAt(w, a) == ObjectAt(w, b)
  }

  /** No comparison between handles, entries and elements notices a moving collector. */
  lemma MovingKeepsEquality(w: World, reloc: map<Address, Address>, a: Owner, b: Owner)
    requires Reachable(w) && Enabled(w, GcMove(reloc))
    ensures EqualAt(Next(w, GcMove(reloc)), a, b) <==> EqualAt(w, a, b)
  {
    hide Next, ObjectAt, Reachable;
    GcMoveAt(w, reloc, a);
    GcMoveAt(w, reloc, b);
  }
}
