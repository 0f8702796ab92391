/**
 TracedReference: assignment by copy and by move, and Reset, against an abstract
 optional reference. Traced handles have no destructor that clears them, so a cell may
 outlive its handle; what is shown is that nothing is freed twice or changed in passing.
*/
module TracedModel {
  import opened Basics
  import opened Cells

  // Storage cells of traced handles; freeing a cell that is not live is a fault.
  datatype TracedHeap = TracedHeap(cells: map<Slot, Address>, faulted: bool)

  function DisposeTracedReference(h: TracedHeap, s: Slot): TracedHeap {
    if s in h.cells then h.(cells := h.cells - {s}) else h.(faulted := true)
  }

  function GlobalizeTracedReference(h: TracedHeap, referent: Address, s: Slot): TracedHeap {
    h.(cells := h.cells[s := referent])
  }

  // Called only with *from non-null; allocates a cell for the same object.
  function CopyTracedReference(h: TracedHeap, from: Slot, s: Slot): TracedHeap {
    if from in h.cells then GlobalizeTracedReference(h, h.cells[from], s) else h.(faulted := true)
  }

  predicate FreeSlot(h: TracedHeap, s: Slot) {
    s != 0 && s !in h.cells
  }

  // A heap with the val_ of the target and of the source of an operation.
  datatype Refs = Refs(heap: TracedHeap, val: Slot, source: Slot)

  function Reset(h: TracedHeap, val: Slot): TracedHeap {
    if val == 0 then h else DisposeTracedReference(h, val)
  }

  // The header passes both slots to MoveTracedReference without looking at them, so that
  // function has to free the target's old cell and to cope with empty handles.
  function MoveTracedReference(h: TracedHeap, from: Slot, to: Slot): Refs {
    Refs(Reset(h, to), from, 0)
  }

  function MoveAssign(h: TracedHeap, val: Slot, rhs: Slot, same: bool): Refs {
    if same then Refs(h, val, val) else MoveTracedReference(h, rhs, val)
  }

  function CopyAssign(h: TracedHeap, val: Slot, rhs: Slot, same: bool, s: Slot): Refs {
    if same then Refs(h, val, val)
    else if rhs != 0 then Refs(CopyTracedReference(Reset(h, val), rhs, s), s, rhs)
    else Refs(Reset(h, val), 0, rhs)
  }

  function ResetLocal(h: TracedHeap, val: Slot, local: Option<Address>, s: Slot): Refs {
    if local.Some? then Refs(GlobalizeTracedReference(Reset(h, val), local.value, s), s, 0)
    else Refs(Reset(h, val), 0, 0)
  }

  // ---- Runs ----

  datatype TracedWorld = TracedWorld(heap: TracedHeap, refs: map<nat, Slot>)

  datatype TracedStep =
    | TResetLocal(x: nat, local: Option<Address>, s: Slot)
    | TMove(x: nat, y: nat)
    | TCopy(x: nat, y: nat, s: Slot)
    | TAbandon(x: nat)

  function RefVal(w: TracedWorld, x: nat): Slot {
    if x in w.refs then w.refs[x] else 0
  }

  ghost predicate TEnabled(w: TracedWorld, st: TracedStep) {
    match st
    case TResetLocal(x, _, s) => FreeSlot(Reset(w.heap, RefVal(w, x)), s)
    case TMove(x, y) => y in w.refs
    case TCopy(x, y, s) => y in w.refs && FreeSlot(Reset(w.heap, RefVal(w, x)), s)
    case TAbandon(x) => x in w.refs
  }

  function TNext(w: TracedWorld, st: TracedStep): TracedWorld
    requires TEnabled(w, st)
  {
    match st
    case TResetLocal(x, local, s) =>
      var r := ResetLocal(w.heap, RefVal(w, x), local, s);
      TracedWorld(r.heap, w.refs[x := r.val])
    case TMove(x, y) =>
      var r := MoveAssign(w.heap, RefVal(w, x), RefVal(w, y), x == y);
      TracedWorld(r.heap, w.refs[x := r.val][y := r.source])
    case TCopy(x, y, s) =>
      var r := CopyAssign(w.heap, RefVal(w, x), RefVal(w, y), x == y, s);
      TracedWorld(r.heap, w.refs[x := r.val][y := r.source])
    case TAbandon(x) => w.(refs := w.refs - {x})
  }

  // Every non-empty handle has a live cell of its own.
  ghost predicate Sound(w: TracedWorld) {
    && !w.heap.faulted && 0 !in w.heap.cells
    && (forall x :: RefVal(w, x) != 0 ==> RefVal(w, x) in w.heap.cells)
    && (forall x, y :: RefVal(w, x) == RefVal(w, y) != 0 ==> x == y)
  }

  function Referent(w: TracedWorld, x: nat): Option<Address> {
    var s := RefVal(w, x);
    if s != 0 && s in w.heap.cells then Some(w.heap.cells[s]) else None
  }

  // What each handle refers to afterwards, in terms of what handles referred to before.
  function ReferentAfter(w: TracedWorld, st: TracedStep, z: nat): Option<Address> {
    match st
    case TResetLocal(x, local, _) => if z == x then local else Referent(w, z)
    case TMove(x, y) => if z == x then Referent(w, y) else if z == y then None else Referent(w, z)
    case TCopy(x, y, _) => if z == x then Referent(w, y) else Referent(w, z)
    case TAbandon(x) => if z == x then None else Referent(w, z)
  }

  // The cells after a step: the target's old cell is gone, and a new one is there exactly for
  // a target that has a cell of its own allocated.
  function CellsAfter(w: TracedWorld, st: TracedStep): set<Slot> {
    var gone := if RefVal(w, st.x) == 0 then {} else {RefVal(w, st.x)};
    match st
    case TResetLocal(_, local, s) => w.heap.cells.Keys - gone + if local.Some? then {s} else {}
    case TMove(x, y) => if x == y then w.heap.cells.Keys else w.heap.cells.Keys - gone
    case TCopy(x, y, s) =>
      if x == y then w.heap.cells.Keys
      else w.heap.cells.Keys - gone + if RefVal(w, y) != 0 then {s} else {}
    case TAbandon(_) => w.heap.cells.Keys
  }

  ghost predicate StepExact(w: TracedWorld, st: TracedStep, w': TracedWorld) {
    && Sound(w') && w'.heap.cells.Keys == CellsAfter(w, st)
    && (forall z :: Referent(w', z) == ReferentAfter(w, st, z))
    && (forall s :: s in w.heap.cells && s != RefVal(w, st.x) ==>
          s in w'.heap.cells && w'.heap.cells[s] == w.heap.cells[s])
  }

  lemma MoveExact(w: TracedWorld, x: nat, y: nat)
    requires Sound(w) && TEnabled(w, TMove(x, y))
    ensures StepExact(w, TMove(x, y), TNext(w, TMove(x, y)))
  {
    var w' := TNext(w, TMove(x, y));
    assert forall z :: (
      RefVal(w', z) == if x != y && z == x then RefVal(w, y) else if x != y && z == y then 0 else RefVal(w, z));
  }

  lemma CopyExact(w: TracedWorld, x: nat, y: nat, s: Slot)
    requires Sound(w) && TEnabled(w, TCopy(x, y, s))
    ensures StepExact(w, TCopy(x, y, s), TNext(w, TCopy(x, y, s)))
  {
    var w' := TNext(w, TCopy(x, y, s));
    assert forall z :: RefVal(w', z) == if x != y && z == x then (if RefVal(w, y) != 0 then s else 0) else RefVal(w, z);
  }

  lemma ResetLocalExact(w: TracedWorld, st: TracedStep)
    requires Sound(w) && TEnabled(w, st) && (st.TResetLocal? || st.TAbandon?)
    ensures StepExact(w, st, TNext(w, st))
  {
    var w' := TNext(w, st);
    assert forall z :: (
      RefVal(w', z) == if z != st.x then RefVal(w, z) else if st.TResetLocal? && st.local.Some? then st.s else 0);
  }

  /**
   One step: no fault, handles keep cells of their own, the target ends up referring to
   the source's object (also in self-assignment, where nothing happens at all), the target's
   old cell is gone, and cells that belong to neither operand are untouched.
  */
  lemma TracedStepExact(w: TracedWorld, st: TracedStep)
    requires Sound(w) && TEnabled(w, st)
    ensures Sound(TNext(w, st))
    ensures forall z :: Referent(TNext(w, st), z) == ReferentAfter(w, st, z)
    ensures TNext(w, st).heap.cells.Keys == CellsAfter(w, st)
    ensures forall s :: s in w.heap.cells && s != RefVal(w, st.x) ==>
      s in TNext(w, st).heap.cells && TNext(w, st).heap.cells[s] == w.heap.cells[s]
  {
    hide Sound, TNext, Referent, ReferentAfter, CellsAfter;
    match st
    case TMove(x, y) => MoveExact(w, x, y);
    case TCopy(x, y, s) => CopyExact(w, x, y, s);
    case _ => ResetLocalExact(w, st);
  }

  ghost predicate TCanRun(w: TracedWorld, steps: seq<TracedStep>)
    decreases |steps|
  {
    steps == [] || (TEnabled(w, steps[0]) && TCanRun(TNext(w, steps[0]), steps[1..]))
  }

  function TRun(w: TracedWorld, steps: seq<TracedStep>): TracedWorld
    requires TCanRun(w, steps)
    decreases |steps|
  {
    if steps == [] then w else TRun(TNext(w, steps[0]), steps[1..])
  }

  /** Over any run from no handles on: never a second free, never a shared or dead cell. */
  lemma {:induction false} TracedOverRuns(w: TracedWorld, steps: seq<TracedStep>)
    requires Sound(w) && TCanRun(w, steps)
    ensures Sound(TRun(w, steps))
    decreases |steps|
  {
    hide Sound;
    if steps != [] {
      TracedStepExact(w, steps[0]);
      TracedOverRuns(TNext(w, steps[0]), steps[1..]);
    }
  }
}

/** The traced handle as an object with a mutable val_, proved against TracedModel. */
module TracedHandles {
  import opened Basics
  import opened Cells
  import opened TracedModel

  class Tracer {
    var heap: TracedHeap

    constructor ()
      ensures heap == TracedHeap(map[], false)
    {
      heap := TracedHeap(map[], false);
    }

    method Globalize(referent: Address) returns (s: Slot)
      modifies this
      ensures FreeSlot(old(heap), s) && heap == GlobalizeTracedReference(old(heap), referent, s)
    {
      assert Bound(heap.cells.Keys) + 1 !in heap.cells.Keys;
      s :| s != 0 && s !in heap.cells.Keys;
      heap := GlobalizeTracedReference(heap, referent, s);
    }

    method Copy(from: Slot) returns (s: Slot)
      modifies this
      ensures FreeSlot(old(heap), s) && heap == CopyTracedReference(old(heap), from, s)
    {
      assert Bound(heap.cells.Keys) + 1 !in heap.cells.Keys;
      s :| s != 0 && s !in heap.cells.Keys;
      heap := CopyTracedReference(heap, from, s);
    }

    method Dispose(s: Slot)
      modifies this
      ensures heap == DisposeTracedReference(old(heap), s)
    {
      heap := DisposeTracedReference(heap, s);
    }
  }

  class TracedReference {
    var val: Slot

    constructor ()
      ensures val == 0
    {
      val := 0;
    }

    constructor FromLocal(tracer: Tracer, that: Option<Address>)
      modifies tracer
      ensures Refs(tracer.heap, val, 0) == TracedModel.ResetLocal(old(tracer.heap), 0, that, val)
      ensures that.Some? ==> FreeSlot(old(tracer.heap), val)
    {
      val := 0;
      new;
      if that.Some? {
        val := tracer.Globalize(that.value);
      }
    }

    method Reset(tracer: Tracer)
      modifies this, tracer
      ensures val == 0 && tracer.heap == TracedModel.Reset(old(tracer.heap), old(val))
      ensures old(val) == 0 ==> tracer.heap == old(tracer.heap)
      ensures old(val) != 0 ==> tracer.heap.cells == old(tracer.heap).cells - {old(val)}
      ensures tracer.heap.faulted <==>
        (old(tracer.heap).faulted || (old(val) != 0 && old(val) !in old(tracer.heap).cells))
    {
      if val == 0 { return; }
      tracer.Dispose(val);
      val := 0;
    }

    method ResetLocal(tracer: Tracer, other: Option<Address>)
      modifies this, tracer
      ensures Refs(tracer.heap, val, 0) == TracedModel.ResetLocal(old(tracer.heap), old(val), other, val)
      ensures other.Some? ==> FreeSlot(TracedModel.Reset(old(tracer.heap), old(val)), val)
      ensures old(val) != 0 && old(val) != val ==> old(val) !in tracer.heap.cells
    {
      Reset(tracer);
      if other.None? { return; }
      val := tracer.Globalize(other.value);
    }

    method MoveAssign(tracer: Tracer, rhs: TracedReference)
      modifies this, rhs, tracer
      ensures Refs(tracer.heap, val, rhs.val)
        == TracedModel.MoveAssign(old(tracer.heap), old(val), old(rhs.val), this == rhs)
      ensures this != rhs && old(val) != 0 ==> tracer.heap.cells == old(tracer.heap).cells - {old(val)}
    {
      if this != rhs {
        // MoveTracedReference
        if val != 0 {
          tracer.Dispose(val);
        }
        val := rhs.val;
        rhs.val := 0;
      }
    }

    method CopyAssign(tracer: Tracer, rhs: TracedReference)
      modifies this, tracer
      ensures Refs(tracer.heap, val, rhs.val)
        == TracedModel.CopyAssign(old(tracer.heap), old(val), old(rhs.val), this == rhs, val)
      ensures this != rhs && val != 0 ==> FreeSlot(TracedModel.Reset(old(tracer.heap), old(val)), val)
      ensures this != rhs && old(val) != 0 && old(val) != val ==> old(val) !in tracer.heap.cells
    {
      if this != rhs {
        Reset(tracer);
        if rhs.val != 0 {
          val := tracer.Copy(rhs.val);
        }
      }
    }
  }
}
