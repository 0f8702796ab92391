/**
 Runs of handle and container operations, interleaved with the collector.
*/
module Ownership {
  import opened Basics
  import opened Cells
  import opened HandleModel
  import opened ContainerModel

  datatype ValueMap = ValueMap(kind: Kind, impl: map<Key, Slot>)

  // The local map that Clear swaps the entries into; rest holds those not yet visited.
  datatype Frame = Frame(origin: nat, kind: Kind, rest: map<Key, Slot>)

  // `vars` are Global and copyable Persistent variables. `pending` are the cells whose
  // first-pass callbacks are due and `second` the parameters of due second passes.
  datatype World = World(
    heap: Heap,
    vars: map<nat, Slot>,
    maps: map<nat, ValueMap>,
    vecs: map<nat, seq<Slot>>,
    frames: map<nat, Frame>,
    pending: set<Slot>,
    second: multiset<Param>)

  // The places that can hold a pointer to a cell.
  datatype Owner =
    | Var(x: nat)
    | Entry(m: nat, key: Key)
    | Elem(v: nat, index: nat)
    | Swapped(f: nat, key: Key)

  ghost function Val(w: World, o: Owner): Slot {
    match o
    case Var(x) => if x in w.vars then w.vars[x] else 0
    case Entry(m, k) => if m in w.maps then Lookup(w.maps[m].impl, k) else 0
    case Elem(v, i) => if v in w.vecs && i < |w.vecs[v]| then w.vecs[v][i] else 0
    case Swapped(f, k) => if f in w.frames then Lookup(w.frames[f].rest, k) else 0
  }

  // Steps. An unset variable is one not yet constructed or already destroyed, so the
  // constructors are the corresponding assignments to an unset variable.
  datatype Step =
    | ResetVar(x: nat)
    | FromLocal(x: nat, local: Option<Address>, s: Slot)
    | FromPersistent(x: nat, y: nat, s: Slot)
    | CopyAssign(x: nat, y: nat, s: Slot)
    | MoveAssign(x: nat, y: nat)
    | Destroy(x: nat)
    | SetWeak(x: nat, serial: nat)
    | ClearVarWeak(x: nat)
    | MapSet(m: nat, key: Key, x: nat, serial: nat, r: nat)
    | MapRemove(m: nat, key: Key, r: nat)
    | SwapOut(m: nat, f: nat)
    | HandOut(f: nat, key: Key, r: nat)
    | Append(v: nat, index: nat, x: nat)
    | VectorClear(v: nat)
    | GcMove(reloc: map<Address, Address>)
    | GcKill(dying: set<Slot>)
    | FirstPassOf(s: Slot, m: nat, key: Key, serial: nat)
    | OwnPassOf(x: nat)
    | SecondPassOf(p: Param)

  function VarVal(w: World, x: nat): Slot {
    if x in w.vars then w.vars[x] else 0
  }

  function PutVar(w: World, x: nat, r: Held): World {
    w.(heap := r.heap, vars := w.vars[x := r.val])
  }

  // What the other operand holds once x has been reset.
  function Other(w: World, x: nat, y: nat): Slot {
    if x == y then 0 else VarVal(w, y)
  }

  function Relocate(h: Heap, reloc: map<Address, Address>): Heap
    requires forall s :: s in h.cells ==> h.cells[s].referent in reloc
  {
    h.(cells := map s | s in h.cells :: h.cells[s].(referent := reloc[h.cells[s].referent]))
  }

  function Kill(h: Heap, dying: set<Slot>): Heap {
    h.(cells := map s | s in h.cells ::
      if s in dying then h.cells[s].(state := NearDeath) else h.cells[s])
  }

  ghost predicate Injective(reloc: map<Address, Address>) {
    forall a, b :: a in reloc && b in reloc && reloc[a] == reloc[b] ==> a == b
  }

  // A cell whose weak callback belongs to a container.
  predicate MapCell(c: Cell) {
    !c.state.Strong? && c.param.Some? && c.param.value.MapMade?
  }

  ghost predicate HeldByVar(w: World, s: Slot) {
    exists x :: VarVal(w, x) == s
  }

  /**
   When a step may be taken. The allocator returns a free slot, a callback parameter
   is new memory, only non-empty handles go into a map, and a handle a function
   returns initialises a handle that is empty. No operation runs between first-pass
   callbacks, and the collector kills nothing in the middle of a Clear. What it kills is
   held weakly by a container, or by a variable, whose callback has to reset it.
  */
  ghost predicate Enabled(w: World, st: Step) {
    match st
    case ResetVar(x) => w.pending == {} && x in w.vars
    case FromLocal(x, local, s) => w.pending == {} && Free(Reset(w.heap, VarVal(w, x)).heap, s)
    case FromPersistent(x, y, s) => w.pending == {} && y in w.vars && Free(Reset(w.heap, VarVal(w, x)).heap, s)
    case CopyAssign(x, y, s) => w.pending == {} && y in w.vars && Free(Reset(w.heap, VarVal(w, x)).heap, s)
    case MoveAssign(x, y) => w.pending == {} && y in w.vars
    case Destroy(x) => w.pending == {} && x in w.vars
    case SetWeak(x, serial) => w.pending == {} && VarVal(w, x) != 0
    case ClearVarWeak(x) => w.pending == {} && VarVal(w, x) != 0
    case MapSet(m, k, x, serial, r) =>
      && w.pending == {} && m in w.maps && VarVal(w, x) != 0 && VarVal(w, r) == 0
      && (w.maps[m].kind.Plain? || MapMade(m, k, serial) !in w.heap.made)
    case MapRemove(m, k, r) => w.pending == {} && m in w.maps && VarVal(w, r) == 0
    case SwapOut(m, f) => w.pending == {} && m in w.maps && f !in w.frames
    case HandOut(f, k, r) => w.pending == {} && f in w.frames && k in w.frames[f].rest && VarVal(w, r) == 0
    case Append(v, i, x) => w.pending == {} && v in w.vecs && x in w.vars && i == |w.vecs[v]|
    case VectorClear(v) => w.pending == {} && v in w.vecs
    case GcMove(reloc) =>
      w.pending == {} && Injective(reloc) && forall s :: s in w.heap.cells ==> w.heap.cells[s].referent in reloc
    case GcKill(dying) =>
      && w.pending == {}
      && (forall s :: s in dying ==> IsWeak(w.heap, s) && (MapCell(w.heap.cells[s]) || HeldByVar(w, s)))
      && (forall f :: f in w.frames ==> w.frames[f].rest == map[])
    case FirstPassOf(s, m, k, serial) =>
      s in w.pending && s in w.heap.cells && w.heap.cells[s].param == Some(MapMade(m, k, serial)) && m in w.maps
    case OwnPassOf(x) => VarVal(w, x) in w.pending
    case SecondPassOf(p) => w.pending == {} && p in w.second
  }

  function Next(w: World, st: Step): World
    requires Enabled(w, st)
  {
    match st
    case ResetVar(x) => PutVar(w, x, Reset(w.heap, VarVal(w, x)))
    case FromLocal(x, local, s) => PutVar(w, x, ResetLocal(w.heap, VarVal(w, x), local, s))
    case FromPersistent(x, y, s) => PutVar(w, x, ResetPersistent(w.heap, VarVal(w, x), Other(w, x, y), s))
    case CopyAssign(x, y, s) => PutVar(w, x, ResetPersistent(w.heap, VarVal(w, x), Other(w, x, y), s))
    case MoveAssign(x, y) =>
      if x == y then w else
        PutVar(w, x, Held(Reset(w.heap, VarVal(w, x)).heap, VarVal(w, y))).(
          vars := w.vars[x := VarVal(w, y)][y := 0])
    case Destroy(x) => w.(heap := Reset(w.heap, VarVal(w, x)).heap, vars := w.vars - {x})
    case SetWeak(x, serial) => w.(heap := MakeWeak(w.heap, VarVal(w, x), Own(serial)))
    case ClearVarWeak(x) => w.(heap := ClearWeak(w.heap, VarVal(w, x)))
    case MapSet(m, k, x, serial, r) =>
      var t := SetUnique(w.heap, w.maps[m].kind, w.maps[m].impl, k, VarVal(w, x), MapMade(m, k, serial));
      w.(heap := t.heap, maps := w.maps[m := w.maps[m].(impl := t.impl)], vars := w.vars[x := 0][r := t.val])
    case MapRemove(m, k, r) =>
      var t := Remove(w.heap, w.maps[m].kind, w.maps[m].impl, k);
      w.(heap := t.heap, maps := w.maps[m := w.maps[m].(impl := t.impl)], vars := w.vars[r := t.val])
    case SwapOut(m, f) =>
      w.(maps := w.maps[m := w.maps[m].(impl := map[])],
         frames := w.frames[f := Frame(m, w.maps[m].kind, w.maps[m].impl)])
    case HandOut(f, k, r) =>
      var t := Release(w.heap, !w.frames[f].kind.Plain?, w.frames[f].rest[k]);
      w.(heap := t.heap, frames := w.frames[f := w.frames[f].(rest := w.frames[f].rest - {k})],
         vars := w.vars[r := t.val])
    case Append(v, i, x) => w.(vecs := w.vecs[v := w.vecs[v] + [VarVal(w, x)]], vars := w.vars[x := 0])
    case VectorClear(v) => w.(heap := DisposeWords(w.heap, w.vecs[v]), vecs := w.vecs[v := []])
    case GcMove(reloc) => w.(heap := Relocate(w.heap, reloc))
    case GcKill(dying) => w.(heap := Kill(w.heap, dying), pending := dying)
    case FirstPassOf(s, m, k, serial) =>
      var p := MapMade(m, k, serial);
      var t := FirstPass(w.heap, w.maps[m].kind, w.maps[m].impl, k, p);
      w.(heap := t.heap, maps := w.maps[m := w.maps[m].(impl := t.impl)], pending := w.pending - {s},
         second := if w.maps[m].kind.WeakGlobal? then w.second + multiset{p} else w.second)
    case OwnPassOf(x) =>
      PutVar(w, x, Reset(w.heap, VarVal(w, x))).(pending := w.pending - {VarVal(w, x)})
    case SecondPassOf(p) => w.(heap := ReturnData(w.heap, p), second := w.second - multiset{p})
  }

  ghost predicate CanRun(w: World, steps: seq<Step>)
    decreases |steps|
  {
    steps == [] || (Enabled(w, steps[0]) && CanRun(Next(w, steps[0]), steps[1..]))
  }

  function Run(w: World, steps: seq<Step>): World
    requires CanRun(w, steps)
    decreases |steps|
  {
    if steps == [] then w else Run(Next(w, steps[0]), steps[1..])
  }

  // Containers of the given kinds and no handles, before the first step.
  function Initial(kinds: map<nat, Kind>, vecs: set<nat>): World {
    World(
      Heap(map[], false, {}, multiset{}),
      map[],
      map m | m in kinds :: ValueMap(kinds[m], map[]),
      map v | v in vecs :: [],
      map[], {}, multiset{})
  }
}
