/** Stock option type, used for C++ values that may be empty or null. */
module Basics {
  datatype Option<+T> = None | Some(value: T)
}

/**
 The storage cells of the engine that persistent handles point to, and the
 api_internal entry points the headers call on them. The bodies of those entry
 points are not in the headers, so each is given here by its contract on the
 cell heap. An entry point called on a slot that is not a live cell sets
 `faulted`; the run theorems show that this never happens.
*/
module Cells {
  import opened Basics

  // Address of a storage cell; 0 is the null pointer.
  type Slot = nat
  // Address of a heap object.
  type Address = nat
  type Key = int

  // The opaque parameter of a weak callback. A parameter made by a container's
  // WeakCallbackParameter lets the traits class recover the map and the key.
  datatype Param =
    | MapMade(container: nat, key: Key, serial: nat)
    | Own(serial: nat)

  // The header distinguishes only one node state, kNodeStateIsWeakValue. NearDeath
  // stands for a node the collector has taken out of it before its callback runs.
  datatype NodeState = Strong | Weak | NearDeath

  datatype Cell = Cell(referent: Address, state: NodeState, param: Option<Param>)

  // `made` and `returned` record WeakCallbackParameter and DisposeCallbackData.
  datatype Heap = Heap(
    cells: map<Slot, Cell>,
    faulted: bool,
    made: set<Param>,
    returned: multiset<Param>)

  predicate Free(h: Heap, s: Slot) {
    s != 0 && s !in h.cells
  }

  // A new strong cell in the free slot s, which the allocator picks.
  function GlobalizeReference(h: Heap, referent: Address, s: Slot): Heap {
    h.(cells := h.cells[s := Cell(referent, Strong, None)])
  }

  // Clones the object of a cell, but none of its flags.
  function CopyGlobalReference(h: Heap, from: Slot, s: Slot): Heap {
    if from in h.cells then GlobalizeReference(h, h.cells[from].referent, s) else h.(faulted := true)
  }

  function DisposeGlobal(h: Heap, s: Slot): Heap {
    if s in h.cells then h.(cells := h.cells - {s}) else h.(faulted := true)
  }

  function MakeWeak(h: Heap, s: Slot, p: Param): Heap {
    if s in h.cells then h.(cells := h.cells[s := h.cells[s].(state := Weak, param := Some(p))])
    else h.(faulted := true)
  }

  function ClearWeak(h: Heap, s: Slot): Heap {
    if s in h.cells then h.(cells := h.cells[s := h.cells[s].(state := Strong, param := None)])
    else h.(faulted := true)
  }

  // The label only names an edge in heap snapshots.
  function AnnotateStrongRetainer(h: Heap, s: Slot): Heap {
    if s in h.cells then h else h.(faulted := true)
  }

  // Traits::DisposeCallbackData and Traits::DisposeWeak.
  function ReturnData(h: Heap, p: Param): Heap {
    h.(returned := h.returned + multiset{p})
  }

  predicate IsWeak(h: Heap, s: Slot) {
    s in h.cells && h.cells[s].state == Weak
  }

  // What a handle holding s refers to.
  function ObjectOf(h: Heap, s: Slot): Option<Address> {
    if s != 0 && s in h.cells then Some(h.cells[s].referent) else None
  }

  ghost function Bound(s: set<Slot>): (b: nat)
    ensures forall x :: x in s ==> x <= b
  {
    if s == {} then 0 else
      var x :| x in s;
      var b := Bound(s - {x});
      assert forall y :: y in s ==> y == x || y in s - {x};
      if b < x then x else b
  }
}
