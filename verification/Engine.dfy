/** The cell heap as mutable state: the api_internal calls the inline code makes. */
module Engine {
  import opened Basics
  import opened Cells

  class Isolate {
    var heap: Heap

    constructor ()
      ensures heap == Heap(map[], false, {}, multiset{})
    {
      heap := Heap(map[], false, {}, multiset{});
    }

    method GlobalizeReference(referent: Address) returns (s: Slot)
      modifies this
      ensures Free(old(heap), s)
      ensures heap == Cells.GlobalizeReference(old(heap), referent, s)
    {
      assert Bound(heap.cells.Keys) + 1 !in heap.cells.Keys;
      s :| s != 0 && s !in heap.cells.Keys;
      heap := Cells.GlobalizeReference(heap, referent, s);
    }

    method CopyGlobalReference(from: Slot) returns (s: Slot)
      modifies this
      ensures Free(old(heap), s)
      ensures heap == Cells.CopyGlobalReference(old(heap), from, s)
    {
      assert Bound(heap.cells.Keys) + 1 !in heap.cells.Keys;
      s :| s != 0 && s !in heap.cells.Keys;
      heap := Cells.CopyGlobalReference(heap, from, s);
    }

    method DisposeGlobal(s: Slot)
      modifies this
      ensures heap == Cells.DisposeGlobal(old(heap), s)
    {
      heap := Cells.DisposeGlobal(heap, s);
    }

    method MakeWeak(s: Slot, p: Param)
      modifies this
      ensures heap == Cells.MakeWeak(old(heap), s, p)
    {
      heap := Cells.MakeWeak(heap, s, p);
    }

    // Answers the parameter the cell carried.
    method ClearWeak(s: Slot) returns (p: Option<Param>)
      modifies this
      ensures heap == Cells.ClearWeak(old(heap), s)
      ensures p == if s in old(heap).cells then old(heap).cells[s].param else None
    {
      p := if s in heap.cells then heap.cells[s].param else None;
      heap := Cells.ClearWeak(heap, s);
    }

    method AnnotateStrongRetainer(s: Slot)
      modifies this
      ensures heap == Cells.AnnotateStrongRetainer(old(heap), s)
    {
      heap := Cells.AnnotateStrongRetainer(heap, s);
    }

    method ReturnData(p: Param)
      modifies this
      ensures heap == Cells.ReturnData(old(heap), p)
    {
      heap := Cells.ReturnData(heap, p);
    }

    // WeakCallbackParameter of a traits class: new memory from which the map and the key
    // can be recovered.
    method WeakCallbackParameter(container: nat, key: Key) returns (p: Param)
      modifies this
      ensures p.MapMade? && p.container == container && p.key == key && p !in old(heap).made
      ensures heap == old(heap).(made := old(heap).made + {p})
    {
      ghost var serials := set q | q in heap.made && q.MapMade? :: q.serial;
      assert Bound(serials) + 1 !in serials;
      assert MapMade(container, key, Bound(serials) + 1) !in heap.made;
      var serial: nat :| MapMade(container, key, serial) !in heap.made;
      p := MapMade(container, key, serial);
      heap := heap.(made := heap.made + {p});
    }
  }
}
