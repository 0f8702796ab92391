/**
 PersistentBase with the operations of Global and of a copyable Persistent: one
 mutable val_ pointer. MoveGlobalReference keeps the cell, so moves have no effect
 on the heap.
*/
module PersistentHandles {
  import opened Basics
  import opened Cells
  import opened Engine
  import opened HandleModel

  class Handle {
    var val: Slot

    constructor ()
      ensures val == 0
    {
      val := 0;
    }

    // From a Local: a new cell for the same object when the Local is not empty.
    constructor FromLocal(isolate: Isolate, that: Option<Address>)
      modifies isolate
      ensures Held(isolate.heap, val) == HandleModel.ResetLocal(old(isolate.heap), 0, that, val)
      ensures if that.Some? then Free(old(isolate.heap), val) else val == 0
    {
      val := 0;
      new;
      if that.Some? {
        val := isolate.GlobalizeReference(that.value);
      }
    }

    // From another persistent handle: a new cell, no flags.
    constructor FromPersistent(isolate: Isolate, that: Handle)
      modifies isolate
      ensures Held(isolate.heap, val) == HandleModel.ResetPersistent(old(isolate.heap), 0, that.val, val)
      ensures if that.val != 0 then Free(old(isolate.heap), val) else val == 0
    {
      val := 0;
      new;
      if that.val != 0 {
        val := isolate.CopyGlobalReference(that.val);
      }
    }

    // Global(Global&&), and Pass.
    constructor Move(other: Handle)
      modifies other
      ensures val == old(other.val) && other.val == 0
    {
      val := other.val;
      new;
      if other.val != 0 {
        other.val := 0;
      }
    }

    predicate IsEmpty()
      reads this
    {
      val == 0
    }

    method Reset(isolate: Isolate)
      modifies this, isolate
      ensures Held(isolate.heap, val) == HandleModel.Reset(old(isolate.heap), old(val))
      ensures val == 0 && (old(val) == 0 ==> isolate.heap == old(isolate.heap))
      ensures old(val) != 0 ==> isolate.heap.cells == old(isolate.heap.cells) - {old(val)}
      ensures isolate.heap.faulted <==>
        (old(isolate.heap.faulted) || (old(val) != 0 && old(val) !in old(isolate.heap.cells)))
    {
      if IsEmpty() { return; }
      isolate.DisposeGlobal(val);
      val := 0;
    }

    method ResetLocal(isolate: Isolate, other: Option<Address>)
      modifies this, isolate
      ensures Held(isolate.heap, val) == HandleModel.ResetLocal(old(isolate.heap), old(val), other, val)
      ensures other.Some? ==> Free(HandleModel.Reset(old(isolate.heap), old(val)).heap, val)
    {
      Reset(isolate);
      if other.None? { return; }
      val := isolate.GlobalizeReference(other.value);
    }

    // other may be this handle; it is then empty once this one has been reset.
    method ResetPersistent(isolate: Isolate, other: Handle)
      modifies this, isolate
      ensures Held(isolate.heap, val) == HandleModel.ResetPersistent(
        old(isolate.heap), old(val), if other == this then 0 else old(other.val), val)
      ensures val != 0 ==> Free(HandleModel.Reset(old(isolate.heap), old(val)).heap, val)
    {
      Reset(isolate);
      if other.IsEmpty() { return; }
      val := isolate.CopyGlobalReference(other.val);
    }

    // Persistent::Copy, behind the copy constructor and copy assignment.
    method Copy(isolate: Isolate, that: Handle)
      modifies this, isolate
      ensures Held(isolate.heap, val) == HandleModel.ResetPersistent(
        old(isolate.heap), old(val), if that == this then 0 else old(that.val), val)
      ensures val != 0 ==> Free(HandleModel.Reset(old(isolate.heap), old(val)).heap, val)
    {
      Reset(isolate);
      if that.IsEmpty() { return; }
      val := isolate.CopyGlobalReference(that.val);
    }

    method MoveAssign(isolate: Isolate, rhs: Handle)
      modifies this, rhs, isolate
      ensures rhs == this ==> val == old(val) && isolate.heap == old(isolate.heap)
      ensures rhs != this ==> val == old(rhs.val) && rhs.val == 0
      ensures rhs != this ==> isolate.heap == HandleModel.Reset(old(isolate.heap), old(val)).heap
    {
      if this != rhs {
        Reset(isolate);
        if rhs.val != 0 {
          val := rhs.val;
          rhs.val := 0;
        }
      }
    }

    predicate IsWeak(isolate: Isolate)
      reads this, isolate
    {
      val != 0 && Cells.IsWeak(isolate.heap, val)
    }

    method SetWeak(isolate: Isolate, p: Param)
      modifies isolate
      ensures isolate.heap == MakeWeak(old(isolate.heap), val, p)
      ensures val != 0 && val in old(isolate.heap).cells ==> (
        && IsWeak(isolate) && isolate.heap.cells[val].param == Some(p)
        && ObjectOf(isolate.heap, val) == ObjectOf(old(isolate.heap), val)
        && forall s :: s != val ==> ObjectOf(isolate.heap, s) == ObjectOf(old(isolate.heap), s)
      )
    {
      isolate.MakeWeak(val, p);
    }

    method ClearWeak(isolate: Isolate) returns (p: Option<Param>)
      modifies isolate
      ensures isolate.heap == Cells.ClearWeak(old(isolate.heap), val)
      ensures p == if val in old(isolate.heap).cells then old(isolate.heap).cells[val].param else None
      ensures !IsWeak(isolate) && forall s :: ObjectOf(isolate.heap, s) == ObjectOf(old(isolate.heap), s)
    {
      p := isolate.ClearWeak(val);
    }
  }
}
