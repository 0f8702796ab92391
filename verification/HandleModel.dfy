/**
 What PersistentBase, Persistent and Global do to a cell heap and to the val_
 pointer of the handle, as functions. The classes of PersistentHandles are
 proved against these functions and the runs of Ownership are built from them.
*/
module HandleModel {
  import opened Basics
  import opened Cells

  // The heap and the val_ of one handle after an operation on it.
  datatype Held = Held(heap: Heap, val: Slot)

  function Reset(h: Heap, val: Slot): Held {
    if val == 0 then Held(h, 0) else Held(DisposeGlobal(h, val), 0)
  }

  // Reset(isolate, Local): an empty Local is None; s is the slot the allocator picks.
  function ResetLocal(h: Heap, val: Slot, other: Option<Address>, s: Slot): Held {
    var r := Reset(h, val);
    if other.None? then r else Held(GlobalizeReference(r.heap, other.value, s), s)
  }

  // Reset(isolate, PersistentBase), where other is what the other handle's val_ holds
  // once this handle has been reset. GlobalizeReference reads the object through it.
  function ResetPersistent(h: Heap, val: Slot, other: Slot, s: Slot): Held {
    var r := Reset(h, val);
    if other == 0 then r else Held(CopyGlobalReference(r.heap, other, s), s)
  }

  // PersistentValueMapBase::Release: the word v becomes an owning handle, and a weak
  // callback still pending on it is called off and its data disposed of.
  function Release(h: Heap, weak: bool, v: Slot): Held {
    if weak && v != 0 && IsWeak(h, v) then
      var cleared := ClearWeak(h, v);
      Held(if h.cells[v].param.Some? then ReturnData(cleared, h.cells[v].param.value) else cleared, v)
    else Held(h, v)
  }
}
