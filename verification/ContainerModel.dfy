/**
 What the persistent containers do to a cell heap and to their backing map or
 vector of words, as functions. The classes of ValueContainers are proved
 against these functions and the runs of Ownership are built from them.
*/
module ContainerModel {
  import opened Basics
  import opened Cells
  import opened HandleModel

  // kCallbackType together with the container class: a map with strong entries, a
  // PersistentValueMap with weak entries, or a GlobalValueMap with weak entries.
  datatype Kind = Plain | WeakPersistent | WeakGlobal

  datatype Stored = Stored(heap: Heap, impl: map<Key, Slot>, val: Slot)

  // StdMapTraits::Get, with kPersistentContainerNotFound for an absent key.
  function Lookup(impl: map<Key, Slot>, key: Key): Slot {
    if key in impl then impl[key] else 0
  }

  predicate Contains(impl: map<Key, Slot>, key: Key) {
    Lookup(impl, key) != 0
  }

  // The weak or strong annotation SetUnique puts on the handle before storing it.
  function Annotate(h: Heap, kind: Kind, v: Slot, p: Param): Heap {
    if kind.Plain? then AnnotateStrongRetainer(h, v)
    else MakeWeak(h.(made := h.made + {p}), v, p)
  }

  // SetUnique of both map classes; val is the handle returned for the old value.
  function SetUnique(h: Heap, kind: Kind, impl: map<Key, Slot>, key: Key, v: Slot, p: Param): Stored {
    var r := Release(Annotate(h, kind, v, p), !kind.Plain?, Lookup(impl, key));
    Stored(r.heap, impl[key := v], r.val)
  }

  function Remove(h: Heap, kind: Kind, impl: map<Key, Slot>, key: Key): Stored {
    var r := Release(h, !kind.Plain?, Lookup(impl, key));
    Stored(r.heap, impl - {key}, r.val)
  }

  function RemoveWeak(h: Heap, impl: map<Key, Slot>, key: Key): Stored {
    Stored(Reset(h, Lookup(impl, key)).heap, impl - {key}, 0)
  }

  // The first-pass callback for parameter p at the key the traits class recovers from
  // it. In a PersistentValueMap the value goes to Traits::Dispose, which has to reset
  // it, and the data is disposed of; in a GlobalValueMap the data waits for the
  // second pass.
  function FirstPass(h: Heap, kind: Kind, impl: map<Key, Slot>, key: Key, p: Param): Stored {
    if kind.WeakGlobal? then RemoveWeak(h, impl, key) else
      var removed := Remove(h, kind, impl, key);
      Stored(ReturnData(Reset(removed.heap, removed.val).heap, p), removed.impl, 0)
  }

  // PersistentValueVector::Clear: the words are disposed of from the front.
  function DisposeWords(h: Heap, words: seq<Slot>): Heap
    decreases |words|
  {
    if words == [] then h else DisposeWords(Reset(h, words[0]).heap, words[1..])
  }
}
