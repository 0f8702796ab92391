/**
 HandleHelper::EqualHandles across local, persistent and traced handles, and the
 operations that make a handle for the object of another.
*/
module HandleEquality {
  import opened Cells

  datatype HandleKind = Local | Persistent | Traced

  // The cells of the handle scopes, of the global handles and of the traced handles.
  datatype Storage = Storage(cells: map<(HandleKind, Slot), Address>)

  // A handle of any kind; slot 0 is the empty handle.
  datatype AnyHandle = AnyHandle(kind: HandleKind, slot: Slot)

  predicate IsEmpty(h: AnyHandle) {
    h.slot == 0
  }

  predicate Usable(st: Storage, h: AnyHandle) {
    IsEmpty(h) || (h.kind, h.slot) in st.cells
  }

  function AddressOf(st: Storage, h: AnyHandle): Address
    requires Usable(st, h) && !IsEmpty(h)
  {
    st.cells[(h.kind, h.slot)]
  }

  predicate EqualHandles(st: Storage, lhs: AnyHandle, rhs: AnyHandle)
    requires Usable(st, lhs) && Usable(st, rhs)
  {
    if IsEmpty(lhs) then IsEmpty(rhs)
    else if IsEmpty(rhs) then false
    else AddressOf(st, lhs) == AddressOf(st, rhs)
  }

  /** Equality of handles is an equivalence, whatever kinds are mixed. */
  lemma EqualHandlesEquivalence(st: Storage, a: AnyHandle, b: AnyHandle, c: AnyHandle)
    requires Usable(st, a) && Usable(st, b) && Usable(st, c)
    ensures EqualHandles(st, a, a)
    ensures EqualHandles(st, a, b) <==> EqualHandles(st, b, a)
    ensures EqualHandles(st, a, b) && EqualHandles(st, b, c) ==> EqualHandles(st, a, c)
  {
  }

  // The collector moves objects and updates every cell.
  function Moved(st: Storage, reloc: map<Address, Address>): Storage
    requires forall c :: c in st.cells ==> st.cells[c] in reloc
  {
    Storage(map c | c in st.cells :: reloc[st.cells[c]])
  }

  ghost predicate InjectiveOn(st: Storage, reloc: map<Address, Address>)
    requires forall c :: c in st.cells ==> st.cells[c] in reloc
  {
    forall c, d :: c in st.cells && d in st.cells && reloc[st.cells[c]] == reloc[st.cells[d]] ==>
      st.cells[c] == st.cells[d]
  }

  /**
   A moving collector leaves every comparison between handles as it was exactly if it
   never moves two objects in use to the same place.
  */
  lemma MovingKeepsComparisons(st: Storage, reloc: map<Address, Address>)
    requires forall c :: c in st.cells ==> c.1 != 0 && st.cells[c] in reloc
    ensures InjectiveOn(st, reloc) <==>
      forall a, b :: Usable(st, a) && Usable(st, b) ==>
        (EqualHandles(Moved(st, reloc), a, b) <==> EqualHandles(st, a, b))
  {
    if forall a, b :: Usable(st, a) && Usable(st, b) ==>
        (EqualHandles(Moved(st, reloc), a, b) <==> EqualHandles(st, a, b))
    {
      forall c, d | c in st.cells && d in st.cells && reloc[st.cells[c]] == reloc[st.cells[d]]
        ensures st.cells[c] == st.cells[d]
      {
        var a, b := AnyHandle(c.0, c.1), AnyHandle(d.0, d.1);
        assert (c.0, c.1) == c && (d.0, d.1) == d;
        assert Usable(st, a) && Usable(st, b);
        assert EqualHandles(Moved(st, reloc), a, b);
      }
    }
  }

  // Local::New, PersistentBase::New and BasicTracedReference::New on another handle: empty
  // for an empty one, otherwise a new cell of the wanted kind with the same object.
  function NewFrom(st: Storage, kind: HandleKind, that: AnyHandle, s: Slot): (r: (Storage, AnyHandle))
    requires Usable(st, that)
  {
    if IsEmpty(that) then (st, AnyHandle(kind, 0))
    else (st.(cells := st.cells[(kind, s) := AddressOf(st, that)]), AnyHandle(kind, s))
  }

  /** A handle made from another equals it, and comparisons of existing handles stay. */
  lemma NewFromEqual(st: Storage, kind: HandleKind, that: AnyHandle, s: Slot, a: AnyHandle, b: AnyHandle)
    requires Usable(st, that) && s != 0 && (kind, s) !in st.cells && Usable(st, a) && Usable(st, b)
    ensures var (st', h) := NewFrom(st, kind, that, s);
      && Usable(st', h) && Usable(st', that) && EqualHandles(st', h, that)
      && Usable(st', a) && Usable(st', b)
      && (EqualHandles(st', a, b) <==> EqualHandles(st, a, b))
      && (EqualHandles(st', h, a) <==> EqualHandles(st, that, a))
  {
  }

  // The object a handle refers to, if it is not empty.
  function ReferentOf(st: Storage, h: AnyHandle): set<Address>
    requires Usable(st, h)
  {
    if h.slot == 0 then {} else {st.cells[(h.kind, h.slot)]}
  }

  /** Handles are equal exactly if both are empty or both refer to one object. */
  lemma EqualHandlesMeans(st: Storage, a: AnyHandle, b: AnyHandle)
    requires Usable(st, a) && Usable(st, b)
    ensures EqualHandles(st, a, b) <==> ReferentOf(st, a) == ReferentOf(st, b)
  {
    if a.slot != 0 && b.slot != 0 {
      assert AddressOf(st, a) in ReferentOf(st, a) && AddressOf(st, b) in ReferentOf(st, b);
    }
  }
}
