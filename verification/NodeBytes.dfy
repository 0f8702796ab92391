/**
 The flags byte of a global handle node: its state in the two low bits, one-bit flags
 above them. The accessors write one byte of the node's memory in place.
*/
module NodeBytes {
  // One pointer and three bytes into the node.
  const NODE_FLAGS_OFFSET: nat := 11
  const NODE_STATE_MASK: bv8 := 3

  // 1U << shift, truncated to a byte; shifts past the byte leave nothing.
  function FlagMask(shift: nat): bv8
    requires shift < 32
  {
    if shift < 8 then (1 as bv8) << shift else 0
  }

  function StateOf(byte: bv8): bv8 {
    byte & NODE_STATE_MASK
  }

  function WithState(byte: bv8, value: bv8): bv8 {
    (byte & !NODE_STATE_MASK) | value
  }

  predicate HasFlag(byte: bv8, shift: nat)
    requires shift < 32
  {
    byte & FlagMask(shift) != 0
  }

  function ReplacedBits(byte: bv8, mask: bv8, bits: bv8): bv8 {
    (byte & !mask) | bits
  }

  function WithFlag(byte: bv8, value: bool, shift: nat): bv8
    requires shift < 32
  {
    ReplacedBits(byte, FlagMask(shift), if value then FlagMask(shift) else 0)
  }

  method GetNodeState(node: array<bv8>) returns (state: bv8)
    requires NODE_FLAGS_OFFSET < node.Length
    ensures state == StateOf(node[NODE_FLAGS_OFFSET])
  {
    state := node[NODE_FLAGS_OFFSET] & NODE_STATE_MASK;
  }

  method UpdateNodeState(node: array<bv8>, value: bv8)
    requires NODE_FLAGS_OFFSET < node.Length
    modifies node
    ensures node[..] == old(node[..])[NODE_FLAGS_OFFSET := WithState(old(node[NODE_FLAGS_OFFSET]), value)]
  {
    node[NODE_FLAGS_OFFSET] := (node[NODE_FLAGS_OFFSET] & !NODE_STATE_MASK) | value;
  }

  method UpdateNodeFlag(node: array<bv8>, value: bool, shift: nat)
    requires NODE_FLAGS_OFFSET < node.Length && shift < 32
    modifies node
    ensures node[..] == old(node[..])[NODE_FLAGS_OFFSET := WithFlag(old(node[NODE_FLAGS_OFFSET]), value, shift)]
  {
    hide FlagMask, ReplacedBits;
    var mask := FlagMask(shift);
    node[NODE_FLAGS_OFFSET] := ReplacedBits(node[NODE_FLAGS_OFFSET], mask, if value then mask else 0);
  }

  /**
   Updating the state reads back, and leaves every flag of every byte alone, exactly for
   the four values that fit the state bits; a larger value sets flags.
  */
  lemma StateFits(value: bv8)
    ensures (forall byte: bv8 :: StateOf(WithState(byte, value)) == value) <==> value <= NODE_STATE_MASK
    ensures (forall byte: bv8, shift: nat :: 2 <= shift < 8 ==>
        (HasFlag(WithState(byte, value), shift) <==> HasFlag(byte, shift)))
      <==> value <= NODE_STATE_MASK
  {
    assert StateOf(WithState(0, value)) == value ==> value <= NODE_STATE_MASK;
    if value <= NODE_STATE_MASK {
      forall byte: bv8, shift: nat | 2 <= shift < 8
        ensures HasFlag(WithState(byte, value), shift) <==> HasFlag(byte, shift)
      {
        StateKeepsFlag(byte, value, shift);
      }
    } else {
      var shift := HighFlag(value);
      assert HasFlag(WithState(0, value), shift) && !HasFlag(0, shift);
    }
  }

  function HighFlag(value: bv8): (shift: nat)
    requires value > NODE_STATE_MASK
    ensures 2 <= shift < 8 && HasFlag(value, shift)
  {
    if HasFlag(value, 2) then 2 else if HasFlag(value, 3) then 3 else if HasFlag(value, 4) then 4
    else if HasFlag(value, 5) then 5 else if HasFlag(value, 6) then 6 else 7
  }

  lemma StateKeepsFlag(byte: bv8, value: bv8, shift: nat)
    requires 2 <= shift < 8 && value <= NODE_STATE_MASK
    ensures HasFlag(WithState(byte, value), shift) <==> HasFlag(byte, shift)
  {
  }

  /** A flag update sets that flag, no other flag, and never the state. */
  lemma FlagIndependent(byte: bv8, value: bool, shift: nat, other: nat)
    requires 2 <= shift < 8 && other < 8
    ensures HasFlag(WithFlag(byte, value, shift), other) <==> if other == shift then value else HasFlag(byte, other)
    ensures StateOf(WithFlag(byte, value, shift)) == StateOf(byte)
  {
    Masks(shift, other);
    hide FlagMask;
    Replaced(byte, FlagMask(shift), FlagMask(other), value);
    Replaced(byte, FlagMask(shift), NODE_STATE_MASK, value);
  }

  lemma Masks(shift: nat, other: nat)
    requires 2 <= shift < 8 && other < 8
    ensures FlagMask(shift) != 0 && FlagMask(shift) & NODE_STATE_MASK == 0
    ensures other != shift ==> FlagMask(shift) & FlagMask(other) == 0
  {
  }

  lemma Replaced(byte: bv8, mask: bv8, other: bv8, value: bool)
    requires mask != 0 && (mask & other == 0 || mask == other)
    ensures ReplacedBits(byte, mask, if value then mask else 0) & other
      == if mask & other == 0 then byte & other else if value then other else 0
  {
  }

  /** Updates of the state and of flags commute, so their order never shows. */
  lemma UpdatesCommute(byte: bv8, state: bv8, value: bool, shift: nat)
    requires 2 <= shift < 8 && state <= NODE_STATE_MASK
    ensures WithFlag(WithState(byte, state), value, shift) == WithState(WithFlag(byte, value, shift), state)
  {
  }

  /** A flag is the bit at its shift; shifts past the byte find no flag and set none. */
  lemma FlagIsBit(byte: bv8, value: bool, shift: nat)
    requires shift < 32
    ensures shift < 8 ==> (HasFlag(byte, shift) <==> (byte >> shift) & 1 == 1)
    ensures shift >= 8 ==> !HasFlag(byte, shift) && WithFlag(byte, value, shift) == byte
  {
  }
}
