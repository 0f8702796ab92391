/**
 Tagging of entries of the external pointer table. The type check and the removal of
 the mark bit are one bitwise and; the tags are chosen so that it fails on a mismatch.
*/
module ExternalPointers {

  // ---- Any number of tag bits: a word is the set of its one bits ----

  /**
   For type tags of equal weight and a pointer clear of tag bits, reading an entry tagged
   t1 with tag t2 gives the pointer exactly if the tags are the same, whether the mark bit
   of the entry is set or has been cleared; otherwise a bit of t1 stays in the result.
  */
  lemma UntagExact(p: set<nat>, mark: nat, t1: set<nat>, t2: set<nat>, marked: bool)
    requires p !! t1 + t2 + {mark} && mark !in t1 + t2 && |t1| == |t2|
    ensures var entry := p + t1 + if marked then {mark} else {};
      && (entry - (t2 + {mark}) == p <==> t1 == t2)
      && (t1 != t2 ==> exists b :: b in t1 && b in entry - (t2 + {mark}))
  {
    if t1 <= t2 {
      EqualWeight(t1, t2);
    } else {
      var b :| b in t1 && b !in t2;
      assert b in p + t1 - (t2 + {mark});
    }
  }

  lemma {:induction false} EqualWeight(t1: set<nat>, t2: set<nat>)
    requires t1 <= t2 && |t1| == |t2|
    ensures t1 == t2
    decreases |t1|
  {
    if b :| b in t1 {
      EqualWeight(t1 - {b}, t2 - {b});
      assert t1 == t1 - {b} + {b} && t2 == t2 - {b} + {b};
    }
  }

  // ---- The 64-bit words of the table ----

  const MARK_BIT: bv64 := 0x4000_0000_0000_0000
  const TAG_MASK: bv64 := 0x40FF_0000_0000_0000

  // The type byte of the tag for any pointer and of a free entry.
  const ANY_TYPE: bv8 := 0xFF

  // The table of type tags.
  predicate IsTypeTag(t: bv8) {
    t == 0x0F || t == 0x17 || t == 0x1B || t == 0x1D || t == 0x1E || t == 0x27 || t == 0x2B
    || t == 0x2D || t == 0x2E || t == 0x33 || t == 0x35 || t == 0x36 || t == 0x39 || t == 0x3A
    || t == 0x3C || t == 0x47 || t == 0x4B || t == 0x4D || t == 0x4E || t == 0x53 || t == 0x55
    || t == 0x56 || t == 0x59 || t == 0x5A || t == 0x5C || t == 0x63 || t == 0x65 || t == 0x66
    || t == 0x69 || t == 0x6A || t == 0x6C || t == 0x71 || t == 0x72 || t == 0x74 || t == 0x78
    || t == 0x87 || t == 0x8B || t == 0x8D || t == 0x8E || t == 0x93 || t == 0x95 || t == 0x96
    || t == 0x99 || t == 0x9A || t == 0x9C || t == 0xA3 || t == 0xA5 || t == 0xA6 || t == 0xA9
    || t == 0xAA || t == 0xAC || t == 0xB1 || t == 0xB2 || t == 0xB4 || t == 0xB8 || t == 0xC3
    || t == 0xC5 || t == 0xC6 || t == 0xC9 || t == 0xCA || t == 0xCC || t == 0xD1 || t == 0xD2
    || t == 0xD4 || t == 0xD8 || t == 0xE1 || t == 0xE2 || t == 0xE4 || t == 0xE8 || t == 0xF0
  }

  function MakeTag(marked: bool, typeTag: bv8): bv64 {
    ((typeTag as bv64) << 48) | if marked then MARK_BIT else 0
  }

  // Between the first and the last shared tag.
  predicate IsSharedExternalPointerType(tag: bv64) {
    MakeTag(true, 0x0F) <= tag <= MakeTag(true, 0x1B)
  }

  function Untag(entry: bv64, tag: bv64): bv64 {
    entry & !tag
  }

  function Bit(t: bv8, mask: bv8): nat {
    if t & mask == 0 then 0 else 1
  }

  function Weight(t: bv8): nat {
    Bit(t, 1) + Bit(t, 2) + Bit(t, 4) + Bit(t, 8) + Bit(t, 16) + Bit(t, 32) + Bit(t, 64) + Bit(t, 128)
  }

  lemma EqualWeightBytes(t1: bv8, t2: bv8)
    requires Weight(t1) == Weight(t2) && t1 & !t2 == 0
    ensures t1 == t2
  {
  }

  lemma UntagWord(p: bv64, t1: bv8, t2: bv8, marked: bool)
    requires p & TAG_MASK == 0
    ensures Untag(p | MakeTag(marked, t1), MakeTag(true, t2)) == p | (((t1 & !t2) as bv64) << 48)
    ensures p | (((t1 & !t2) as bv64) << 48) == p <==> t1 & !t2 == 0
  {
  }

  lemma ReadsExactly(p: bv64, t1: bv8, t2: bv8, marked: bool)
    requires p & TAG_MASK == 0
    ensures Untag(p | MakeTag(marked, t1), MakeTag(true, t2)) == p <==> t1 & !t2 == 0
  {
    UntagWord(p, t1, t2, marked);
  }

  /** The same check on 64-bit entries, for any two type tags of equal weight. */
  lemma UntagWordExact(p: bv64, t1: bv8, t2: bv8, marked: bool)
    requires p & TAG_MASK == 0 && Weight(t1) == Weight(t2)
    ensures Untag(p | MakeTag(marked, t1), MakeTag(true, t2)) == p <==> t1 == t2
  {
    ReadsExactly(p, t1, t2, marked);
    hide Untag, MakeTag;
    if t1 & !t2 == 0 {
      EqualWeightBytes(t1, t2);
    } else {
      assert t1 == t2 ==> t1 & !t2 == 0;
    }
  }

  /** The tag for any pointer reads every entry; a free entry fails every other check. */
  lemma SpecialTags(p: bv64, t: bv8, marked: bool)
    requires p & TAG_MASK == 0
    ensures Untag(p | MakeTag(marked, t), MakeTag(true, ANY_TYPE)) == p
    ensures Untag(p | MakeTag(false, ANY_TYPE), MakeTag(true, t)) == p <==> t == ANY_TYPE
  {
    ReadsExactly(p, t, ANY_TYPE, marked);
    ReadsExactly(p, ANY_TYPE, t, false);
    hide Untag, MakeTag;
    AnyTypeBits(t);
  }

  // The type byte of an entry that compaction of the table evacuates; its mark bit is set.
  const EVACUATION_TYPE: bv8 := 0xE7

  /**
   An evacuation entry passes no check for a type of the table. Read as one, an entry of the
   table gives its pointer exactly if its type bits are among those of the evacuation tag.
  */
  lemma EvacuationEntryFails(p: bv64, t: bv8, marked: bool)
    requires p & TAG_MASK == 0 && IsTypeTag(t)
    ensures Untag(p | MakeTag(marked, EVACUATION_TYPE), MakeTag(true, t)) != p
    ensures Untag(p | MakeTag(marked, t), MakeTag(true, EVACUATION_TYPE)) == p <==> t & !EVACUATION_TYPE == 0
  {
    ReadsExactly(p, EVACUATION_TYPE, t, marked);
    ReadsExactly(p, t, EVACUATION_TYPE, marked);
    hide Untag, MakeTag;
    EvacuationBits(t);
  }

  lemma EvacuationBits(t: bv8)
    requires IsTypeTag(t)
    ensures EVACUATION_TYPE & !t != 0
  {
  }

  lemma AnyTypeBits(t: bv8)
    ensures t & !ANY_TYPE == 0
    ensures ANY_TYPE & !t == 0 <==> t == ANY_TYPE
  {
  }

  /** The table holds every byte of weight four, and no other. */
  lemma TableComplete(t: bv8)
    ensures IsTypeTag(t) <==> Weight(t) == 4
  {
  }

  /** The range test on tags picks out exactly the first three entries of the table. */
  lemma SharedExact(t: bv8)
    requires IsTypeTag(t)
    ensures IsSharedExternalPointerType(MakeTag(true, t)) <==> t == 0x0F || t == 0x17 || t == 0x1B
  {
  }

  // The handle in the object's field is an index shifted left; the tag picks the table.
  function EntryIndex(handle: bv32): bv32 {
    handle >> 5
  }

  function ReadExternalPointerField(sharedTable: seq<bv64>, isolateTable: seq<bv64>, handle: bv32, tag: bv64): bv64
    requires EntryIndex(handle) as nat < |sharedTable| && EntryIndex(handle) as nat < |isolateTable|
  {
    var table := if IsSharedExternalPointerType(tag) then sharedTable else isolateTable;
    Untag(table[EntryIndex(handle) as nat], tag)
  }

  /**
   Reading with a type tag gives the pointer stored in the table of that type exactly if
   it was stored under that type, whatever the collector did to its mark bit.
  */
  lemma ReadChecksType(
    sharedTable: seq<bv64>, isolateTable: seq<bv64>, handle: bv32, p: bv64, stored: bv8, wanted: bv8, marked: bool)
    requires EntryIndex(handle) as nat < |sharedTable| && EntryIndex(handle) as nat < |isolateTable|
    requires p & TAG_MASK == 0 && IsTypeTag(stored) && IsTypeTag(wanted)
    requires var table := if wanted in {0x0F, 0x17, 0x1B} then sharedTable else isolateTable;
      table[EntryIndex(handle) as nat] == p | MakeTag(marked, stored)
    ensures ReadExternalPointerField(sharedTable, isolateTable, handle, MakeTag(true, wanted)) == p <==>
      stored == wanted
  {
    TableComplete(stored);
    TableComplete(wanted);
    SharedExact(wanted);
    UntagWordExact(p, stored, wanted, marked);
    hide Untag, MakeTag, IsTypeTag, Weight, IsSharedExternalPointerType, EntryIndex;
  }

  // The number of entries of a table.
  const MAX_EXTERNAL_POINTERS: bv32 := 0x800_0000

  /** The handle of an entry leads back to it, and no handle leads out of the table. */
  lemma IndexInTable(i: bv32, handle: bv32)
    ensures i < MAX_EXTERNAL_POINTERS ==> EntryIndex(i << 5) == i
    ensures EntryIndex(handle) < MAX_EXTERNAL_POINTERS
  {
  }

  /**
   The handle of entry i reads entry i: it gives the pointer stored there exactly if it was
   stored under the wanted type.
  */
  lemma ReadsEntry(
    sharedTable: seq<bv64>, isolateTable: seq<bv64>, i: bv32, p: bv64, stored: bv8, wanted: bv8, marked: bool)
    requires i < MAX_EXTERNAL_POINTERS && i as nat < |sharedTable| && i as nat < |isolateTable|
    requires p & TAG_MASK == 0 && IsTypeTag(stored) && IsTypeTag(wanted)
    requires var table := if wanted in {0x0F, 0x17, 0x1B} then sharedTable else isolateTable;
      table[i as nat] == p | MakeTag(marked, stored)
    ensures EntryIndex(i << 5) == i
    ensures ReadExternalPointerField(sharedTable, isolateTable, i << 5, MakeTag(true, wanted)) == p <==>
      stored == wanted
  {
    IndexInTable(i, i << 5);
    hide Untag, MakeTag, IsTypeTag, IsSharedExternalPointerType, EntryIndex, ReadExternalPointerField;
    ReadChecksType(sharedTable, isolateTable, i << 5, p, stored, wanted, marked);
  }
}
