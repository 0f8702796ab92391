/**
 Small integers, compressed pointers and packed node bytes. Machine words are integers
 with their width written out; C++ casts and shifts wrap as they do on 64-bit two's
 complement.
*/
module Tagging {
  const TWO_TO_31: int := 0x8000_0000
  const TWO_TO_32: int := 0x1_0000_0000
  const TWO_TO_63: int := 0x8000_0000_0000_0000
  const TWO_TO_64: int := 0x1_0000_0000_0000_0000

  // A uintptr_t, an intptr_t and an int.
  type Word = w: int | 0 <= w < 0x1_0000_0000_0000_0000
  type Intptr = v: int | -0x8000_0000_0000_0000 <= v < 0x8000_0000_0000_0000
  type Int32 = v: int | -0x8000_0000 <= v < 0x8000_0000

  // static_cast to uintptr_t, intptr_t, uint32_t and int32_t.
  function ToWord(v: int): Word { v % TWO_TO_64 }
  function ToIntptr(v: int): Intptr { (v + TWO_TO_63) % TWO_TO_64 - TWO_TO_63 }
  function ToUint32(v: int): nat { v % TWO_TO_32 }
  function ToInt32(v: int): Int32 { (v + TWO_TO_31) % TWO_TO_32 - TWO_TO_31 }

  // The casts, without remainders, within one wrap of their range.
  lemma ToWordNear(v: int)
    requires -TWO_TO_64 <= v < 2 * TWO_TO_64
    ensures ToWord(v) == if v < 0 then v + TWO_TO_64 else if v < TWO_TO_64 then v else v - TWO_TO_64
  {
  }

  lemma ToIntptrNear(v: int)
    requires -TWO_TO_64 <= v < TWO_TO_64
    ensures ToIntptr(v) == if v < -TWO_TO_63 then v + TWO_TO_64 else if v < TWO_TO_63 then v else v - TWO_TO_64
  {
  }

  lemma ToInt32Near(v: int)
    requires -TWO_TO_32 <= v < TWO_TO_32
    ensures ToInt32(v) == if v < -TWO_TO_31 then v + TWO_TO_32 else if v < TWO_TO_31 then v else v - TWO_TO_32
  {
  }

  // The remainder of q * m + r.
  lemma ModOf(v: int, m: int, q: int, r: int)
    requires 0 <= r < m && v == q * m + r
    ensures v % m == r && v / m == q
  {
    var d := q - v / m;
    assert d * m == v % m - r;
    assert d >= 1 ==> d * m >= m;
    assert d <= -1 ==> d * m <= -m;
  }

  // ---- Smis ----

  // SmiTagging<4>, with 31-bit values, and SmiTagging<8>, with 32-bit values.
  datatype Scheme = Smi31 | Smi32

  // 2 to the power kSmiTagSize + kSmiShiftSize.
  function ShiftFactor(s: Scheme): int { if s.Smi31? then 2 else TWO_TO_32 }

  // kUintptrAllBitsSet << (kSmiValueSize - 1), as a signed value.
  function SmiMinValue(s: Scheme): Intptr {
    ToIntptr(ToWord((TWO_TO_64 - 1) * (if s.Smi31? then 0x4000_0000 else TWO_TO_31)))
  }

  function SmiMaxValue(s: Scheme): Intptr { -(SmiMinValue(s) + 1) }

  function IsValidSmi(s: Scheme, value: Intptr): bool {
    match s
    case Smi31 =>
      ToWord(ToWord(value) - ToWord(SmiMinValue(s))) <= ToWord(ToWord(SmiMaxValue(s)) - ToWord(SmiMinValue(s)))
    case Smi32 => value == ToInt32(value)
  }

  // kSmiTag is 0, so or-ing it in changes nothing.
  function IntToSmi(s: Scheme, value: Int32): Word {
    ToWord(ToWord(value) * ShiftFactor(s))
  }

  // Dafny's division by a positive constant rounds down, like a sign-extending >>.
  function SmiToInt(s: Scheme, value: Word): Int32 {
    match s
    case Smi31 => ToInt32(ToUint32(value)) / 2
    case Smi32 => ToInt32(ToIntptr(value) / TWO_TO_32)
  }

  // The two tag bits are the low bits, so the mask takes the remainder modulo 4.
  predicate HasHeapObjectTag(value: Word) {
    value % 4 == 1
  }

  predicate HasSmiTag(value: Word) {
    value % 2 == 0
  }

  lemma SmiBounds(s: Scheme)
    ensures SmiMinValue(s) == if s.Smi31? then -0x4000_0000 else -0x8000_0000
    ensures SmiMaxValue(s) == if s.Smi31? then 0x3FFF_FFFF else 0x7FFF_FFFF
  {
    var shift := if s.Smi31? then 0x4000_0000 else TWO_TO_31;
    assert (TWO_TO_64 - 1) * shift == (shift - 1) * TWO_TO_64 + (TWO_TO_64 - shift);
    ModOf((TWO_TO_64 - 1) * shift, TWO_TO_64, shift - 1, TWO_TO_64 - shift);
    ToIntptrNear(TWO_TO_64 - shift);
  }

  /** The wrap-around test is the signed range test, on every intptr_t. */
  lemma IsValidSmiIsRange(s: Scheme, value: Intptr)
    ensures IsValidSmi(s, value) <==> SmiMinValue(s) <= value <= SmiMaxValue(s)
  {
    hide ToWord, SmiMinValue, SmiMaxValue;
    SmiBounds(s);
    if s.Smi31? {
      ToWordNear(value);
      ToWordNear(SmiMinValue(s));
      ToWordNear(SmiMaxValue(s));
      ToWordNear(ToWord(value) - ToWord(SmiMinValue(s)));
      ToWordNear(ToWord(SmiMaxValue(s)) - ToWord(SmiMinValue(s)));
    }
  }

  lemma IntToSmiIs(s: Scheme, value: Int32)
    ensures IntToSmi(s, value) == ToWord(value * ShiftFactor(s))
    ensures IntToSmi(s, value) == if value < 0 then value * ShiftFactor(s) + TWO_TO_64 else value * ShiftFactor(s)
  {
    var f := ShiftFactor(s);
    ToWordNear(value);
    if value < 0 {
      ModOf((value + TWO_TO_64) * f, TWO_TO_64, f - 1, value * f + TWO_TO_64);
      ToWordNear(value * f);
    }
  }

  /** An int survives encoding exactly if it is a valid Smi, under either scheme. */
  lemma SmiRoundTrip(s: Scheme, value: Int32)
    ensures SmiToInt(s, IntToSmi(s, value)) == value <==> IsValidSmi(s, value)
    ensures HasSmiTag(IntToSmi(s, value)) && !HasHeapObjectTag(IntToSmi(s, value))
  {
    SmiDecodes(s, value);
    IsValidSmiIsRange(s, value);
    SmiBounds(s);
    IntToSmiIs(s, value);
    hide IntToSmi, SmiToInt, IsValidSmi, SmiMinValue, SmiMaxValue;
    var k := if value < 0 then value + TWO_TO_63 else value;
    var w := IntToSmi(s, value);
    if s.Smi31? {
      assert w == 2 * k;
    } else {
      assert w == 4 * (value * 0x4000_0000 + if value < 0 then TWO_TO_63 / 2 else 0);
    }
  }

  // What decoding makes of the encoding of any int: the value modulo the Smi width.
  lemma SmiDecodes(s: Scheme, value: Int32)
    ensures SmiToInt(s, IntToSmi(s, value)) ==
      if s.Smi32? then value else
      if value < -0x4000_0000 then value + TWO_TO_31 else if value < 0x4000_0000 then value else value - TWO_TO_31
  {
    IntToSmiIs(s, value);
    hide IntToSmi, ToInt32, ToIntptr, ToUint32;
    var w := IntToSmi(s, value);
    if s.Smi31? {
      Uint32Of(w, if value < 0 then TWO_TO_32 - 1 else 0, if value < 0 then 2 * value + TWO_TO_32 else 2 * value);
      ToInt32Near(ToUint32(w));
    } else {
      ToIntptrNear(w);
      ToInt32Near(value);
    }
  }

  lemma Uint32Of(v: int, q: int, r: int)
    requires 0 <= r < TWO_TO_32 && v == q * TWO_TO_32 + r
    ensures ToUint32(v) == r
  {
    ModOf(v, TWO_TO_32, q, r);
  }

  // The bits of a word that a tagged field of the scheme keeps, and its encoding of a Smi.
  function TaggedPart(s: Scheme, word: Word): int {
    if s.Smi31? then ToUint32(word) else word
  }

  /** Decoding loses nothing: re-encoding gives back the tagged part of the word. */
  lemma SmiReencode(s: Scheme, word: Word)
    requires word % ShiftFactor(s) == 0
    ensures IsValidSmi(s, SmiToInt(s, word))
    ensures TaggedPart(s, IntToSmi(s, SmiToInt(s, word))) == TaggedPart(s, word)
  {
    var v, part := SmiToInt(s, word), TaggedPart(s, word);
    SmiBounds(s);
    IsValidSmiIsRange(s, v);
    IntToSmiIs(s, v);
    if s.Smi31? {
      Smi31Word(word);
      hide IntToSmi, IsValidSmi, SmiMinValue, SmiMaxValue, ToWord, ToUint32, SmiToInt;
      Uint32Of(IntToSmi(s, v), if v < 0 then TWO_TO_32 - 1 else 0, part);
    } else {
      hide IntToSmi, IsValidSmi, SmiMinValue, SmiMaxValue, ToWord, ToIntptr, ToInt32;
      ToIntptrNear(word);
      var h := word / TWO_TO_32;
      assert word == h * TWO_TO_32;
      ModOf(ToIntptr(word), TWO_TO_32, if word < TWO_TO_63 then h else h - TWO_TO_32, 0);
      ToInt32Near(ToIntptr(word) / TWO_TO_32);
    }
  }

  lemma Smi31Word(word: Word)
    requires word % 2 == 0
    ensures var v, part := SmiToInt(Smi31, word), ToUint32(word);
      -0x4000_0000 <= v <= 0x3FFF_FFFF && part == if v < 0 then 2 * v + TWO_TO_32 else 2 * v
  {
    assert ToUint32(word) % 2 == 0;
    ToInt32Near(ToUint32(word));
    hide ToInt32, ToUint32;
  }

  // ---- Pointer compression ----

  // addr & -(1 << 32)
  function CageBase(addr: Word): Word {
    addr - addr % TWO_TO_32
  }

  function Decompress(heapObject: Word, value: nat): Word
    requires value < TWO_TO_32
  {
    ToWord(CageBase(heapObject) + value)
  }

  /**
   Decompressing the low half of an address from another on-heap address gives the
   address back exactly if the two share a cage; in any case the result lies in the cage
   of the address decompressed from.
  */
  lemma DecompressExact(heapObject: Word, addr: Word)
    ensures Decompress(heapObject, ToUint32(addr)) == addr <==> CageBase(addr) == CageBase(heapObject)
    ensures CageBase(Decompress(heapObject, ToUint32(addr))) == CageBase(heapObject)
    ensures ToUint32(Decompress(heapObject, ToUint32(addr))) == ToUint32(addr)
  {
  }

  /**
   A field holding a 31-bit Smi reads the same through ReadTaggedPointerField, which adds
   the cage base, and ReadTaggedSignedField, which does not.
  */
  lemma SmiThroughEitherPath(heapObject: Word, value: nat)
    requires value < TWO_TO_32
    ensures SmiToInt(Smi31, Decompress(heapObject, value)) == SmiToInt(Smi31, value)
    ensures HasSmiTag(Decompress(heapObject, value)) <==> HasSmiTag(value)
    ensures HasHeapObjectTag(Decompress(heapObject, value)) <==> HasHeapObjectTag(value)
  {
    var q := heapObject / TWO_TO_32;
    assert Decompress(heapObject, value) == q * TWO_TO_32 + value;
    Uint32Of(Decompress(heapObject, value), q, value);
    Uint32Of(value, 0, value);
    ModOf(Decompress(heapObject, value), 2, q * TWO_TO_31 + value / 2, value % 2);
    ModOf(Decompress(heapObject, value), 4, q * 0x4000_0000 + value / 4, value % 4);
    hide ToInt32, ToUint32, Decompress;
  }

  // ---- Instance type ranges ----

  const K_JS_SPECIAL_API_OBJECT_TYPE := 0x410
  const K_JS_OBJECT_TYPE := 0x421
  const K_LAST_JS_API_OBJECT_TYPE := 0x80A

  // The unsigned subtraction folds two comparisons into one.
  predicate CanHaveInternalField(instanceType: Int32) {
    instanceType == K_JS_SPECIAL_API_OBJECT_TYPE
    || ToUint32(ToUint32(instanceType) - ToUint32(K_JS_OBJECT_TYPE))
      <= ToUint32(K_LAST_JS_API_OBJECT_TYPE - K_JS_OBJECT_TYPE)
  }

  lemma CanHaveInternalFieldIsRange(instanceType: Int32)
    ensures CanHaveInternalField(instanceType) <==>
      instanceType == 0x410 || 0x421 <= instanceType <= 0x80A
  {
  }

  /** Where an encoding keeps the value: above the tag bit, or in the upper half of the word. */
  lemma SmiLayout(value: Int32)
    ensures ToUint32(IntToSmi(Smi31, value)) == 2 * value % TWO_TO_32
    ensures ToUint32(IntToSmi(Smi32, value)) == 0 && IntToSmi(Smi32, value) / TWO_TO_32 == ToUint32(value)
  {
    IntToSmiIs(Smi31, value);
    IntToSmiIs(Smi32, value);
    hide IntToSmi, ToWord;
    var q := if value < 0 then TWO_TO_32 - 1 else 0;
    var r := if value < -TWO_TO_31 / 2 then 2 * value + TWO_TO_32 else 2 * value;
    ModOf(IntToSmi(Smi32, value), TWO_TO_32, if value < 0 then value + TWO_TO_32 else value, 0);
    ModOf(value, TWO_TO_32, if value < 0 then -1 else 0, if value < 0 then value + TWO_TO_32 else value);
    if value < 0 { ModPlus(2 * value, q + 1); }
  }

  lemma ModPlus(v: int, q: int)
    ensures (v + q * TWO_TO_32) % TWO_TO_32 == v % TWO_TO_32
  {
    ModOf(v + q * TWO_TO_32, TWO_TO_32, v / TWO_TO_32 + q, v % TWO_TO_32);
  }

  /** Of the words tagged onto an aligned address, the tag 1 alone means a heap object. */
  lemma HeapObjectTagOnly(address: Word, tag: nat)
    requires address % 4 == 0 && tag < 4
    ensures HasHeapObjectTag(address + tag) <==> tag == 1
    ensures HasSmiTag(address + tag) <==> tag % 2 == 0
  {
    var q := address / 4;
    ModOf(address + tag, 4, q, tag);
    ModOf(address + tag, 2, 2 * q + tag / 2, tag % 2);
  }
}
