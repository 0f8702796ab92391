/** The types of fast call arguments and the information kept about a fast function. */
module FastCallTypes {
  datatype BaseType =
    | Void | Bool | Uint8 | Int32Type | Uint32Type | Int64Type | Uint64Type | Float32 | Float64
    | Pointer | V8Value | SeqOneByteString | ApiObject | AnyType
    | CallbackOptions

  datatype SequenceType = Scalar | IsSequence | IsTypedArray | IsArrayBuffer

  datatype CTypeInfo = CTypeInfo(base: BaseType, sequence: SequenceType, flags: bv8)

  // arg_count_ is an unsigned int.
  type ArgInfos = a: seq<CTypeInfo> | |a| < 0x1_0000_0000

  predicate HasOptions(args: ArgInfos) {
    |args| > 0 && args[|args| - 1].base == CallbackOptions
  }

  function ArgumentCount(args: ArgInfos): nat {
    if HasOptions(args) then |args| - 1 else |args|
  }

  /** Only an options argument at the very end is left out of the count. */
  lemma CountedArguments(args: ArgInfos, last: CTypeInfo)
    requires |args| + 1 < 0x1_0000_0000
    ensures ArgumentCount([]) == 0
    ensures ArgumentCount(args + [last]) == if last.base == CallbackOptions then |args| else |args| + 1
  {
    assert (args + [last])[|args|] == last;
  }
}
