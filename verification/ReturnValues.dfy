/**
 ReturnValue: the slot of a callback's implicit arguments that receives the result, set
 and read in place. Two encodings of integers meet here, small integers and numbers on
 the heap.
*/
module ReturnValues {
  import opened Basics
  import opened Tagging

  // The read-only roots the getter uses.
  datatype Roots = Roots(undefined: Word, hole: Word)

  // What the isolate at an address owns: its roots and the numbers allocated on its heap.
  datatype Numbers = Numbers(scheme: Scheme, isolates: map<Word, Roots>, numbers: map<Word, int>)

  // An int32_t or a uint32_t.
  type Number = v: int | -0x8000_0000 <= v < 0x1_0000_0000

  // A free address for a new heap number, which the allocator picks.
  ghost predicate Room(e: Numbers, room: Word) {
    HasHeapObjectTag(room) && room !in e.numbers && forall i :: i in e.isolates ==> e.isolates[i].hole != room
  }

  // Integer::New and Integer::NewFromUnsigned, for a value that is no Smi.
  function AllocateNumber(e: Numbers, value: Number, room: Word): Numbers {
    e.(numbers := e.numbers[room := value])
  }

  // The integer that a tagged word stands for.
  function Decode(e: Numbers, word: Word): Option<int> {
    if HasSmiTag(word) then Some(SmiToInt(e.scheme, word))
    else if word in e.numbers then Some(e.numbers[word])
    else None
  }

  // A number as stored: the engine after it and the word.
  function StoreNumber(e: Numbers, value: Number, room: Word): (Numbers, Word) {
    if value < TWO_TO_31 && IsValidSmi(e.scheme, value) then (e, IntToSmi(e.scheme, value))
    else (AllocateNumber(e, value, room), room)
  }

  /**
   Every int32_t and uint32_t is kept, under either Smi width: the stored word decodes to
   the same integer, and no other word changes its meaning.
  */
  lemma NumberKept(e: Numbers, value: Number, room: Word, other: Word)
    requires Room(e, room)
    ensures var (e', word) := StoreNumber(e, value, room);
      && Decode(e', word) == Some(value)
      && (other != room ==> Decode(e', other) == Decode(e, other))
      && (HasSmiTag(word) <==> SmiMinValue(e.scheme) <= value <= SmiMaxValue(e.scheme))
  {
    hide IsValidSmi, IntToSmi, SmiToInt, SmiMinValue, SmiMaxValue;
    SmiBounds(e.scheme);
    if value < TWO_TO_31 {
      IsValidSmiIsRange(e.scheme, value);
      SmiRoundTrip(e.scheme, value);
    }
  }

  // Get, for the word in the slot: a value not yet set holds the hole.
  function Returned(roots: Roots, word: Word): Word {
    if word == roots.hole then roots.undefined else word
  }

  /**
   Every int32_t and uint32_t set is read back as itself, under either Smi width: the hole,
   which is a heap object, is never taken for a number, nor a number for the hole.
  */
  lemma NumberReadBack(e: Numbers, value: Number, room: Word, isolate: Word)
    requires Room(e, room) && isolate in e.isolates && HasHeapObjectTag(e.isolates[isolate].hole)
    ensures var (e', word) := StoreNumber(e, value, room);
      Decode(e', Returned(e'.isolates[isolate], word)) == Some(value)
  {
    NumberKept(e, value, room, room);
    if value < TWO_TO_31 { SmiRoundTrip(e.scheme, value); }
    hide IsValidSmi, IntToSmi, SmiToInt, Decode;
  }

  // GetReturnValue of the two kinds of callback info: the slot's index, above the default
  // value and the isolate.
  const K_RETURN_VALUE_INDEX: nat := 3
  const K_PROPERTY_RETURN_VALUE_INDEX: nat := 4
  const K_DEFAULT_VALUE_VALUE_INDEX: int := -1
  const K_ISOLATE_VALUE_INDEX: int := -2

  class ReturnValue {
    const args: array<Word>
    const at: nat
    var engine: Numbers

    ghost predicate Valid()
      reads this, args
    {
      2 <= at < args.Length && args[at + K_ISOLATE_VALUE_INDEX] in engine.isolates
    }

    // FunctionCallbackInfo::GetReturnValue and PropertyCallbackInfo::GetReturnValue.
    constructor (implicitArgs: array<Word>, ofProperty: bool, e: Numbers)
      requires implicitArgs.Length == if ofProperty then 7 else 6
      requires implicitArgs[if ofProperty then 2 else 1] in e.isolates
      ensures Valid() && args == implicitArgs && engine == e
      ensures at == if ofProperty then K_PROPERTY_RETURN_VALUE_INDEX else K_RETURN_VALUE_INDEX
    {
      args := implicitArgs;
      at := if ofProperty then K_PROPERTY_RETURN_VALUE_INDEX else K_RETURN_VALUE_INDEX;
      engine := e;
    }

    // Set on a Local, Global or traced handle: None is the empty handle.
    method SetHandle(handle: Option<Word>)
      requires Valid()
      modifies args
      ensures Valid()
      ensures args[..] == old(args[..])[at := match handle case None => old(args[at - 1]) case Some(word) => word]
    {
      if handle.None? {
        args[at] := args[at + K_DEFAULT_VALUE_VALUE_INDEX];
      } else {
        args[at] := handle.value;
      }
    }

    method SetInt32(i: Int32, room: Word)
      requires Valid() && Room(engine, room)
      modifies this`engine, args
      ensures Valid() && engine == StoreNumber(old(engine), i, room).0
      ensures args[..] == old(args[..])[at := StoreNumber(old(engine), i, room).1]
      ensures Decode(engine, args[at]) == Some(i)
    {
      NumberKept(engine, i, room, room);
      hide IsValidSmi, IntToSmi, Decode;
      if IsValidSmi(engine.scheme, i) {
        args[at] := IntToSmi(engine.scheme, i);
        return;
      }
      engine := AllocateNumber(engine, i, room);
      SetHandle(Some(room));
    }

    method SetUint32(i: nat, room: Word)
      requires Valid() && Room(engine, room) && i < TWO_TO_32
      modifies this`engine, args
      ensures Valid() && engine == StoreNumber(old(engine), i, room).0
      ensures args[..] == old(args[..])[at := StoreNumber(old(engine), i, room).1]
      ensures Decode(engine, args[at]) == Some(i)
    {
      NumberKept(engine, i, room, room);
      hide IsValidSmi, IntToSmi, Decode;
      // Bit 31 of i.
      var fitsIntoInt32 := i / TWO_TO_31 % 2 == 0;
      if fitsIntoInt32 {
        ToInt32Near(i);
        SetInt32(ToInt32(i), room);
        return;
      }
      engine := AllocateNumber(engine, i, room);
      SetHandle(Some(room));
    }

    method Get() returns (word: Word)
      requires Valid()
      ensures word == Returned(engine.isolates[args[at - 2]], args[at])
      ensures args[at] == engine.isolates[args[at - 2]].hole ==> word == engine.isolates[args[at - 2]].undefined
      ensures args[at] != engine.isolates[args[at - 2]].hole ==> word == args[at]
    {
      var roots := engine.isolates[args[at + K_ISOLATE_VALUE_INDEX]];
      if args[at] == roots.hole {
        return roots.undefined;
      }
      word := args[at];
    }
  }
}
