# Handles, tags and fast calls of the V8 headers

The V8 headers in `include/v8` keep real code inline: handles that own storage cells of the
engine, containers that keep such handles as plain machine words, arithmetic on tagged words,
and the compile-time builder for fast function calls. This project models that code and proves
what its comments promise.

* **Cells and handles** (`Cells`, `Engine`, `HandleModel`, `PersistentHandles`). A heap of
  storage cells, each with an object, a weak state and callback data. The engine's own functions
  are not in the headers, so they appear as contracts on this heap; one applied to a dead cell
  sets a `faulted` flag. The handle class changes `val` in place, and each of its methods is
  proved against a function of `HandleModel`.
* **Containers** (`ContainerModel`, `MapOwnership`, `Traces`, `CallbackData`, `ClearSteps`,
  `ValueContainers`). The maps and the vector over words.
  The map class contains `Clear` in full, with an embedder whose `Dispose` may insert, overwrite,
  remove, keep values and clear again while the traversal is under way. The map records its calls
  as events, and `Traces` replays them against what the embedder does.
* **Runs** (`Ownership`, `LinearOwnership`, `WeakCallbacks`, `RunTheorems`, `ValueSemantics`). A
  state machine whose steps are the same functions, interleaved in any order with a collector
  that moves objects, kills weakly held ones and delivers first and second passes. `Reachable`
  states are those at the end of any run from empty containers.
* **Traced handles and equality** (`TracedModel`, `TracedHandles`, `HandleEquality`).
* **Words** (`Tagging`, `ExternalPointers`, `NodeBytes`, `ReturnValues`). Small integers in both
  widths, compressed pointers, type tags, node bytes, and the slot for return values.
* **Fast calls** (`FastCallTypes`, `OverloadResolution`, `Signatures`).

Two promises turn out not to hold of the code on every input, and one writer relies on its
callers. Each has the exact condition under which it keeps its promise and an input that breaks it:

* `GetOverloadResolution` keeps the first differing position in an `int`. Two functions that
  differ only at positions from 2 to the 31 on are taken for resolvable
  (`WrongExactly`, `ExactUpTo`, `LateDifferencesMissed`).
* The assertion that a fast function has one options parameter at most compares a plain type with
  builder types and never counts any (`OptionsUnchecked`, `OptionsCheckMeetsIntent`,
  `TwoOptionsAccepted`).
* `UpdateNodeState` ors its argument in unmasked; values above 3 set flags (`StateFits`).

Assigning a persistent handle to itself by copy empties it, because the code resets first; the
model keeps that (`CopyKeepsObject`). Data of a dying map entry is returned once only if the collector has taken the
node out of the weak state first (`NodeStateDecides`), which the runs assume.

## Model

| member | source | states |
|---|---|---|
| RunTheorems.LinearOverRuns | include/v8/v8-persistent-handle.h:464-593 | In every reachable state no operation ever hit a dead cell, every pointer held in a handle, map, vector or half-finished `Clear` is to a live cell, no two places hold the same cell, and every live cell is held: no double free, no dangling owner, no leak |
| LinearOwnership.StepInverse | include/v8/v8-util.h:304-333 | Each of the 19 kinds of step turns a naming of every live cell's one owner into such a naming for the next state |
| LinearOwnership.VectorClearInverse | include/v8/v8-util.h:628-635 | Clearing a vector from any position disposes of each remaining element's cell once and of no other owner's cell |
| LinearOwnership.MapSetInverse | include/v8/v8-util.h:391-407 | Storing passes the cell from the handle to the entry and the displaced cell from the entry to the returned handle |
| LinearOwnership.FirstPassKeys | include/v8/v8-util.h:420-430 | A first pass disposes of the cell stored at its key and of no other, whichever kind of map it is |
| RunTheorems.TargetingOverRuns | include/v8/v8-util.h:319-333 | In every reachable state a cell that still carries the callback of a map for a key is that map's current entry at that key, or sits in a `Clear` of that map that has not reached it |
| RunTheorems.FirstPassExact | include/v8/v8-util.h:496-510 | A first pass finds the dying cell at its key, disposes of that cell only and empties that entry only; every other place keeps its pointer |
| RunTheorems.DataOverRuns | include/v8/v8-util.h:391-430 | Each datum made by `WeakCallbackParameter` is, in every reachable state, on exactly one live cell, or due in one second pass, or already disposed of exactly once; nothing else is ever disposed of |
| RunTheorems.FirstPassReady | include/v8/v8-util.h:496-504 | Whatever first passes have run, every pending one can run next: a container's finds its cell live and its map and key recoverable, any other belongs to a handle variable |
| RunTheorems.FirstPasses | include/v8/v8-util.h:496-510 | Any order of first passes that leaves none pending disposes of exactly the pending cells, schedules one second pass per `GlobalValueMap` entry and returns the data of each `PersistentValueMap` entry, with callbacks of weak handles among them |
| RunTheorems.TwoPassCollection | include/v8/v8-util.h:496-510 | The same from the moment any set of weakly held objects, of map entries and of handles, dies together: as many passes as dead cells, exactly those cells gone, one second pass or one returned datum for each map entry |
| RunTheorems.SecondPassOnce | include/v8/v8-weak-callback-info.h:39-45 | A second pass runs after all first passes, when no cell carries its parameter; it disposes of the datum for the first time and cannot run again |
| RunTheorems.NodeStateDecides | include/v8/v8-util.h:319-327 | A dying entry's datum is disposed of once by its callback if and only if the node is no longer weak then |
| RunTheorems.MidClearMisses | include/v8/v8-util.h:218-230 | In the middle of a `Clear` the key does not lead to the swapped-out cell, so a first pass then would miss it |
| RunTheorems.PlainKeepsCells | include/v8/v8-util.h:319-327 | Storing in, removing from and handing out of a map with strong entries changes no cell: a handle the embedder made weak comes back as weak as it went in |
| RunTheorems.FlagStepsExact | include/v8/v8-persistent-handle.h:515-541 | Making a handle weak marks its cell, and only its cell, with the embedder's callback; calling it off makes it strong; what it refers to stays |
| RunTheorems.ReferenceStability | include/v8/v8-util.h:275-287 | A reference goes on equalling the word stored at its key, over a live cell, if and only if the step is not one the comment lists for that key |
| RunTheorems.ReferenceOverRuns | include/v8/v8-util.h:275-287 | The same over any run of such steps on other keys and other containers |
| WeakCallbacks.RunInv | include/v8/v8-util.h:319-333 | Ownership, targeting, pending callbacks and accounting of data together are kept by any run |
| WeakCallbacks.FirstPassHits | include/v8/v8-util.h:420-430 | The pending cell is the entry of its map at the key recovered from its parameter |
| ValueSemantics.RunRefinesValues | include/v8/v8-util.h:57-78 | Over any run, cells and smuggled words refine a machine in which every handle, map entry and vector element simply holds an object or nothing; this covers `Set`, `Remove`, `Append` and the returned old values |
| ValueSemantics.CopyKeepsObject | include/v8/v8-persistent-handle.h:464-471 | Copy assignment keeps the source's object in the target if and only if the handles are different or the source was empty |
| ValueSemantics.ContainsMeans | include/v8/v8-util.h:194-196 | `Contains` answers yes exactly for the keys that hold an object |
| ValueSemantics.SizeMeans | include/v8/v8-util.h:173 | `Size` is the number of keys that hold an object |
| ValueSemantics.MovingKeepsEquality | include/v8/v8-local-handle.h:150-155 | No comparison between handles, entries and elements notices a collection that moves objects |
| PersistentHandles.Handle.Reset | include/v8/v8-persistent-handle.h:481-486 | Exactly the cell held is gone, an empty handle changes nothing, and the call is at fault exactly for a handle on a dead cell |
| PersistentHandles.Handle.ResetLocal | include/v8/v8-persistent-handle.h:492-499 | The old cell is gone; a non-empty local gets a fresh cell, an empty one leaves the handle empty |
| PersistentHandles.Handle.ResetPersistent | include/v8/v8-persistent-handle.h:505-513 | The same from another handle; resetting a handle to itself empties it |
| PersistentHandles.Handle.Copy | include/v8/v8-persistent-handle.h:464-471 | A fresh cell for the same object without its weakness; copying a handle to itself empties it |
| PersistentHandles.Handle.Move | include/v8/v8-persistent-handle.h:568-576 | The pointer changes hands, the source is empty, the heap is as before |
| PersistentHandles.Handle.MoveAssign | include/v8/v8-persistent-handle.h:578-593 | The target's old cell goes, the source's cell changes hands and the source is empty; self-assignment changes nothing |
| PersistentHandles.Handle.SetWeak | include/v8/v8-persistent-handle.h:515-529 | A live handle is weak afterwards, with this parameter, and refers to what it did |
| PersistentHandles.Handle.ClearWeak | include/v8/v8-persistent-handle.h:536-541 | Answers the parameter of the cell and leaves the handle not weak, referring to what it did |
| ValueContainers.ValueMap.Release | include/v8/v8-util.h:319-327 | The word becomes an owning handle. In a weak map a callback still to come is called off and its datum disposed of; a map with strong entries leaves every cell alone |
| ValueContainers.ValueMap.SetUnique | include/v8/v8-util.h:391-407 | Afterwards the key holds the object of the handle, the handle is empty, the old word comes back, and every other key answers as before; a weak map has made new data for the key, a map with strong entries changes no cell |
| ValueContainers.ValueMap.SetWithReference | include/v8/v8-util.h:413-417 | The reference filled in before the store equals the word found at the key after it |
| ValueContainers.ValueMap.Remove | include/v8/v8-util.h:210-212 | Afterwards the key holds nothing, every other key answers as before, and the word comes back as an owning handle, its callback called off in a weak map and its cell untouched in any other |
| ValueContainers.ValueMap.Contained | include/v8/v8-util.h:183-196 | `Contains` and `Get` answer for exactly the keys of the backing map, `Get` with the object of the entry's cell |
| ValueContainers.ValueMap.WeakCallback | include/v8/v8-util.h:420-510 | First pass of both map classes: what it frees and returns, whether a second pass is set up, and the order of its calls: a `GlobalValueMap` entry is removed before `OnWeakCallback`, a `PersistentValueMap` entry before `Dispose` gets it |
| ValueContainers.ValueMap.HandOut | include/v8/v8-util.h:225-228 | An entry handed to `Dispose` and kept there is strong and without a callback if the map is weak, and as it was otherwise; its datum goes back, and cells held elsewhere are untouched |
| ValueContainers.ValueMap.Clear | include/v8/v8-util.h:218-230 | Terminates on every finite budget of insertions and ends empty. Every entry present at the start or stored meanwhile is handed to `Dispose` exactly once or displaced exactly once by an operation of the embedder; each call of `Dispose` uses one batch of the script, in order; exactly the cells that others held or the embedder kept are live. No live cell is left with a callback of the map, and the data disposed of are exactly those attached at the start and those made meanwhile |
| ValueContainers.ValueMap.Dispose | include/v8/v8-util.h:225-228 | The event of the call comes first, then exactly the operations of its batch, in order and with all they set off; the value and any displaced value is kept or dropped as the batch says, and every live cell keeps one holder |
| Traces.EveryEntryOnce | include/v8/v8-util.h:218-230 | Over any replay, what was there and what was stored is what was disposed of, what `Set` or `Remove` of the embedder displaced, and what is still there, each entry counted once |
| Traces.NeverTwice | include/v8/v8-util.h:225-228 | The same bound at every moment: no entry is disposed of before it is there or a second time |
| Traces.ScriptFollowed | include/v8/v8-util.h:225-228 | The n-th call of `Dispose` uses the n-th batch; the operations that happen are as many as those in the batches used, and no more entries are displaced than operations happen |
| Traces.ClearedOnce | include/v8/v8-util.h:214-230 | What any trace from a map to the empty map through a `Clear` implies for the entries handed to `Dispose` |
| CallbackData.StoreSettles | include/v8/v8-util.h:391-407 | Storing makes one datum, puts it on the new entry, and returns the datum of the displaced one; the displaced handle carries no callback of the map whether dropped or kept |
| CallbackData.DiscardSettles | include/v8/v8-util.h:210-212 | Removing returns the datum of the entry and no other; the removed handle carries no callback of the map |
| CallbackData.OneOfPassSettled | include/v8/v8-util.h:225-228 | In the middle of a `Clear`, whatever the disposal of one entry sets off, the entries still to come keep their callbacks and the data stay accounted for |
| CallbackData.ClearedData | include/v8/v8-util.h:218-230 | What is settled after a whole `Clear`: data returned are those attached before plus those made since, exactly the former if nothing was stored |
| ValueContainers.ValueVector.Append | include/v8/v8-util.h:599-601 | The new last element refers to the object of the handle, which is emptied; earlier elements refer to what they did |
| ValueContainers.ValueVector.Clear | include/v8/v8-util.h:628-635 | Ends empty, with the cells disposed of from the front |
| HandleEquality.EqualHandlesEquivalence | include/v8/v8-local-handle.h:150-155 | Equality is an equivalence over local, persistent and traced handles mixed |
| HandleEquality.EqualHandlesMeans | include/v8/v8-local-handle.h:150-155 | Handles are equal exactly if both are empty or both refer to one object |
| HandleEquality.MovingKeepsComparisons | include/v8/v8-local-handle.h:150-155 | A move of objects leaves every comparison as it was if and only if it never puts two objects in use at one place |
| HandleEquality.NewFromEqual | include/v8/v8-local-handle.h:281-294 | A handle made from another equals it and compares like it with every other handle, and old comparisons stay |
| TracedModel.TracedStepExact | include/v8/v8-traced-handle.h:303-394 | Assignment by copy or move, also to itself, and `Reset` to a local: nothing freed twice, the target refers to the source's object, a moved-from source to nothing; the live cells are the old ones without the target's, with one more where one is allocated; other cells untouched |
| TracedModel.TracedOverRuns | include/v8/v8-traced-handle.h:343-394 | Over any run every non-empty traced handle has a live cell of its own and no fault occurs |
| TracedHandles.TracedReference.Reset | include/v8/v8-traced-handle.h:303-307 | Exactly the cell held is gone, an empty handle changes nothing, and the call is at fault exactly for a handle on a dead cell |
| TracedHandles.TracedReference.CopyAssign | include/v8/v8-traced-handle.h:383-394 | The target's old cell is gone and it has a fresh one for the source's object; self-assignment changes nothing |
| TracedHandles.TracedReference.MoveAssign | include/v8/v8-traced-handle.h:372-381 | The target's old cell is gone, exactly that one, and it has the source's; self-assignment changes nothing |
| TracedHandles.TracedReference.ResetLocal | include/v8/v8-traced-handle.h:343-352 | The old cell is gone; a non-empty local gets a fresh one |
| Tagging.IsValidSmiIsRange | include/v8/v8-internal.h:74-117 | The wrap-around test accepts exactly the signed range of the scheme, on every `intptr_t` |
| Tagging.SmiBounds | include/v8/v8-internal.h:76-81 | The limits computed by shifting all-ones are the two's complement limits of 31 and 32 bits |
| Tagging.SmiRoundTrip | include/v8/v8-internal.h:74-117 | An `int` survives encoding and decoding if and only if it is a valid Smi, and no encoding looks like a heap object |
| Tagging.SmiReencode | include/v8/v8-internal.h:74-117 | Decoding any Smi word gives a valid Smi whose encoding has the same tagged bits |
| Tagging.SmiLayout | include/v8/v8-internal.h:74-156 | An encoding holds the value just above the tag bit in the low half, or in the upper half of the word with the low half zero |
| Tagging.HeapObjectTagOnly | include/v8/v8-internal.h:644-646 | Of the four tags on an aligned address only 1 means a heap object |
| Tagging.DecompressExact | include/v8/v8-internal.h:859-867 | Decompressing the low half of an address gives it back if and only if the two addresses share a cage; the result never leaves the cage |
| Tagging.SmiThroughEitherPath | include/v8/v8-internal.h:804-823 | A 31-bit Smi field reads as the same integer, with the same tag bits, with or without the cage base added |
| Tagging.CanHaveInternalFieldIsRange | include/v8/v8-internal.h:692-702 | The folded unsigned comparison is the signed range test, on every `int` |
| ExternalPointers.UntagExact | include/v8/v8-internal.h:299-317 | For tags of any width and equal weight, untagging gives the pointer if and only if the tags agree, marked or not; otherwise a tag bit remains |
| ExternalPointers.UntagWordExact | include/v8/v8-internal.h:305-317 | The same on 64-bit entries |
| ExternalPointers.SpecialTags | include/v8/v8-internal.h:434-439 | The tag for any pointer reads every entry; a free entry passes no check for another type |
| ExternalPointers.EvacuationEntryFails | include/v8/v8-internal.h:440-441 | An evacuation entry passes no check for a type of the table; an entry read with its tag gives the pointer exactly if its type bits are among those of that tag |
| ExternalPointers.TableComplete | include/v8/v8-internal.h:364-380 | The table of 70 type tags is the set of all bytes of weight four |
| ExternalPointers.SharedExact | include/v8/v8-internal.h:454-457 | The range test on tags holds of exactly the first three tags of the table |
| ExternalPointers.ReadsEntry | include/v8/v8-internal.h:835-856 | The handle of entry i reads entry i of the table of the wanted type: it gives the pointer stored there if and only if it was stored under that type |
| ExternalPointers.IndexInTable | include/v8/v8-internal.h:257-266 | Shifting an index up and down gives it back, and no handle leads out of a table of the maximum size |
| NodeBytes.UpdateNodeState | include/v8/v8-internal.h:720-723 | Writes one byte of the node and no other |
| NodeBytes.UpdateNodeFlag | include/v8/v8-internal.h:709-713 | Writes one byte of the node and no other |
| NodeBytes.StateFits | include/v8/v8-internal.h:715-723 | A state written reads back, and no flag of any byte changes, if and only if the value is at most 3 |
| NodeBytes.FlagIndependent | include/v8/v8-internal.h:704-713 | Setting or clearing a flag changes that flag, no other flag and never the state |
| NodeBytes.FlagIsBit | include/v8/v8-internal.h:704-713 | A flag is the bit at its shift; a shift past the byte finds none and sets none |
| NodeBytes.UpdatesCommute | include/v8/v8-internal.h:709-723 | State and flag updates may be swapped |
| ReturnValues.NumberKept | include/v8/v8-function-callback.h:322-343 | Every `int32_t` and `uint32_t`, under both Smi widths, is stored as a word that decodes to the same integer; it is a Smi if and only if the value is in Smi range; no other word changes meaning |
| ReturnValues.NumberReadBack | include/v8/v8-function-callback.h:322-396 | Every `int32_t` and `uint32_t` set is read back by `Get` as a word that decodes to it; no number is taken for the hole that marks an unset value |
| ReturnValues.ReturnValue.SetInt32 | include/v8/v8-function-callback.h:322-331 | Only the value slot changes and it decodes to the argument |
| ReturnValues.ReturnValue.SetUint32 | include/v8/v8-function-callback.h:333-343 | The same for unsigned arguments, across the bit-31 test |
| ReturnValues.ReturnValue.SetHandle | include/v8/v8-function-callback.h:284-313 | Stores the handle's object, or the default value for an empty handle, and nothing else |
| OverloadResolution.GetOverloadResolution | include/v8/v8-fast-api-calls.h:479-508 | The loop answers impossible exactly for a scalar clash or two differing positions of which the first is below 2 to the 31 |
| OverloadResolution.WrongExactly | include/v8/v8-fast-api-calls.h:479-508 | For equal arity the answer differs from the promised one if and only if two or more positions differ, all from 2 to the 31 on and none scalar |
| OverloadResolution.ExactUpTo | include/v8/v8-fast-api-calls.h:479-508 | The answer is always the promised one for an arity if and only if the arity is at most 2 to the 31 plus 1 |
| OverloadResolution.LateDifferencesMissed | include/v8/v8-fast-api-calls.h:488-495 | At every larger arity two functions that differ twice pass for resolvable |
| OverloadResolution.DecisionSymmetric | include/v8/v8-fast-api-calls.h:479-508 | Swapping the two functions never changes the answer |
| OverloadResolution.OptionsIgnored | include/v8/v8-fast-api-calls.h:401-417 | A trailing options argument of one function never changes the answer |
| FastCallTypes.CountedArguments | include/v8/v8-fast-api-calls.h:401-417 | An options argument is left out of the count only at the very end of the list |
| Signatures.MergeIsUnion | include/v8/v8-fast-api-calls.h:809-814 | A bit is in the merged flags if and only if it is in some flag |
| Signatures.MergeSameSet | include/v8/v8-fast-api-calls.h:809-814 | Merging does not depend on order or repetition |
| Signatures.AllowedMonotone | include/v8/v8-fast-api-calls.h:778-802 | Flags that pass the assertions of `Build` pass in every part |
| Signatures.AllowedFlags | include/v8/v8-fast-api-calls.h:778-802 | Which types may carry which flags, and of which types there are sequences and typed arrays |
| Signatures.ClampExcludesRestricted | include/v8/v8-fast-api-calls.h:783-794 | No type carries a restriction together with clamping or a range check |
| Signatures.CannotReturn | include/v8/v8-fast-api-calls.h:619-629 | The types a fast function cannot return, `uint8_t` among them though the message does not name it |
| Signatures.ArgImplExact | include/v8/v8-fast-api-calls.h:853-884 | `Arg` changes the builder at its position only, is no change out of range, and fails only if the builder there does not build |
| Signatures.SignatureExact | include/v8/v8-fast-api-calls.h:818-884 | A chain of `Arg` and `Ret` calls of any length builds if and only if its final flags are allowed, the return type is supported and there is an argument; each argument then has its base type and the union of all flags given to it |
| Signatures.ArgumentBits | include/v8/v8-fast-api-calls.h:844-884 | Bit by bit, an argument ends with the bits of its type, of its builder and of every `Arg` call for it, and no others |
| Signatures.ArgOrderIrrelevant | include/v8/v8-fast-api-calls.h:830-884 | Reordering or repeating `Arg` calls changes neither the signature nor whether it builds |
| Signatures.LastRetDecides | include/v8/v8-fast-api-calls.h:823-828 | The last `Ret` leaves only its own flags on the return type, whatever came before and whatever `Arg` calls follow |
| Signatures.OptionsUnchecked | include/v8/v8-fast-api-calls.h:592-611 | The count of options parameters is always 0, so its assertions ask for one argument and nothing else |
| Signatures.OptionsCheckMeetsIntent | include/v8/v8-fast-api-calls.h:604-611 | The options check agrees with its messages if and only if there is no options parameter, or one and a receiver besides |
| Signatures.TwoOptionsAccepted | include/v8/v8-fast-api-calls.h:604-611 | Two options parameters, or one without a receiver, are accepted |

## Left out

Assumptions of the model:

* The engine's functions behind `api_internal` and `internal` are contracts: allocation returns a
  free slot, disposal removes the cell, copies take the object without its flags, moves keep the
  cell. `MoveTracedReference` is taken to free the target's old cell and to empty the source.
* The collector takes a node out of the weak state before its callback runs, collects nothing in
  the middle of a `Clear`, and lets no operation run between first passes.
* The hooks `Dispose` and `OnWeakCallback` make no calls into the engine in a first pass except
  `Reset`, as `v8-weak-callback-info.h` demands of all first callbacks.
* A handle the embedder made weak and whose object dies is in a variable, which its callback
  resets; one that was moved into a vector or a map with strong entries does not die.
* Only non-empty handles are put into a map; the zero word stands for an absent key.
* `WeakCallbackParameter` returns new memory each time, from which the traits class recovers the
  map and the key; `DisposeWeak` disposes of it.
* A handle that receives a returned `Global` is empty before.
* A map that is cleared owns its cells, and its entries carry their callbacks as `SetUnique` left them
  (`StoreSettles` and `DiscardSettles` show that the operations keep this).

Not modelled:

- ValueContainers.ValueMap.WeakCallback: a `Traits::Dispose` that does more in a first pass than drop its value.
- ValueContainers.ValueMap.Clear: an embedder that inserts without end, for which the loop does not terminate, weak callbacks during the traversal, and an embedder that puts a value it kept back into the map.
- TracedModel.TracedOverRuns: leaks of traced cells, since the class has no clearing destructor by design.
* In `ReturnValue::Get`, the local handle made for the word, and static-root builds.
- ExternalPointers.ReadsEntry: the shift of the index on Android, which is 6 instead of 5.
- Signatures.SignatureExact: `Patch`, the function pointer and the static instance.
* `Empty()` and `Persistent` without copying, which may leak by design.
* `WeakCallbackInfo` as an object: its constructor copies two fields, and the second pass that `SetSecondPassCallback` asks for is a step of the runs.
* Wrapper class ids, internal fields passed to callbacks, labels of strong retainers.
* `SetReturnValue` of the maps, and `Set` of doubles, booleans and the other roots: one assignment each.
* Iteration order of the backing map, on which no proof depends; no property of the order of disposal is stated.
* Handle scopes, relaxed memory order of the thread-safe slots, conservative stack scanning.
* Packing of `CTypeInfo` identifiers, casts and statistics getters.
* `include/node.h`, `include/uv/uv.h`, `runtime/` and the plugin SDK: declarations without behaviour to prove.
