/**
 What happens to a map while it is cleared: events, and the machine that replays them
 against what the embedder does inside Traits::Dispose.
*/
module Traces {
  import opened Basics
  import opened Cells

  // What the embedder does when Dispose hands it a value: operations on the same map, and
  // whether it keeps the value by moving it elsewhere. It may keep an overwritten or removed
  // value as well. A script lists the behaviour of successive calls of Dispose; once it is
  // used up, Dispose only drops the value.
  datatype MapOp =
    | SetOp(key: Key, referent: Address, keep: bool)
    | RemoveOp(key: Key, keep: bool)
    | ClearOp
  datatype Batch = Batch(ops: seq<MapOp>, keep: bool)

  // A call of SetUnique, Remove or RemoveWeak with the word it found and the word it stored,
  // of Clear, one pass of it, a call of Traits::Dispose, and a call of Traits::OnWeakCallback.
  datatype Event =
    | Set(key: Key, found: Option<Slot>, stored: Slot, referent: Option<Address>)
    | Removed(key: Key, found: Option<Slot>)
    | Collected(key: Key, found: Option<Slot>)
    | Cleared
    | Swapped
    | Disposed(key: Key, word: Slot)
    | Notified(data: Param)

  // The map, the entries swapped out of it and not yet disposed of, the embedder's operations
  // under way, its behaviour in further calls, and the cells it kept.
  datatype Books = Books(
    impl: map<Key, Slot>,
    local: multiset<(Key, Slot)>,
    todo: seq<MapOp>,
    script: seq<Batch>,
    kept: set<Slot>)

  function Entries(impl: map<Key, Slot>): set<(Key, Slot)> {
    set k | k in impl :: (k, impl[k])
  }

  function Items(impl: map<Key, Slot>): multiset<(Key, Slot)> {
    multiset(Entries(impl))
  }

  function Found(impl: map<Key, Slot>, k: Key): Option<Slot> {
    if k in impl then Some(impl[k]) else None
  }

  function Item(k: Key, found: Option<Slot>): multiset<(Key, Slot)> {
    if found.Some? then multiset{(k, found.value)} else multiset{}
  }

  function Keep(kept: set<Slot>, keep: bool, found: Option<Slot>): set<Slot> {
    if keep && found.Some? then kept + {found.value} else kept
  }

  // One event, if it may happen: an operation on the map is the next one of the embedder's
  // and finds what is there, and Dispose is called on an entry that is swapped out.
  function After(b: Books, e: Event): Option<Books> {
    match e
    case Set(k, found, s, referent) =>
      if b.todo != [] && b.todo[0].SetOp? && b.todo[0].key == k && referent == Some(b.todo[0].referent)
         && found == Found(b.impl, k)
      then Some(b.(impl := b.impl[k := s], todo := b.todo[1..], kept := Keep(b.kept, b.todo[0].keep, found)))
      else None
    case Removed(k, found) =>
      if b.todo != [] && b.todo[0].RemoveOp? && b.todo[0].key == k && found == Found(b.impl, k)
      then Some(b.(impl := b.impl - {k}, todo := b.todo[1..], kept := Keep(b.kept, b.todo[0].keep, found)))
      else None
    case Cleared => if b.todo != [] && b.todo[0].ClearOp? then Some(b.(todo := b.todo[1..])) else None
    case Swapped => Some(b.(impl := map[], local := b.local + Items(b.impl)))
    case Disposed(k, word) =>
      if (k, word) !in b.local then None
      else
        var rest := b.(local := b.local - multiset{(k, word)});
        if b.script == [] then Some(rest)
        else
          Some(rest.(
            todo := b.script[0].ops + b.todo, script := b.script[1..],
            kept := Keep(b.kept, b.script[0].keep, Some(word))))
    case _ => None
  }

  function Replay(b: Books, events: seq<Event>): Option<Books>
    decreases |events|
  {
    if events == [] then Some(b)
    else
      match After(b, events[0])
      case None => None
      case Some(next) => Replay(next, events[1..])
  }

  // The events lead from one state of the books to the other.
  ghost predicate Explains(b: Books, events: seq<Event>, b': Books) {
    Replay(b, events) == Some(b')
  }

  lemma {:induction false} ExplainsChain(b: Books, events: seq<Event>, mid: Books, more: seq<Event>, b': Books)
    requires Explains(b, events, mid) && Explains(mid, more, b')
    ensures Explains(b, events + more, b')
    decreases |events|
  {
    hide After;
    if events == [] {
      assert [] + more == more;
    } else {
      assert (events + more)[1..] == events[1..] + more;
      ExplainsChain(After(b, events[0]).value, events[1..], mid, more, b');
    }
  }

  lemma ExplainsOne(b: Books, e: Event)
    requires After(b, e).Some?
    ensures Explains(b, [e], After(b, e).value)
  {
    assert [e][1..] == [];
  }

  // The same books in the middle of other business.
  function Within(b: Books, local: multiset<(Key, Slot)>, todo: seq<MapOp>, kept: set<Slot>): Books {
    b.(local := b.local + local, todo := b.todo + todo, kept := b.kept + kept)
  }

  lemma AfterWithin(b: Books, e: Event, local: multiset<(Key, Slot)>, todo: seq<MapOp>, kept: set<Slot>)
    requires After(b, e).Some?
    ensures After(Within(b, local, todo, kept), e) == Some(Within(After(b, e).value, local, todo, kept))
  {
    hide Items, Found;
    if e.Disposed? {
      DisposedWithin(b, e.key, e.word, local, todo, kept);
    } else if e.Swapped? {
      assert (b.local + local) + Items(b.impl) == (b.local + Items(b.impl)) + local;
    } else {
      assert (b.todo + todo)[0] == b.todo[0] && (b.todo + todo)[1..] == b.todo[1..] + todo;
      KeepWithin(b.kept, b.todo[0].ClearOp? || b.todo[0].keep, if e.Cleared? then None else e.found, kept);
      hide Keep;
    }
  }

  lemma KeepWithin(a: set<Slot>, keep: bool, found: Option<Slot>, kept: set<Slot>)
    ensures Keep(a + kept, keep, found) == Keep(a, keep, found) + kept
  {
  }

  lemma DisposedWithin(b: Books, k: Key, v: Slot, local: multiset<(Key, Slot)>, todo: seq<MapOp>, kept: set<Slot>)
    requires After(b, Disposed(k, v)).Some?
    ensures After(Within(b, local, todo, kept), Disposed(k, v))
      == Some(Within(After(b, Disposed(k, v)).value, local, todo, kept))
  {
    assert (b.local + local) - multiset{(k, v)} == (b.local - multiset{(k, v)}) + local;
    if b.script != [] {
      assert b.script[0].ops + (b.todo + todo) == (b.script[0].ops + b.todo) + todo;
      KeepWithin(b.kept, b.script[0].keep, Some(v), kept);
    }
    hide Keep;
  }

  lemma {:induction false} ExplainsWithin(
    b: Books, events: seq<Event>, b': Books, local: multiset<(Key, Slot)>, todo: seq<MapOp>, kept: set<Slot>)
    requires Explains(b, events, b')
    ensures Explains(Within(b, local, todo, kept), events, Within(b', local, todo, kept))
    decreases |events|
  {
    hide After, Within;
    if events != [] {
      AfterWithin(b, events[0], local, todo, kept);
      ExplainsWithin(After(b, events[0]).value, events[1..], b', local, todo, kept);
    }
  }

  // ---- What a replay tells about calls of Dispose ----

  function DisposedBy(e: Event): multiset<(Key, Slot)> {
    if e.Disposed? then multiset{(e.key, e.word)} else multiset{}
  }

  // Entries overwritten or removed by the embedder.
  function DisplacedBy(e: Event): multiset<(Key, Slot)> {
    if e.Set? || e.Removed? then Item(e.key, e.found) else multiset{}
  }

  function StoredBy(e: Event): multiset<(Key, Slot)> {
    if e.Set? then multiset{(e.key, e.stored)} else multiset{}
  }

  predicate IsOp(e: Event) {
    e.Set? || e.Removed? || e.Cleared?
  }

  function DisposedIn(events: seq<Event>): multiset<(Key, Slot)> {
    if events == [] then multiset{} else DisposedBy(events[0]) + DisposedIn(events[1..])
  }

  function DisplacedIn(events: seq<Event>): multiset<(Key, Slot)> {
    if events == [] then multiset{} else DisplacedBy(events[0]) + DisplacedIn(events[1..])
  }

  function StoredIn(events: seq<Event>): multiset<(Key, Slot)> {
    if events == [] then multiset{} else StoredBy(events[0]) + StoredIn(events[1..])
  }

  function OpsIn(events: seq<Event>): nat {
    if events == [] then 0 else (if IsOp(events[0]) then 1 else 0) + OpsIn(events[1..])
  }

  lemma EntriesRemove(impl: map<Key, Slot>, k: Key)
    requires k in impl
    ensures Entries(impl) == Entries(impl - {k}) + {(k, impl[k])} && (k, impl[k]) !in Entries(impl - {k})
  {
    forall e | e in Entries(impl) && e != (k, impl[k]) ensures e in Entries(impl - {k}) {
      assert e.0 in impl - {k};
    }
    assert (k, impl[k]) in Entries(impl);
  }

  lemma OneMore<T>(s: set<T>, x: T)
    requires x !in s
    ensures multiset(s + {x}) == multiset(s) + multiset{x}
  {
  }

  lemma ItemsRemove(impl: map<Key, Slot>, k: Key)
    ensures Items(impl) == Items(impl - {k}) + Item(k, Found(impl, k))
  {
    if k in impl {
      EntriesRemove(impl, k);
      OneMore(Entries(impl - {k}), (k, impl[k]));
    } else {
      assert impl - {k} == impl;
    }
  }

  lemma ItemsSet(impl: map<Key, Slot>, k: Key, v: Slot)
    ensures Items(impl[k := v]) + Item(k, Found(impl, k)) == Items(impl) + multiset{(k, v)}
  {
    ItemsRemove(impl, k);
    ItemsRemove(impl[k := v], k);
    assert impl[k := v] - {k} == impl - {k};
  }

  // All entries not yet disposed of or displaced.
  function Outstanding(b: Books): multiset<(Key, Slot)> {
    Items(b.impl) + b.local
  }

  lemma AfterBalances(b: Books, e: Event)
    requires After(b, e).Some?
    ensures Outstanding(b) + StoredBy(e) == (DisposedBy(e) + DisplacedBy(e)) + Outstanding(After(b, e).value)
  {
    if e.Set? || e.Removed? {
      OpBalances(b, e);
    } else {
      NoItems();
      TakenOrSwapped(Items(b.impl), b.local, DisposedBy(e));
      hide Items, Outstanding;
      assert Outstanding(b) == Items(b.impl) + b.local;
      var b' := After(b, e).value;
      assert Outstanding(b') == Items(b'.impl) + b'.local;
    }
  }

  lemma TakenOrSwapped<T>(items: multiset<T>, local: multiset<T>, taken: multiset<T>)
    requires taken <= local
    ensures (items + local) + multiset{} == (taken + multiset{}) + (items + (local - taken))
    ensures (items + local) + multiset{} == (multiset{} + multiset{}) + (multiset{} + (local + items))
  {
  }

  lemma OpBalances(b: Books, e: Event)
    requires After(b, e).Some? && (e.Set? || e.Removed?)
    ensures Outstanding(b) + StoredBy(e) == (DisposedBy(e) + DisplacedBy(e)) + Outstanding(After(b, e).value)
  {
    hide Items, Item;
    var b', items, item := After(b, e).value, Items(b.impl), Item(e.key, e.found);
    if e.Set? {
      ItemsSet(b.impl, e.key, e.stored);
      hide After, Found;
      assert (items + b.local) + StoredBy(e) == (items + StoredBy(e)) + b.local;
      assert Outstanding(b') == Items(b'.impl) + b.local;
    } else {
      ItemsRemove(b.impl, e.key);
      hide After, Found;
      assert Outstanding(b') == Items(b'.impl) + b.local;
    }
  }

  lemma NoItems()
    ensures Items(map[]) == multiset{}
  {
  }

  /**
   Exactly once: whatever was there at the start or stored meanwhile was disposed of, or
   was overwritten or removed by an operation of the embedder, or is still there.
  */
  lemma {:induction false} EveryEntryOnce(b: Books, events: seq<Event>, b': Books)
    requires Explains(b, events, b')
    ensures Outstanding(b) + StoredIn(events) == (DisposedIn(events) + DisplacedIn(events)) + Outstanding(b')
    decreases |events|
  {
    hide After, Outstanding, StoredBy, DisposedBy, DisplacedBy;
    if events != [] {
      var e, rest, next := events[0], events[1..], After(b, events[0]).value;
      AfterBalances(b, e);
      EveryEntryOnce(next, rest, b');
      Chain(Outstanding(b), StoredBy(e), DisposedBy(e) + DisplacedBy(e), Outstanding(next),
        StoredIn(rest), DisposedIn(rest) + DisplacedIn(rest), Outstanding(b'));
      assert (DisposedBy(e) + DisplacedBy(e)) + (DisposedIn(rest) + DisplacedIn(rest))
        == (DisposedBy(e) + DisposedIn(rest)) + (DisplacedBy(e) + DisplacedIn(rest));
    }
  }

  lemma Chain<T>(
    a: multiset<T>, s1: multiset<T>, h1: multiset<T>, b: multiset<T>, s2: multiset<T>, h2: multiset<T>, c: multiset<T>)
    requires a + s1 == h1 + b && b + s2 == h2 + c
    ensures a + (s1 + s2) == (h1 + h2) + c
  {
    assert a + (s1 + s2) == (a + s1) + s2;
    assert (h1 + b) + s2 == h1 + (b + s2);
    assert h1 + (h2 + c) == (h1 + h2) + c;
  }

  function Budget(script: seq<Batch>): nat {
    if script == [] then 0 else |script[0].ops| + Budget(script[1..])
  }

  /**
   The embedder does exactly what its script says: the n-th call of Dispose uses the n-th
   batch, and every operation that happens is one of the batches used or was under way.
  */
  lemma {:induction false} ScriptFollowed(b: Books, events: seq<Event>, b': Books)
    requires Explains(b, events, b')
    ensures b'.script == Dropped(b.script, |DisposedIn(events)|)
    ensures OpsIn(events) + |b'.todo| + Budget(b'.script) == |b.todo| + Budget(b.script)
    ensures |DisplacedIn(events)| <= OpsIn(events)
    decreases |events|
  {
    if events != [] {
      var e, rest := events[0], events[1..];
      AfterFollows(b, e);
      hide After, Budget, DisposedBy, DisplacedBy, IsOp, Dropped;
      ScriptFollowed(After(b, e).value, rest, b');
      DroppedTwice(b.script, |DisposedBy(e)|, |DisposedIn(rest)|);
      Sizes(DisposedBy(e), DisposedIn(rest));
      Sizes(DisplacedBy(e), DisplacedIn(rest));
    }
  }

  lemma Sizes<T>(a: multiset<T>, b: multiset<T>)
    ensures |a + b| == |a| + |b|
  {
  }

  lemma DroppedTwice(script: seq<Batch>, m: nat, n: nat)
    ensures Dropped(Dropped(script, m), n) == Dropped(script, m + n)
  {
  }

  function Dropped(script: seq<Batch>, n: nat): seq<Batch> {
    if n <= |script| then script[n..] else []
  }

  lemma AfterFollows(b: Books, e: Event)
    requires After(b, e).Some?
    ensures var b' := After(b, e).value;
      && |DisposedBy(e)| <= 1 && b'.script == Dropped(b.script, |DisposedBy(e)|)
      && (if IsOp(e) then 1 else 0) + |b'.todo| + Budget(b'.script) == |b.todo| + Budget(b.script)
    ensures |DisplacedBy(e)| <= if IsOp(e) then 1 else 0
  {
  }

  /**
   At no point has more been disposed of or displaced than was there or stored before it:
   no entry is disposed of twice, not even for a time.
  */
  lemma NeverTwice(b: Books, events: seq<Event>, b': Books, i: nat)
    requires Explains(b, events, b') && i <= |events|
    ensures DisposedIn(events[..i]) + DisplacedIn(events[..i]) <= Outstanding(b) + StoredIn(events[..i])
  {
    var mid := PrefixExplained(b, events, b', i);
    EveryEntryOnce(b, events[..i], mid);
  }

  lemma {:induction false} PrefixExplained(b: Books, events: seq<Event>, b': Books, i: nat) returns (mid: Books)
    requires Explains(b, events, b') && i <= |events|
    ensures Explains(b, events[..i], mid)
    decreases i
  {
    hide After;
    mid := b;
    if i > 0 {
      mid := PrefixExplained(After(b, events[0]).value, events[1..], b', i - 1);
      assert events[..i][1..] == events[1..][..i - 1];
    }
  }

  // An embedder that never stores or removes anything.
  predicate Quiet(ops: seq<MapOp>) {
    forall i :: 0 <= i < |ops| ==> ops[i].ClearOp?
  }

  predicate QuietScript(script: seq<Batch>) {
    forall i :: 0 <= i < |script| ==> Quiet(script[i].ops)
  }

  lemma {:induction false} QuietChangesNothing(b: Books, events: seq<Event>, b': Books)
    requires Explains(b, events, b') && Quiet(b.todo) && QuietScript(b.script)
    ensures StoredIn(events) == DisplacedIn(events) == multiset{}
    decreases |events|
  {
    if events != [] {
      QuietChangesNothing(After(b, events[0]).value, events[1..], b');
    }
  }

  // No pass under way, and the embedder has these operations to do, or none.
  function Idle(impl: map<Key, Slot>, todo: seq<MapOp>, script: seq<Batch>): Books {
    Books(impl, NoEntries(), todo, script, {})
  }

  function Done(impl: map<Key, Slot>, rest: seq<Batch>, kept: set<Slot>): Books {
    Books(impl, NoEntries(), [], rest, kept)
  }

  function NoEntries(): multiset<(Key, Slot)> {
    multiset{}
  }

  /**
   What follows for any Clear: each entry present at the start or stored meanwhile went to
   Dispose exactly once or was displaced exactly once by an operation of the embedder; an
   embedder that stores and removes nothing is handed exactly the entries of the start.
  */
  lemma ClearedOnce(impl: map<Key, Slot>, script: seq<Batch>, events: seq<Event>, rest: seq<Batch>, kept: set<Slot>)
    requires Explains(Idle(impl, [ClearOp], script), events, Done(map[], rest, kept))
    ensures Items(impl) + StoredIn(events) == DisposedIn(events) + DisplacedIn(events)
    ensures rest == Dropped(script, |DisposedIn(events)|)
    ensures |DisplacedIn(events)| <= OpsIn(events) && OpsIn(events) + Budget(rest) == 1 + Budget(script)
    ensures QuietScript(script) ==> DisposedIn(events) == Items(impl) && StoredIn(events) == multiset{}
  {
    assert Outstanding(Idle(impl, [ClearOp], script)) == Items(impl);
    assert Outstanding(Done(map[], rest, kept)) == multiset{};
    assert Quiet([ClearOp]);
    EveryEntryOnce(Idle(impl, [ClearOp], script), events, Done(map[], rest, kept));
    hide Explains, Outstanding;
    ScriptFollowed(Idle(impl, [ClearOp], script), events, Done(map[], rest, kept));
    if QuietScript(script) { QuietChangesNothing(Idle(impl, [ClearOp], script), events, Done(map[], rest, kept)); }
  }
}
