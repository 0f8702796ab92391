/**
 What holds in every state of every run, from containers without handles onwards.
*/
module RunTheorems {
  import opened Basics
  import opened Cells
  import opened HandleModel
  import opened ContainerModel
  import opened Ownership
  import opened LinearOwnership
  import opened WeakCallbacks

  ghost predicate Reachable(w: World) {
    exists kinds, vecs, steps :: CanRun(Initial(kinds, vecs), steps) && w == Run(Initial(kinds, vecs), steps)
  }

  lemma ReachableInv(w: World) returns (inv: Owners, at: map<Param, Slot>)
    requires Reachable(w)
    ensures Inv(w, inv, at)
  {
    var kinds, vecs, steps :| CanRun(Initial(kinds, vecs), steps) && w == Run(Initial(kinds, vecs), steps);
    assert Inv(Initial(kinds, vecs), map[], map[]);
    inv, at := RunInv(Initial(kinds, vecs), map[], map[], steps);
  }

  lemma {:induction false} RunExtends(w: World, steps: seq<Step>, st: Step)
    requires CanRun(w, steps) && Enabled(Run(w, steps), st)
    ensures CanRun(w, steps + [st]) && Run(w, steps + [st]) == Next(Run(w, steps), st)
    decreases |steps|
  {
    hide Enabled, Next;
    if steps == [] {
      assert [] + [st] == [st] && [st][1..] == [];
      assert CanRun(Next(w, st), []);
    } else {
      RunExtends(Next(w, steps[0]), steps[1..], st);
      assert (steps + [st])[1..] == steps[1..] + [st];
    }
  }

  lemma ReachableNext(w: World, st: Step)
    requires Reachable(w) && Enabled(w, st)
    ensures Reachable(Next(w, st))
  {
    hide Enabled, Next;
    var kinds, vecs, steps :| CanRun(Initial(kinds, vecs), steps) && w == Run(Initial(kinds, vecs), steps);
    RunExtends(Initial(kinds, vecs), steps, st);
  }

  /**
   Linear ownership. No operation was ever applied to a dead cell (so none was
   disposed of twice), every pointer held anywhere is to a live cell, no two places
   hold the same cell, and every live cell is held somewhere.
  */
  lemma LinearOverRuns(w: World)
    requires Reachable(w)
    ensures !w.heap.faulted
    ensures forall o :: Val(w, o) != 0 ==> Val(w, o) in w.heap.cells
    ensures forall o1, o2 :: Val(w, o1) == Val(w, o2) != 0 ==> o1 == o2
    ensures forall s :: s in w.heap.cells ==> exists o :: Val(w, o) == s
  {
    var inv, at := ReachableInv(w);
    forall s | s in w.heap.cells ensures exists o :: Val(w, o) == s {
      assert Val(w, inv[s]) == s;
    }
    forall o1, o2 | Val(w, o1) == Val(w, o2) != 0 ensures o1 == o2 {
      InverseDistinct(w, inv, o1, o2);
    }
  }

  /**
   Weak-callback targeting. A cell carrying the callback of map m for key k is the
   current entry of m at k, unless a Clear of m has swapped it out and not reached it.
  */
  lemma TargetingOverRuns(w: World, s: Slot)
    requires Reachable(w) && s in w.heap.cells && MapCell(w.heap.cells[s])
    ensures var m, k := w.heap.cells[s].param.value.container, w.heap.cells[s].param.value.key;
      || (m in w.maps && Val(w, Entry(m, k)) == s && !w.maps[m].kind.Plain?)
      || (exists f :: f in w.frames && w.frames[f].origin == m && Val(w, Swapped(f, k)) == s)
  {
    var inv, at := ReachableInv(w);
    assert Typed(w, inv[s]);
  }

  /**
   A first pass takes exactly the dying cell out of its map: that cell is the entry at
   its key, it is the only cell disposed of, and no other place changes.
  */
  lemma FirstPassExact(w: World, s: Slot, m: nat, k: Key, serial: nat)
    requires Reachable(w) && Enabled(w, FirstPassOf(s, m, k, serial))
    ensures var w' := Next(w, FirstPassOf(s, m, k, serial));
      && Val(w, Entry(m, k)) == s
      && w'.heap.cells.Keys == w.heap.cells.Keys - {s}
      && SameOutside(w.heap, w'.heap, {s})
      && forall o :: Val(w', o) == if o == Entry(m, k) then 0 else Val(w, o)
  {
    var inv, at := ReachableInv(w);
    InverseAt(w, inv, Entry(m, k));
    FirstPassHits(w, inv, s, m, k, serial);
    hide FirstPass, Inverse, Targeted, PendingOk, Accounted, Next;
    FirstPassKeys(w.heap, w.maps[m].kind, w.maps[m].impl, k, MapMade(m, k, serial));
    FirstPassEffect(w.heap, w.maps[m].kind, w.maps[m].impl, k, MapMade(m, k, serial));
    FirstPassFrame(w, s, m, k, serial);
  }

  // In how many live cells p is the parameter of a callback still to come.
  ghost predicate AttachedTo(w: World, p: Param, s: Slot) {
    s in w.heap.cells && MapCell(w.heap.cells[s]) && w.heap.cells[s].param == Some(p)
  }

  /**
   Exactly-once callback data. Each datum that WeakCallbackParameter made is attached
   to exactly one live cell, or waits for one second pass, or has been disposed of
   exactly once; nothing else was ever disposed of.
  */
  lemma DataOverRuns(w: World, p: Param)
    requires Reachable(w)
    ensures p !in w.heap.made ==> w.heap.returned[p] == 0 && w.second[p] == 0 && forall s :: !AttachedTo(w, p, s)
    ensures p in w.heap.made ==>
      || (w.heap.returned[p] == 1 && w.second[p] == 0 && forall s :: !AttachedTo(w, p, s))
      || (w.heap.returned[p] == 0 && w.second[p] == 1 && forall s :: !AttachedTo(w, p, s))
      || (w.heap.returned[p] == 0 && w.second[p] == 0
          && exists s :: AttachedTo(w, p, s) && forall t :: AttachedTo(w, p, t) ==> t == s)
  {
    var inv, at := ReachableInv(w);
    if p in at {
      assert AttachedTo(w, p, at[p]);
    }
  }

  // ---- The two passes of one collection ----

  // Parameters of the pending cells whose container is a GlobalValueMap, or is not.
  ghost function PendingParams(w: World, global: bool): set<Param> {
    set s | s in w.pending && s in w.heap.cells && MapCell(w.heap.cells[s])
      && var m := w.heap.cells[s].param.value.container;
         m in w.maps && w.maps[m].kind.WeakGlobal? == global :: w.heap.cells[s].param.value
  }

  // Every pending first pass can run next, whatever the order so far.
  lemma FirstPassReady(w: World, s: Slot)
    requires Reachable(w) && s in w.pending
    ensures s in w.heap.cells
    ensures var c := w.heap.cells[s];
      if MapCell(c) then
        var p := c.param.value; Enabled(w, FirstPassOf(s, p.container, p.key, p.serial))
      else
        exists x :: VarVal(w, x) == s && Enabled(w, OwnPassOf(x))
  {
    var inv, at := ReachableInv(w);
    assert Typed(w, inv[s]);
    if !MapCell(w.heap.cells[s]) {
      var x :| VarVal(w, x) == s;
      assert Enabled(w, OwnPassOf(x));
    }
  }

  // A first pass turns one pending callback of a GlobalValueMap into one second pass,
  // or disposes of the data of one pending callback of a PersistentValueMap.
  lemma FirstPassBalance(w: World, s: Slot, m: nat, k: Key, serial: nat)
    requires Reachable(w) && Enabled(w, FirstPassOf(s, m, k, serial))
    ensures var w', p := Next(w, FirstPassOf(s, m, k, serial)), MapMade(m, k, serial);
      && w'.pending == w.pending - {s}
      && PendingParams(w', true) == PendingParams(w, true) - {p}
      && PendingParams(w', false) == PendingParams(w, false) - {p}
  {
    var inv, at := ReachableInv(w);
    FirstPassHits(w, inv, s, m, k, serial);
    hide Inverse, FirstPass, Next, Reachable;
    FirstPassExact(w, s, m, k, serial);
    FirstPassFrame(w, s, m, k, serial);
    hide Targeted, PendingOk, Accounted, PendingParams, Reachable, Val;
    PendingShrinks(w, Next(w, FirstPassOf(s, m, k, serial)), at, s, true);
    PendingShrinks(w, Next(w, FirstPassOf(s, m, k, serial)), at, s, false);
  }

  // Where the datum goes: to the second pass, or back to the embedder.
  lemma FirstPassData(w: World, s: Slot, m: nat, k: Key, serial: nat)
    requires Reachable(w) && Enabled(w, FirstPassOf(s, m, k, serial))
    ensures var w', p := Next(w, FirstPassOf(s, m, k, serial)), MapMade(m, k, serial);
      && p in PendingParams(w, w.maps[m].kind.WeakGlobal?)
      && if w.maps[m].kind.WeakGlobal? then w'.second == w.second + multiset{p} && w'.heap.returned == w.heap.returned
      else w'.second == w.second && w'.heap.returned == w.heap.returned + multiset{p}
  {
    var inv, at := ReachableInv(w);
    FirstPassHits(w, inv, s, m, k, serial);
    hide Inverse, Targeted, Accounted;
    ParamPending(w, s, m, k, serial);
  }

  lemma ParamPending(w: World, s: Slot, m: nat, k: Key, serial: nat)
    requires Enabled(w, FirstPassOf(s, m, k, serial)) && MapCell(w.heap.cells[s])
    ensures MapMade(m, k, serial) in PendingParams(w, w.maps[m].kind.WeakGlobal?)
  {
  }

  lemma PendingShrinks(w: World, w': World, at: map<Param, Slot>, s: Slot, global: bool)
    requires Accounted(w.heap, w.second, at) && s in w.pending && s in w.heap.cells && MapCell(w.heap.cells[s])
    requires w'.pending == w.pending - {s} && SameOutside(w.heap, w'.heap, {s})
    requires w'.maps.Keys == w.maps.Keys && SameShape(w, w')
    ensures PendingParams(w', global) == PendingParams(w, global) - {w.heap.cells[s].param.value}
  {
    var p := w.heap.cells[s].param.value;
    forall q | q in PendingParams(w, global) && q != p ensures q in PendingParams(w', global) {
      var t :| t in w.pending && t in w.heap.cells && MapCell(w.heap.cells[t]) && w.heap.cells[t].param.value == q
        && var m := q.container; m in w.maps && w.maps[m].kind.WeakGlobal? == global;
      assert t in w'.pending;
    }
    forall q | q in PendingParams(w', global) ensures q in PendingParams(w, global) && q != p {
      var t :| t in w'.pending && t in w'.heap.cells && MapCell(w'.heap.cells[t]) && w'.heap.cells[t].param.value == q
        && var m := q.container; m in w'.maps && w'.maps[m].kind.WeakGlobal? == global;
      assert t in w.pending && w.heap.cells[t] == w'.heap.cells[t];
    }
  }

  // The callback of a handle's own weak cell: it concerns no container.
  lemma OwnPassStep(w: World, x: nat)
    requires Reachable(w) && Enabled(w, OwnPassOf(x))
    ensures var w', s := Next(w, OwnPassOf(x)), VarVal(w, x);
      && s in w.pending && w'.pending == w.pending - {s}
      && w'.heap.cells.Keys == w.heap.cells.Keys - {s}
      && PendingParams(w', true) == PendingParams(w, true) && PendingParams(w', false) == PendingParams(w, false)
      && w'.second == w.second && w'.heap.returned == w.heap.returned
  {
    var inv, at := ReachableInv(w);
    InverseAt(w, inv, Var(x));
    assert Typed(w, Var(x));
    hide Inverse, Targeted, Accounted, PendingOk;
    SamePending(w, Next(w, OwnPassOf(x)), VarVal(w, x), true);
    SamePending(w, Next(w, OwnPassOf(x)), VarVal(w, x), false);
  }

  lemma SamePending(w: World, w': World, s: Slot, global: bool)
    requires s in w.pending && s in w.heap.cells && !MapCell(w.heap.cells[s]) && s !in w'.heap.cells
    requires w'.pending == w.pending - {s} && SameOutside(w.heap, w'.heap, {s}) && w'.maps == w.maps
    ensures PendingParams(w', global) == PendingParams(w, global)
  {
  }

  // A first pass of a container's entry or of a handle.
  predicate IsFirstPass(st: Step) {
    st.FirstPassOf? || st.OwnPassOf?
  }

  // One first pass: the cell s is gone, and so are the callbacks for the data in `deferred`
  // and `handedBack`, of which the former wait for a second pass.
  ghost predicate PassDone(w: World, w': World, s: Slot, deferred: set<Param>, handedBack: set<Param>) {
    && s in w.pending && w'.pending == w.pending - {s} && w'.heap.cells.Keys == w.heap.cells.Keys - {s}
    && PendingParams(w, true) == PendingParams(w', true) + deferred && PendingParams(w', true) !! deferred
    && PendingParams(w, false) == PendingParams(w', false) + handedBack && PendingParams(w', false) !! handedBack
    && w'.second == w.second + multiset(deferred)
    && w'.heap.returned == w.heap.returned + multiset(handedBack)
  }

  // All first passes: exactly the pending cells are gone, and every callback has had its effect.
  ghost predicate AllPassed(w: World, w': World) {
    && w'.heap.cells.Keys == w.heap.cells.Keys - w.pending
    && w'.second == w.second + multiset(PendingParams(w, true))
    && w'.heap.returned == w.heap.returned + multiset(PendingParams(w, false))
  }

  lemma OnePass(w: World, st: Step) returns (s: Slot, deferred: set<Param>, handedBack: set<Param>)
    requires Reachable(w) && Enabled(w, st) && IsFirstPass(st)
    ensures PassDone(w, Next(w, st), s, deferred, handedBack)
  {
    hide Enabled, Next, Reachable, PendingParams;
    if st.OwnPassOf? {
      OwnPassStep(w, st.x);
      s, deferred, handedBack := VarVal(w, st.x), {}, {};
    } else {
      FirstPassStep(w, st.s, st.m, st.key, st.serial);
      var p := MapMade(st.m, st.key, st.serial);
      s := st.s;
      deferred := if p in PendingParams(w, true) then {p} else {};
      handedBack := {p} - deferred;
    }
  }

  lemma PassThenRest(w: World, w1: World, w': World, s: Slot, deferred: set<Param>, handedBack: set<Param>)
    requires PassDone(w, w1, s, deferred, handedBack) && AllPassed(w1, w')
    ensures AllPassed(w, w')
  {
    Together(PendingParams(w1, true), deferred);
    Together(PendingParams(w1, false), handedBack);
    hide PendingParams;
  }

  lemma Together(a: set<Param>, b: set<Param>)
    requires a !! b
    ensures multiset(a + b) == multiset(b) + multiset(a)
  {
  }

  // Any order of first passes that leaves none pending.
  lemma {:induction false} FirstPasses(w: World, passes: seq<Step>)
    requires Reachable(w) && CanRun(w, passes) && Run(w, passes).pending == {}
    requires forall i :: 0 <= i < |passes| ==> IsFirstPass(passes[i])
    ensures Reachable(Run(w, passes)) && AllPassed(w, Run(w, passes)) && |passes| == |w.pending|
    decreases |passes|
  {
    hide Enabled, Next, Reachable, PendingParams, AllPassed, PassDone, IsFirstPass;
    if passes == [] {
      NothingPending(w);
    } else {
      var next := Next(w, passes[0]);
      var s, deferred, handedBack := OnePass(w, passes[0]);
      ReachableNext(w, passes[0]);
      FirstPasses(next, passes[1..]);
      PassThenRest(w, next, Run(w, passes), s, deferred, handedBack);
      OneLess(w, next, s, deferred, handedBack);
    }
  }

  lemma OneLess(w: World, w': World, s: Slot, deferred: set<Param>, handedBack: set<Param>)
    requires PassDone(w, w', s, deferred, handedBack)
    ensures |w.pending| == |w'.pending| + 1
  {
  }

  lemma NothingPending(w: World)
    requires w.pending == {}
    ensures AllPassed(w, w)
  {
    assert PendingParams(w, true) == {} && PendingParams(w, false) == {};
  }

  lemma FirstPassStep(w: World, s: Slot, m: nat, k: Key, serial: nat)
    requires Reachable(w) && Enabled(w, FirstPassOf(s, m, k, serial))
    ensures var w', p := Next(w, FirstPassOf(s, m, k, serial)), MapMade(m, k, serial);
      && s in w.pending && w'.pending == w.pending - {s}
      && w'.heap.cells.Keys == w.heap.cells.Keys - {s}
      && PendingParams(w', true) == PendingParams(w, true) - {p}
      && PendingParams(w', false) == PendingParams(w, false) - {p}
      && (|| (p in PendingParams(w, true) && p !in PendingParams(w, false)
              && w'.second == w.second + multiset{p} && w'.heap.returned == w.heap.returned)
          || (p in PendingParams(w, false) && p !in PendingParams(w, true)
              && w'.second == w.second && w'.heap.returned == w.heap.returned + multiset{p}))
  {
    hide Next, Reachable;
    FirstPassBalance(w, s, m, k, serial);
    FirstPassData(w, s, m, k, serial);
    FirstPassExact(w, s, m, k, serial);
    ParamsDisjoint(w, MapMade(m, k, serial));
  }

  lemma ParamsDisjoint(w: World, p: Param)
    ensures !(p in PendingParams(w, true) && p in PendingParams(w, false))
  {
  }

  /**
   Two-pass protocol, for any set of weakly held objects dying together and any order of
   their first passes. The passes dispose of exactly the dying cells, schedule exactly
   one second pass for each entry of a GlobalValueMap, and dispose of the data of each
   entry of a PersistentValueMap.
  */
  lemma TwoPassCollection(w: World, dying: set<Slot>, passes: seq<Step>)
    requires Reachable(w) && Enabled(w, GcKill(dying))
    requires forall i :: 0 <= i < |passes| ==> IsFirstPass(passes[i])
    requires CanRun(Next(w, GcKill(dying)), passes) && Run(Next(w, GcKill(dying)), passes).pending == {}
    ensures var killed := Next(w, GcKill(dying));
      var w' := Run(killed, passes);
      && |passes| == |dying|
      && w'.heap.cells.Keys == w.heap.cells.Keys - dying
      && w'.second == w.second + multiset(PendingParams(killed, true))
      && w'.heap.returned == w.heap.returned + multiset(PendingParams(killed, false))
  {
    var killed := Next(w, GcKill(dying));
    assert killed.pending == dying && killed.heap.cells.Keys == w.heap.cells.Keys
      && killed.second == w.second && killed.heap.returned == w.heap.returned;
    ReachableNext(w, GcKill(dying));
    hide Enabled, Next, Reachable, PendingParams, IsFirstPass;
    FirstPasses(killed, passes);
  }

  /**
   A second pass runs after all first passes, when no cell carries its parameter any
   more; it disposes of the datum for the first and only time and cannot run again.
  */
  lemma SecondPassOnce(w: World, p: Param)
    requires Reachable(w) && Enabled(w, SecondPassOf(p))
    ensures w.pending == {} && forall s :: !AttachedTo(w, p, s)
    ensures w.heap.returned[p] == 0
    ensures var w' := Next(w, SecondPassOf(p));
      && w'.heap.returned[p] == 1 && !Enabled(w', SecondPassOf(p))
      && forall q :: q != p ==> w'.heap.returned[q] == w.heap.returned[q]
  {
    DataOverRuns(w, p);
  }

  // ---- The two assumptions about the collector, and what happens without them ----

  /**
   The data of a dying PersistentValueMap entry is disposed of once if the collector has
   taken the node out of the weak state, and twice if it has not: then Remove takes the
   callback for one still to come.
  */
  lemma NodeStateDecides(h: Heap, impl: map<Key, Slot>, k: Key, p: Param)
    requires var v := Lookup(impl, k); v != 0 && v in h.cells && h.cells[v].param == Some(p)
    ensures var h' := FirstPass(h, WeakPersistent, impl, k, p).heap;
      h'.returned[p] == h.returned[p] + 1 <==> !IsWeak(h, Lookup(impl, k))
  {
    var v := Lookup(impl, k);
    if IsWeak(h, v) {
      assert Remove(h, WeakPersistent, impl, k).heap.returned == h.returned + multiset{p};
    } else {
      assert Remove(h, WeakPersistent, impl, k).heap.returned == h.returned;
    }
  }

  // In the middle of a Clear the key no longer leads to the swapped-out cell, so a first
  // pass then could not dispose of it.
  lemma MidClearMisses(w: World, f: nat, k: Key)
    requires Reachable(w) && f in w.frames && k in w.frames[f].rest && Val(w, Swapped(f, k)) != 0
    ensures Val(w, Entry(w.frames[f].origin, k)) != Val(w, Swapped(f, k))
  {
    LinearOverRuns(w);
  }

  /**
   A map with strong entries never touches a cell when it stores, removes or hands out: a
   handle the embedder made weak comes back as weak as it went in, with its own callback.
  */
  lemma PlainKeepsCells(w: World, st: Step)
    requires Reachable(w) && Enabled(w, st)
    requires (
      || ((st.MapSet? || st.MapRemove?) && w.maps[st.m].kind.Plain?)
      || (st.HandOut? && w.frames[st.f].kind.Plain?)
    )
    ensures Next(w, st).heap == w.heap
  {
    LinearOverRuns(w);
    if st.MapSet? { assert Val(w, Var(st.x)) == VarVal(w, st.x); }
    hide Reachable;
  }

  /**
   Making a handle weak marks its cell with the embedder's callback, calling the callback off
   makes it strong; what it refers to, and every other cell, stay as they were.
  */
  lemma FlagStepsExact(w: World, st: Step)
    requires Reachable(w) && Enabled(w, st) && (st.SetWeak? || st.ClearVarWeak?)
    ensures var s, w' := VarVal(w, st.x), Next(w, st);
      && SameOutside(w.heap, w'.heap, {s}) && s in w.heap.cells && s in w'.heap.cells
      && w'.heap.cells[s].referent == w.heap.cells[s].referent
      && IsWeak(w'.heap, s) == st.SetWeak?
      && w'.heap.cells[s].param == if st.SetWeak? then Some(Own(st.serial)) else None
  {
    LinearOverRuns(w);
    assert Val(w, Var(st.x)) == VarVal(w, st.x);
    hide Reachable;
  }

  // ---- References into a map ----

  // The steps GetReference's comment names for the entry of key k in map m.
  predicate Invalidates(st: Step, m: nat, k: Key) {
    match st
    case MapSet(m', k', _, _, _) => m' == m && k' == k
    case MapRemove(m', k', _) => m' == m && k' == k
    case FirstPassOf(_, m', k', _) => m' == m && k' == k
    case SwapOut(m', _) => m' == m
    case _ => false
  }

  // Where a step leaves the word stored for a key, by kind of step.
  lemma MapStepWord(w: World, st: Step, m: nat, k: Key)
    requires Enabled(w, st) && (st.MapSet? || st.MapRemove? || st.FirstPassOf?)
    ensures Val(Next(w, st), Entry(m, k)) ==
      if !Invalidates(st, m, k) then Val(w, Entry(m, k)) else if st.MapSet? then Val(w, Var(st.x)) else 0
  {
    if st.MapSet? {
      MapSetFrame(w, st.m, st.key, st.x, st.serial, st.r);
    } else if st.MapRemove? {
      MapRemoveFrame(w, st.m, st.key, st.r);
    } else {
      FirstPassFrame(w, st.s, st.m, st.key, st.serial);
    }
    hide Next, Enabled;
  }

  lemma OtherStepWord(w: World, st: Step, m: nat, k: Key)
    requires Enabled(w, st) && !(st.MapSet? || st.MapRemove? || st.FirstPassOf?)
    ensures Val(Next(w, st), Entry(m, k)) == if Invalidates(st, m, k) then 0 else Val(w, Entry(m, k))
  {
    hide Reset, ResetLocal, ResetPersistent, Release, DisposeWords;
  }

  /**
   A PersistentValueReference equals the word stored for its key as long as, and only
   as long as, none of those steps is taken; meanwhile its cell stays live.
  */
  lemma ReferenceStability(w: World, st: Step, m: nat, k: Key)
    requires Reachable(w) && Enabled(w, st) && Val(w, Entry(m, k)) != 0
    ensures Val(Next(w, st), Entry(m, k)) == Val(w, Entry(m, k)) <==> !Invalidates(st, m, k)
    ensures !Invalidates(st, m, k) ==> Val(w, Entry(m, k)) in Next(w, st).heap.cells
  {
    ReachableNext(w, st);
    LinearOverRuns(Next(w, st));
    LinearOverRuns(w);
    hide Next, Enabled, Reachable, Val, Invalidates;
    if st.MapSet? || st.MapRemove? || st.FirstPassOf? {
      MapStepWord(w, st, m, k);
    } else {
      OtherStepWord(w, st, m, k);
    }
  }

  lemma {:induction false} ReferenceOverRuns(w: World, steps: seq<Step>, m: nat, k: Key)
    requires Reachable(w) && CanRun(w, steps) && Val(w, Entry(m, k)) != 0
    requires forall i :: 0 <= i < |steps| ==> !Invalidates(steps[i], m, k)
    ensures Val(Run(w, steps), Entry(m, k)) == Val(w, Entry(m, k))
    ensures Val(w, Entry(m, k)) in Run(w, steps).heap.cells
    decreases |steps|
  {
    hide Enabled, Next, Reachable, Val;
    if steps == [] {
      LinearOverRuns(w);
    } else {
      ReferenceStability(w, steps[0], m, k);
      ReachableNext(w, steps[0]);
      ReferenceOverRuns(Next(w, steps[0]), steps[1..], m, k);
    }
  }
}
