/**
 Building the signature of a fast function: CTypeInfoBuilder, and the chain of Arg and Ret
 calls on CFunctionBuilderWithFunction. A static_assert that fails makes the expression not
 compile, which is None here.
*/
module Signatures {
  import opened Basics
  import opened FastCallTypes

  // CTypeInfoBuilder<T, Flags...>: what is known of T, and the flags given with it.
  datatype Builder = Builder(base: CTypeInfo, added: seq<bv8>)

  datatype Signature = Signature(ret: Builder, args: seq<Builder>)

  datatype Step = Ret(flags: seq<bv8>) | Arg(n: nat, flags: seq<bv8>)

  const ALLOW_SHARED_BIT: bv8 := 1
  const ENFORCE_RANGE_BIT: bv8 := 2
  const CLAMP_BIT: bv8 := 4
  const IS_RESTRICTED_BIT: bv8 := 8

  function MergeFlags(flags: seq<bv8>): bv8 {
    if flags == [] then 0 else flags[0] | MergeFlags(flags[1..])
  }

  function FlagsOf(b: Builder): bv8 {
    MergeFlags([b.base.flags] + b.added)
  }

  predicate IsIntegralType(t: BaseType) {
    t == Uint8 || t == Int32Type || t == Uint32Type || t == Int64Type || t == Uint64Type
  }

  predicate IsFloatingPointType(t: BaseType) {
    t == Float32 || t == Float64
  }

  predicate IsPrimitive(t: BaseType) {
    IsIntegralType(t) || IsFloatingPointType(t) || t == Bool
  }

  // The static assertions of CTypeInfoBuilder::Build.
  predicate Allowed(base: CTypeInfo, flags: bv8) {
    && (flags & ALLOW_SHARED_BIT == 0 || base.sequence == IsTypedArray || base.sequence == IsArrayBuffer)
    && (flags & ENFORCE_RANGE_BIT == 0 || IsIntegralType(base.base))
    && (flags & CLAMP_BIT == 0 || IsIntegralType(base.base))
    && (flags & IS_RESTRICTED_BIT == 0 || IsFloatingPointType(base.base))
    && (base.sequence != IsSequence || base.base == Void)
    && (base.sequence != IsTypedArray || IsPrimitive(base.base) || base.base == Void)
  }

  function BuildInfo(b: Builder): Option<CTypeInfo> {
    if Allowed(b.base, FlagsOf(b)) then Some(b.base.(flags := FlagsOf(b))) else None
  }

  // GetArgBuilder<true, N, Flags...>, which builds the old argument for its flags.
  function Merged(b: Builder, flags: seq<bv8>): Builder {
    Builder(b.base, [FlagsOf(b)] + flags)
  }

  // The pack expansion of ArgImpl over the argument builders, of which I is the first.
  function ArgImpl(args: seq<Builder>, n: nat, flags: seq<bv8>, I: nat): Option<seq<Builder>> {
    if args == [] then Some([])
    else if I == n && BuildInfo(args[0]).None? then None
    else
      match ArgImpl(args[1..], n, flags, I + 1)
      case None => None
      case Some(rest) => Some([if I == n then Merged(args[0], flags) else args[0]] + rest)
  }

  function Apply(sig: Signature, step: Step): Option<Signature> {
    match step
    case Ret(flags) => Some(sig.(ret := Builder(sig.ret.base, flags)))
    case Arg(n, flags) =>
      match ArgImpl(sig.args, n, flags, 0)
      case None => None
      case Some(args) => Some(sig.(args := args))
  }

  function Run(sig: Signature, steps: seq<Step>): Option<Signature>
    decreases |steps|
  {
    if steps == [] then Some(sig)
    else
      match Apply(sig, steps[0])
      case None => None
      case Some(next) => Run(next, steps[1..])
  }

  predicate CanReturn(t: BaseType) {
    t in {Void, Bool, Int32Type, Uint32Type, Float32, Float64, Pointer, AnyType}
  }

  // A template parameter: a plain C++ type or a CTypeInfoBuilder for one.
  datatype TypeParam = Plain(info: CTypeInfo) | OfBuilder(builder: Builder)

  function Count(t: TypeParam, list: seq<TypeParam>): nat {
    if list == [] then 0 else (if list[0] == t then 1 else 0) + Count(t, list[1..])
  }

  function Params(args: seq<Builder>): seq<TypeParam> {
    if args == [] then [] else [OfBuilder(args[0])] + Params(args[1..])
  }

  // FastApiCallbackOptions&
  const OPTIONS_TYPE := CTypeInfo(CallbackOptions, Scalar, 0)

  // The two static assertions of CFunctionInfoImpl about the options parameter.
  predicate OptionsChecked(args: seq<Builder>) {
    var options := Count(Plain(OPTIONS_TYPE), Params(args));
    (options == 0 || options == 1) && |args| >= options + 1
  }

  // What the messages of those assertions ask for.
  predicate OptionsIntended(args: seq<Builder>) {
    var options := OptionsAmong(args);
    options <= 1 && |args| >= options + 1
  }

  function OptionsAmong(args: seq<Builder>): nat {
    if args == [] then 0 else (if args[0].base == OPTIONS_TYPE then 1 else 0) + OptionsAmong(args[1..])
  }

  // The type information Build leaves in CFunctionInfoImpl.
  datatype Info = Info(ret: CTypeInfo, args: seq<CTypeInfo>)

  predicate Buildable(sig: Signature) {
    && BuildInfo(sig.ret).Some? && CanReturn(sig.ret.base.base) && OptionsChecked(sig.args)
    && forall i :: 0 <= i < |sig.args| ==> BuildInfo(sig.args[i]).Some?
  }

  function Build(sig: Signature): Option<Info> {
    if Buildable(sig) then
      var args := seq(|sig.args|, i requires 0 <= i < |sig.args| => BuildInfo(sig.args[i]).value);
      Some(Info(BuildInfo(sig.ret).value, args))
    else None
  }

  function RunAndBuild(sig: Signature, steps: seq<Step>): Option<Info> {
    match Run(sig, steps)
    case None => None
    case Some(end) => Build(end)
  }

  // ---- Flags as unions ----

  /** Merging takes the union: a bit is in the result exactly if some flag has it. */
  lemma {:induction false} MergeIsUnion(flags: seq<bv8>, mask: bv8)
    ensures Has(MergeFlags(flags), mask) <==> exists f :: f in flags && Has(f, mask)
  {
    if flags != [] {
      MergeIsUnion(flags[1..], mask);
      OrMask(flags[0], MergeFlags(flags[1..]), mask);
      assert flags == [flags[0]] + flags[1..];
      hide Has;
      if f :| f in flags[1..] && Has(f, mask) { assert f in flags; }
      if Has(flags[0], mask) { assert flags[0] in flags; }
    }
  }

  predicate Has(flags: bv8, mask: bv8) {
    flags & mask != 0
  }

  lemma OrMask(a: bv8, b: bv8, mask: bv8)
    ensures Has(a | b, mask) <==> Has(a, mask) || Has(b, mask)
  {
  }

  lemma {:induction false} MergeAppend(a: seq<bv8>, b: seq<bv8>)
    ensures MergeFlags(a + b) == MergeFlags(a) | MergeFlags(b)
  {
    if a == [] {
      assert a + b == b;
      OrZero(MergeFlags(b));
    } else {
      assert (a + b)[1..] == a[1..] + b;
      MergeAppend(a[1..], b);
      OrAssociative(a[0], MergeFlags(a[1..]), MergeFlags(b));
    }
  }

  lemma OrZero(a: bv8)
    ensures 0 | a == a && a | 0 == a
  {
  }

  lemma OrAssociative(a: bv8, b: bv8, c: bv8)
    ensures (a | b) | c == a | (b | c)
  {
  }

  /** The merged flags depend on the set of flags only: not on order or repetition. */
  lemma MergeSameSet(a: seq<bv8>, b: seq<bv8>)
    requires forall f :: f in a <==> f in b
    ensures MergeFlags(a) == MergeFlags(b)
  {
    var x, y := MergeFlags(a), MergeFlags(b);
    MergeIsUnion(a, x & !y);
    MergeIsUnion(b, x & !y);
    MergeIsUnion(a, y & !x);
    MergeIsUnion(b, y & !x);
    hide MergeFlags;
    DifferenceEmpty(x, y);
  }

  lemma DifferenceEmpty(x: bv8, y: bv8)
    requires Has(x, x & !y) <==> Has(y, x & !y)
    requires Has(x, y & !x) <==> Has(y, y & !x)
    ensures x == y
  {
  }

  /** If a set of flags is allowed, so is every part of it. */
  lemma AllowedMonotone(base: CTypeInfo, flags: bv8, more: bv8)
    requires Allowed(base, flags | more)
    ensures Allowed(base, flags)
  {
    OrMask(flags, more, ALLOW_SHARED_BIT);
    OrMask(flags, more, ENFORCE_RANGE_BIT);
    OrMask(flags, more, CLAMP_BIT);
    OrMask(flags, more, IS_RESTRICTED_BIT);
  }

  // ---- Chains of Arg and Ret ----

  // All flags that the steps apply at argument i, in order.
  function Collected(steps: seq<Step>, i: nat): seq<bv8> {
    if steps == [] then []
    else (if steps[0].Arg? && steps[0].n == i then steps[0].flags else []) + Collected(steps[1..], i)
  }

  function LastRet(steps: seq<Step>, ret: Builder): Builder
    decreases |steps|
  {
    if steps == [] then ret
    else LastRet(steps[1..], if steps[0].Ret? then Builder(ret.base, steps[0].flags) else ret)
  }

  // The flags argument i ends with: those it starts with and those applied at i.
  function Total(b: Builder, steps: seq<Step>, i: nat): bv8 {
    FlagsOf(b) | MergeFlags(Collected(steps, i))
  }

  // An argument list with the same base types whose builders carry the flags of the steps.
  ghost predicate Carries(start: seq<Builder>, end: seq<Builder>, steps: seq<Step>) {
    && |end| == |start|
    && forall i :: 0 <= i < |start| ==> end[i].base == start[i].base && FlagsOf(end[i]) == Total(start[i], steps, i)
  }

  lemma MergedFlags(b: Builder, flags: seq<bv8>)
    ensures FlagsOf(Merged(b, flags)) == FlagsOf(b) | MergeFlags(flags)
  {
    var own := b.base.flags;
    MergeOne(own, b.added);
    MergeOne(own, [FlagsOf(b)] + flags);
    MergeOne(FlagsOf(b), flags);
    hide MergeFlags;
    OrAbsorbs(own, MergeFlags(b.added), MergeFlags(flags));
  }

  lemma MergeOne(first: bv8, rest: seq<bv8>)
    ensures MergeFlags([first] + rest) == first | MergeFlags(rest)
  {
    assert ([first] + rest)[1..] == rest;
  }

  lemma OrAbsorbs(a: bv8, b: bv8, c: bv8)
    ensures a | ((a | b) | c) == (a | b) | c
  {
  }

  // ArgImpl changes position n only, and fails only if the builder there does not build.
  lemma {:induction false} ArgImplExact(args: seq<Builder>, n: nat, flags: seq<bv8>, I: nat)
    ensures ArgImpl(args, n, flags, I).None? <==> I <= n < I + |args| && BuildInfo(args[n - I]).None?
    ensures ArgImpl(args, n, flags, I).Some? ==> ChangedAt(args, ArgImpl(args, n, flags, I).value, n - I, flags)
  {
    hide BuildInfo, Merged;
    if args != [] {
      ArgImplExact(args[1..], n, flags, I + 1);
      if I != n && n > I && n < I + |args| { assert args[n - I] == args[1..][n - I - 1]; }
    }
  }

  ghost predicate ChangedAt(args: seq<Builder>, next: seq<Builder>, n: int, flags: seq<bv8>) {
    && |next| == |args|
    && forall k :: 0 <= k < |args| ==> next[k] == if k == n then Merged(args[k], flags) else args[k]
  }

  // Collected and LastRet, one step at a time.
  lemma StepTotal(b: Builder, steps: seq<Step>, i: nat)
    requires steps != []
    ensures (steps[0].Arg? && steps[0].n == i) ==> (
      Total(b, steps, i) == FlagsOf(Merged(b, steps[0].flags)) | MergeFlags(Collected(steps[1..], i))
    )
    ensures !(steps[0].Arg? && steps[0].n == i) ==> Total(b, steps, i) == Total(b, steps[1..], i)
  {
    hide FlagsOf, Merged, MergeFlags;
    if steps[0].Arg? && steps[0].n == i {
      MergedFlags(b, steps[0].flags);
      MergeAppend(steps[0].flags, Collected(steps[1..], i));
      OrAssociative(FlagsOf(b), MergeFlags(steps[0].flags), MergeFlags(Collected(steps[1..], i)));
    } else {
      assert [] + Collected(steps[1..], i) == Collected(steps[1..], i);
    }
  }

  // What a chain that compiles has built up.
  lemma {:induction false} RunCarries(sig: Signature, steps: seq<Step>)
    ensures Run(sig, steps).Some? ==> (
      && Carries(sig.args, Run(sig, steps).value.args, steps)
      && Run(sig, steps).value.ret == LastRet(steps, sig.ret)
    )
    decreases |steps|
  {
    hide FlagsOf, Merged, BuildInfo, MergeFlags, ArgImpl, Total;
    if steps == [] {
      forall i | 0 <= i < |sig.args| ensures FlagsOf(sig.args[i]) == Total(sig.args[i], steps, i) {
        NoSteps(sig.args[i], i);
      }
    } else if Apply(sig, steps[0]).Some? {
      var next := Apply(sig, steps[0]).value;
      RunCarries(next, steps[1..]);
      if steps[0].Arg? { ArgImplExact(sig.args, steps[0].n, steps[0].flags, 0); }
      forall i | 0 <= i < |sig.args|
        ensures Total(next.args[i], steps[1..], i) == Total(sig.args[i], steps, i)
        ensures next.args[i].base == sig.args[i].base
      {
        StepTotal(sig.args[i], steps, i);
        NextTotal(sig.args[i], next.args[i], steps, i);
      }
    }
  }

  lemma NoSteps(b: Builder, i: nat)
    ensures Total(b, [], i) == FlagsOf(b)
  {
    OrZero(FlagsOf(b));
  }

  lemma NextTotal(b: Builder, next: Builder, steps: seq<Step>, i: nat)
    requires steps != []
    requires next == if steps[0].Arg? && steps[0].n == i then Merged(b, steps[0].flags) else b
    ensures Total(next, steps[1..], i) == Total(b, steps, i) && next.base == b.base
  {
    hide FlagsOf, MergeFlags;
    StepTotal(b, steps, i);
  }

  // The chain compiles if the flags it ends with are allowed at every argument.
  lemma {:induction false} RunCompiles(sig: Signature, steps: seq<Step>)
    requires forall i :: 0 <= i < |sig.args| ==> Allowed(sig.args[i].base, Total(sig.args[i], steps, i))
    ensures Run(sig, steps).Some?
    decreases |steps|
  {
    hide FlagsOf, Merged, MergeFlags, ArgImpl, Allowed, Total;
    if steps != [] {
      if steps[0].Arg? {
        ArgImplExact(sig.args, steps[0].n, steps[0].flags, 0);
        if steps[0].n < |sig.args| { PartAllowed(sig.args[steps[0].n], steps, steps[0].n); }
      }
      var next := Apply(sig, steps[0]).value;
      forall i | 0 <= i < |next.args| ensures Allowed(next.args[i].base, Total(next.args[i], steps[1..], i)) {
        NextTotal(sig.args[i], next.args[i], steps, i);
      }
      RunCompiles(next, steps[1..]);
    }
  }

  lemma PartAllowed(b: Builder, steps: seq<Step>, i: nat)
    requires Allowed(b.base, Total(b, steps, i))
    ensures BuildInfo(b).Some?
  {
    hide Allowed, FlagsOf, MergeFlags;
    AllowedMonotone(b.base, FlagsOf(b), MergeFlags(Collected(steps, i)));
  }

  // The signature a chain stands for, argument by argument and without intermediate steps.
  ghost predicate Wanted(sig: Signature, steps: seq<Step>) {
    var ret := LastRet(steps, sig.ret);
    && BuildInfo(ret).Some? && CanReturn(ret.base.base) && |sig.args| >= 1
    && forall i :: 0 <= i < |sig.args| ==> Allowed(sig.args[i].base, Total(sig.args[i], steps, i))
  }

  /**
   A chain of Arg and Ret calls of any length compiles and builds exactly if the flags it
   ends with are allowed; then every argument has its base type and the union of its flags
   and all flags applied to it, and the return type has the flags of the last Ret.
  */
  lemma SignatureExact(sig: Signature, steps: seq<Step>)
    ensures RunAndBuild(sig, steps).Some? <==> Wanted(sig, steps)
    ensures Wanted(sig, steps) ==> (
      var info := RunAndBuild(sig, steps).value;
      && Some(info.ret) == BuildInfo(LastRet(steps, sig.ret)) && |info.args| == |sig.args|
      && forall i :: 0 <= i < |sig.args| ==> info.args[i] == sig.args[i].base.(flags := Total(sig.args[i], steps, i))
    )
  {
    hide FlagsOf, MergeFlags, Allowed, Total, Run, LastRet;
    RunCarries(sig, steps);
    if Run(sig, steps).Some? { OptionsUnchecked(Run(sig, steps).value.args); }
    if Wanted(sig, steps) { RunCompiles(sig, steps); }
    hide OptionsChecked;
  }

  // Only the set of Arg steps and the last Ret matter.
  ghost predicate SameSteps(a: seq<Step>, b: seq<Step>, ret: Builder) {
    LastRet(a, ret) == LastRet(b, ret) && forall s: Step :: s.Arg? ==> (s in a <==> s in b)
  }

  lemma {:induction false} CollectedFrom(steps: seq<Step>, i: nat, f: bv8)
    ensures f in Collected(steps, i) <==> exists s :: s in steps && s.Arg? && s.n == i && f in s.flags
  {
    if steps != [] {
      CollectedFrom(steps[1..], i, f);
      assert steps == [steps[0]] + steps[1..];
      assert forall s :: s in steps <==> s == steps[0] || s in steps[1..];
    }
  }

  /** Reordering or repeating Arg calls never shows in the signature built, nor in whether it builds. */
  lemma ArgOrderIrrelevant(sig: Signature, a: seq<Step>, b: seq<Step>)
    requires SameSteps(a, b, sig.ret)
    ensures RunAndBuild(sig, a) == RunAndBuild(sig, b)
  {
    forall i | 0 <= i < |sig.args| ensures Total(sig.args[i], a, i) == Total(sig.args[i], b, i) {
      SameCollected(a, b, sig.ret, i);
    }
    SignatureExact(sig, a);
    SignatureExact(sig, b);
    hide RunAndBuild, Total, SameSteps;
    assert LastRet(a, sig.ret) == LastRet(b, sig.ret) by { SameRet(a, b, sig.ret); }
    hide LastRet, BuildInfo, Allowed;
    assert Wanted(sig, a) <==> Wanted(sig, b);
    if Wanted(sig, a) { assert RunAndBuild(sig, a).value.args == RunAndBuild(sig, b).value.args; }
  }

  lemma SameRet(a: seq<Step>, b: seq<Step>, ret: Builder)
    requires SameSteps(a, b, ret)
    ensures LastRet(a, ret) == LastRet(b, ret)
  {
  }

  lemma SameCollected(a: seq<Step>, b: seq<Step>, ret: Builder, i: nat)
    requires SameSteps(a, b, ret)
    ensures MergeFlags(Collected(a, i)) == MergeFlags(Collected(b, i))
  {
    hide MergeFlags, Collected, LastRet;
    forall f ensures f in Collected(a, i) <==> f in Collected(b, i) {
      CollectedFrom(a, i, f);
      CollectedFrom(b, i, f);
    }
    MergeSameSet(Collected(a, i), Collected(b, i));
  }

  // ---- The options parameter ----

  /**
   The check meant to allow one options parameter at most compares a plain type with
   builder types, so it counts none and asks only for one argument.
  */
  lemma {:induction false} OptionsUnchecked(args: seq<Builder>)
    ensures Count(Plain(OPTIONS_TYPE), Params(args)) == 0
    ensures OptionsChecked(args) <==> |args| >= 1
  {
    if args != [] {
      OptionsUnchecked(args[1..]);
      assert Params(args)[1..] == Params(args[1..]);
    }
  }

  /**
   The check agrees with its messages exactly for parameter lists with no options parameter,
   or with one and a receiver besides.
  */
  lemma OptionsCheckMeetsIntent(args: seq<Builder>)
    ensures (OptionsChecked(args) <==> OptionsIntended(args)) <==>
      (OptionsAmong(args) == 0 || (OptionsAmong(args) == 1 && |args| >= 2))
  {
    OptionsUnchecked(args);
  }

  /** Two options parameters and no receiver compile, against the messages of the check. */
  lemma TwoOptionsAccepted()
    ensures var b := Builder(OPTIONS_TYPE, []);
      OptionsChecked([b, b]) && !OptionsIntended([b, b]) && OptionsChecked([b]) && !OptionsIntended([b])
  {
    var b := Builder(OPTIONS_TYPE, []);
    OptionsUnchecked([b, b]);
    OptionsUnchecked([b]);
    assert [b, b][1..] == [b] && [b][1..] == [];
    assert OptionsAmong([b]) == 1;
    assert OptionsAmong([b, b]) == 2;
  }

  // ---- The same without reference to how flags are collected ----

  /**
   Bit by bit: an argument ends with the bits of its type, those it was built with, and those
   of the flags of every Arg call for it, and with no others.
  */
  lemma ArgumentBits(b: Builder, steps: seq<Step>, i: nat, mask: bv8)
    ensures Has(Total(b, steps, i), mask) <==>
      || Has(b.base.flags, mask)
      || (exists f :: f in b.added && Has(f, mask))
      || (exists s, f :: s in steps && s.Arg? && s.n == i && f in s.flags && Has(f, mask))
  {
    hide *;
    TotalBits(b, steps, i, mask);
    BuilderBits(b, mask);
    MergeIsUnion(b.added, mask);
    MergeIsUnion(Collected(steps, i), mask);
    CollectedBits(steps, i, mask);
  }

  lemma TotalBits(b: Builder, steps: seq<Step>, i: nat, mask: bv8)
    ensures Has(Total(b, steps, i), mask) <==> Has(FlagsOf(b), mask) || Has(MergeFlags(Collected(steps, i)), mask)
  {
    hide Has, FlagsOf, MergeFlags, Collected;
    OrMask(FlagsOf(b), MergeFlags(Collected(steps, i)), mask);
  }

  lemma BuilderBits(b: Builder, mask: bv8)
    ensures Has(FlagsOf(b), mask) <==> Has(b.base.flags, mask) || Has(MergeFlags(b.added), mask)
  {
    MergeOne(b.base.flags, b.added);
    hide Has, MergeFlags;
    OrMask(b.base.flags, MergeFlags(b.added), mask);
  }

  lemma CollectedBits(steps: seq<Step>, i: nat, mask: bv8)
    ensures (exists f :: f in Collected(steps, i) && Has(f, mask)) <==>
      exists s, f :: s in steps && s.Arg? && s.n == i && f in s.flags && Has(f, mask)
  {
    hide Has, Collected;
    if f :| f in Collected(steps, i) && Has(f, mask) {
      CollectedFrom(steps, i, f);
    }
    if s, f :| s in steps && s.Arg? && s.n == i && f in s.flags && Has(f, mask) {
      CollectedFrom(steps, i, f);
    }
  }

  /** The last Ret decides, whatever Arg calls come after it; without one nothing changes. */
  lemma {:induction false} ArgsKeepRet(steps: seq<Step>, ret: Builder)
    requires forall i :: 0 <= i < |steps| ==> steps[i].Arg?
    ensures LastRet(steps, ret) == ret
    decreases |steps|
  {
    if steps != [] { ArgsKeepRet(steps[1..], ret); }
  }

  lemma {:induction false} LastRetDecides(before: seq<Step>, flags: seq<bv8>, after: seq<Step>, ret: Builder)
    requires forall i :: 0 <= i < |after| ==> after[i].Arg?
    ensures LastRet(before + [Ret(flags)] + after, ret) == Builder(ret.base, flags)
    decreases |before|
  {
    var steps := before + [Ret(flags)] + after;
    if before == [] {
      assert steps[1..] == after;
      ArgsKeepRet(after, Builder(ret.base, flags));
    } else {
      assert steps[0] == before[0] && steps[1..] == before[1..] + [Ret(flags)] + after;
      LastRetDecides(before[1..], flags, after, if before[0].Ret? then Builder(ret.base, before[0].flags) else ret);
    }
  }

  /**
   Which flags a type may carry: sharing for typed arrays and buffers, range checks and
   clamping for integers, restriction for floating point; and of what there are sequences and
   typed arrays.
  */
  lemma AllowedFlags(base: CTypeInfo, flags: bv8)
    ensures Allowed(base, flags) <==>
      && (Has(flags, 1) ==> base.sequence in {IsTypedArray, IsArrayBuffer})
      && (Has(flags, 6) ==> base.base in {Uint8, Int32Type, Uint32Type, Int64Type, Uint64Type})
      && (Has(flags, 8) ==> base.base in {Float32, Float64})
      && (base.sequence == IsSequence ==> base.base == Void)
      && (base.sequence == IsTypedArray ==>
            base.base !in {Pointer, V8Value, SeqOneByteString, ApiObject, AnyType, CallbackOptions})
  {
  }

  /** No type can be clamped or range-checked and restricted to finite values at once. */
  lemma ClampExcludesRestricted(base: CTypeInfo, flags: bv8)
    requires Allowed(base, flags) && Has(flags, IS_RESTRICTED_BIT)
    ensures !Has(flags, CLAMP_BIT) && !Has(flags, ENFORCE_RANGE_BIT)
  {
  }

  /** The types a fast function cannot return. */
  lemma CannotReturn(t: BaseType)
    ensures !CanReturn(t) <==>
      t in {Uint8, Int64Type, Uint64Type, V8Value, SeqOneByteString, ApiObject, CallbackOptions}
  {
  }
}
