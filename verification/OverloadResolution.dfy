/** CFunction::GetOverloadResolution: its loop, and exactly what it decides. */
module OverloadResolution {
  import opened Tagging
  import opened FastCallTypes

  datatype Resolution = Impossible | AtRuntime | AtCompileTime

  // Position i holds different sequence types in the two functions.
  predicate Differs(f: ArgInfos, g: ArgInfos, i: nat) {
    i < ArgumentCount(f) && i < ArgumentCount(g) && f[i].sequence != g[i].sequence
  }

  // Position i differs and one side is a scalar.
  predicate ScalarClash(f: ArgInfos, g: ArgInfos, i: nat) {
    Differs(f, g, i) && (f[i].sequence == Scalar || g[i].sequence == Scalar)
  }

  // What the comments promise: one differing position at most, and no scalar there.
  ghost predicate Resolvable(f: ArgInfos, g: ArgInfos) {
    && (forall i: nat, j: nat :: Differs(f, g, i) && Differs(f, g, j) ==> i == j)
    && (forall i: nat :: !ScalarClash(f, g, i))
  }

  // Two differing positions the loop tells apart: diff_index is an int, so a first
  // position from 2 to the 31 on turns negative in it and is taken for none.
  ghost predicate DiffersTwice(f: ArgInfos, g: ArgInfos) {
    exists i: nat, j: nat :: i < j && i < TWO_TO_31 && Differs(f, g, i) && Differs(f, g, j)
  }

  ghost function Decision(f: ArgInfos, g: ArgInfos): Resolution {
    if ArgumentCount(f) != ArgumentCount(g) then AtCompileTime
    else if DiffersTwice(f, g) || (exists i: nat :: ScalarClash(f, g, i)) then Impossible
    else AtRuntime
  }

  method GetOverloadResolution(f: ArgInfos, g: ArgInfos) returns (r: Resolution)
    ensures r == Decision(f, g)
  {
    if ArgumentCount(f) != ArgumentCount(g) {
      return AtCompileTime;
    }
    hide ToInt32;
    var diffIndex: Int32 := -1;
    var i := 0;
    while i < ArgumentCount(f)
      invariant 0 <= i <= ArgumentCount(f)
      invariant forall k: nat :: k < i ==> !ScalarClash(f, g, k)
      invariant diffIndex >= 0 ==> diffIndex < i && Differs(f, g, diffIndex)
      invariant diffIndex < 0 ==> forall k: nat :: k < i && k < TWO_TO_31 ==> !Differs(f, g, k)
      invariant forall j: nat, k: nat :: j < k < i && j < TWO_TO_31 ==> !(Differs(f, g, j) && Differs(f, g, k))
    {
      if f[i].sequence != g[i].sequence {
        assert Differs(f, g, i);
        if diffIndex >= 0 {
          return Impossible;
        }
        ToInt32OfUnsigned(i);
        diffIndex := ToInt32(i);
        if f[i].sequence == Scalar || g[i].sequence == Scalar {
          assert ScalarClash(f, g, i);
          return Impossible;
        }
      }
      i := i + 1;
    }
    return AtRuntime;
  }

  // The implicit conversion of an unsigned int to an int.
  lemma ToInt32OfUnsigned(v: nat)
    requires v < TWO_TO_32
    ensures ToInt32(v) == if v < TWO_TO_31 then v else v - TWO_TO_32
  {
  }

  // The comments' answer for functions of the same arity.
  ghost function Promised(f: ArgInfos, g: ArgInfos): Resolution {
    if Resolvable(f, g) then AtRuntime else Impossible
  }

  /**
   The answer falls short of the promised one exactly for functions that differ at two or
   more positions, all of them from 2 to the 31 on and none of them scalar.
  */
  lemma WrongExactly(f: ArgInfos, g: ArgInfos)
    requires ArgumentCount(f) == ArgumentCount(g)
    ensures Decision(f, g) != Promised(f, g) <==>
      && (exists i: nat, j: nat :: i < j && Differs(f, g, i) && Differs(f, g, j))
      && (forall i: nat :: Differs(f, g, i) ==> i >= TWO_TO_31 && !ScalarClash(f, g, i))
  {
  }

  // n typed arrays, except that those from the given position on are array buffers.
  function TypedArrays(n: nat, buffersFrom: nat): (r: ArgInfos)
    requires n < TWO_TO_32
    ensures |r| == n == ArgumentCount(r)
    ensures forall i: nat :: i < n ==> r[i].sequence == if i < buffersFrom then IsTypedArray else IsArrayBuffer
  {
    seq(n, i => CTypeInfo(Uint8, if i < buffersFrom then IsTypedArray else IsArrayBuffer, 0))
  }

  /** Two functions that differ at the two positions after 2 to the 31 pass for resolvable. */
  lemma LateDifferencesMissed(n: nat)
    requires TWO_TO_31 + 2 <= n < TWO_TO_32
    ensures var f, g := TypedArrays(n, n), TypedArrays(n, TWO_TO_31);
      Decision(f, g) == AtRuntime && !Resolvable(f, g)
  {
    var f, g := TypedArrays(n, n), TypedArrays(n, TWO_TO_31);
    assert Differs(f, g, TWO_TO_31) && Differs(f, g, TWO_TO_31 + 1);
  }

  ghost predicate ExactAtArity(n: nat) {
    forall f: ArgInfos, g: ArgInfos :: ArgumentCount(f) == ArgumentCount(g) == n ==>
      Decision(f, g) == Promised(f, g)
  }

  /** Arity by arity: the answer is always the promised one up to 2 to the 31 plus one arguments. */
  lemma ExactUpTo(n: nat)
    requires n < TWO_TO_32
    ensures ExactAtArity(n) <==> n <= TWO_TO_31 + 1
  {
    if n <= TWO_TO_31 + 1 {
      forall f: ArgInfos, g: ArgInfos | ArgumentCount(f) == ArgumentCount(g) == n
        ensures Decision(f, g) == Promised(f, g)
      {
        WrongExactly(f, g);
      }
    } else {
      LateDifferencesMissed(n);
    }
  }

  lemma DiffersSymmetric(f: ArgInfos, g: ArgInfos)
    ensures forall i: nat :: Differs(f, g, i) <==> Differs(g, f, i)
    ensures forall i: nat :: ScalarClash(f, g, i) <==> ScalarClash(g, f, i)
  {
  }

  /** Swapping the functions never changes the answer, whatever their lengths. */
  lemma DecisionSymmetric(f: ArgInfos, g: ArgInfos)
    ensures Decision(f, g) == Decision(g, f)
  {
    DiffersSymmetric(f, g);
    hide Differs, ScalarClash;
  }

  /** A trailing options argument never takes part. */
  lemma OptionsIgnored(f: ArgInfos, g: ArgInfos, options: CTypeInfo)
    requires options.base == CallbackOptions && !HasOptions(f) && |f| + 1 < TWO_TO_32
    ensures Decision(f + [options], g) == Decision(f, g)
  {
    var with: ArgInfos := f + [options];
    assert HasOptions(with);
    assert forall i: nat :: Differs(with, g, i) <==> Differs(f, g, i);
    assert forall i: nat :: ScalarClash(with, g, i) <==> ScalarClash(f, g, i);
    hide Differs, ScalarClash, ArgumentCount;
  }
}
