/** What the multianewarray lowering guarantees: when the inline expansion is
    chosen, how many arrays it allocates, which runtime entry point is called
    otherwise, and the operand-stack traffic. */
module MultiArrayProps {
  import opened ParseTypes
  import opened Trace
  import opened MultiArray

  /** The non-final lengths' constants, as the heuristic sees them. */
  function NonFinal(env: Env, length: seq<Node>): seq<int>
    requires 1 <= |length|
  {
    Consts(env, length[..|length| - 1])
  }

  /** The allocation events after the lengths are popped, the first landing at
      index at: the expansion when it is chosen, the runtime call otherwise. */
  function Allocation(env: Env, k: ArrayKlass, length: seq<Node>, at: nat): seq<Event>
    requires 1 <= |length| <= Rank(k)
  {
    if Inlined(env, length) then
      InlinedLengthsConstant(env, length);
      Expansion(env, k, length, 0, at)
    else CallEvents(k, length, at)
  }

  /** multianewarray kills the dead locals, then allocates; nothing but the
      stack and the trace changes. */
  lemma EffectParts(s: State, env: Env, k: ArrayKlass, ndim: nat)
    requires 1 <= ndim <= Rank(k) && ndim <= |s.stack|
    ensures var r := MultiNewArrayEffect(s, env, k, ndim);
            var length := Lengths(s, ndim);
            && s.trace <= r.trace
            && Appended(s.trace, r.trace) == [DeadLocalsKilled] + Allocation(env, k, length, |s.trace| + 1)
            && r.stack == Drop(s.stack, ndim) +
                 [if Inlined(env, length) then Result(|s.trace| + 1)
                  else CastPP(Result(|r.trace| - 1), ExactArray(env.hasIntType(length[0])))]
            && r.stopped == s.stopped && r.flags == s.flags && r.bci == s.bci
  {
    var r := MultiNewArrayEffect(s, env, k, ndim);
    var a := Allocation(env, k, Lengths(s, ndim), |s.trace| + 1);
    assert r.trace == s.trace + [DeadLocalsKilled] + a;
    assert s.trace + [DeadLocalsKilled] + a == s.trace + ([DeadLocalsKilled] + a);
  }

  // Facts about the event lists.

  lemma {:induction false} DimsStoresAt(dims: Node, length: seq<Node>, j: nat)
    requires j < |length|
    ensures DimsStores(dims, length)[j] == Store(IntElement(dims, j), length[j], TInt, Unordered, false)
  {
    if j < |length| - 1 {
      DimsStoresAt(dims, length[..|length| - 1], j);
    }
  }

  lemma {:induction false} DimsStoresAreStores(dims: Node, length: seq<Node>)
    ensures Calls(DimsStores(dims, length)) == [] && CountAllocs(DimsStores(dims, length)) == 0
  {
    var st := DimsStores(dims, length);
    forall j | 0 <= j < |st|
      ensures st[j].Store?
    {
      DimsStoresAt(dims, length, j);
    }
    SelectEmpty(st, IsCall);
    SelectEmpty(st, IsAlloc);
  }

  lemma ExpansionHasNoCall(env: Env, k: ArrayKlass, lengths: seq<Node>, at: nat)
    requires 1 <= |lengths| <= Rank(k) && ConstantLengths(env, lengths)
    ensures Calls(Expansion(env, k, lengths, 0, at)) == []
  {
    var e := Expansion(env, k, lengths, 0, at);
    ExpansionEvents(env, k, lengths, 0, at);
    assert forall i :: 0 <= i < |e| ==> e[i] in e;
    SelectEmpty(e, IsCall);
  }

  /** The runtime allocation calls once, as its last event. */
  lemma CallEventsCalls(k: ArrayKlass, length: seq<Node>, at: nat)
    ensures var c := CallEvents(k, length, at);
            Calls(c) == [c[|c| - 1]]
  {
    var c := CallEvents(k, length, at);
    var call := c[|c| - 1];
    AllKept([call], IsCall);
    if |length| > 5 {
      var a := Alloc(IntArrayKlass(), IntCon(|length|), 0);
      var st := DimsStores(Result(at), length);
      assert c == [a] + st + [call];
      DimsStoresAreStores(Result(at), length);
      NoneKept([a], IsCall);
      SelectAppend([a] + st, [call], IsCall);
      SelectAppend([a], st, IsCall);
      assert Select([a], IsCall) + Select(st, IsCall) == [];
    }
  }

  /** For ranks up to 5 the runtime allocation allocates nothing itself,
      above that only the dimensions array. */
  lemma CallEventsAllocs(k: ArrayKlass, length: seq<Node>, at: nat)
    ensures CountAllocs(CallEvents(k, length, at)) == if |length| <= 5 then 0 else 1
  {
    var c := CallEvents(k, length, at);
    var call := c[|c| - 1];
    NoneKept([call], IsAlloc);
    if |length| > 5 {
      var a := Alloc(IntArrayKlass(), IntCon(|length|), 0);
      var st := DimsStores(Result(at), length);
      assert c == [a] + st + [call];
      DimsStoresAreStores(Result(at), length);
      AllKept([a], IsAlloc);
      SelectAppend([a] + st, [call], IsAlloc);
      SelectAppend([a], st, IsAlloc);
      assert Select([a], IsAlloc) + Select(st, IsAlloc) == [a];
    }
  }

  /** The calls and allocations of the runtime allocation, and above rank 5
      the allocation of the dimensions array followed by the stores that
      fill it with the lengths in order. */
  lemma CallEventsShape(k: ArrayKlass, length: seq<Node>, at: nat)
    ensures var c := CallEvents(k, length, at);
            && Calls(c) == [c[|c| - 1]]
            && (|length| <= 5 ==> c == [Call(MultiNewArray(|length|), k, length)] && CountAllocs(c) == 0)
            && (|length| > 5 ==>
                  && c[|c| - 1] == Call(MultiNewArrayN, k, [Result(at)])
                  && CountAllocs(c) == 1
                  && c[0] == Alloc(IntArrayKlass(), IntCon(|length|), 0)
                  && forall j :: 0 <= j < |length| ==>
                       c[1 + j] == Store(IntElement(Result(at), j), length[j], TInt, Unordered, false))
  {
    CallEventsCalls(k, length, at);
    CallEventsAllocs(k, length, at);
    if |length| > 5 {
      var c := CallEvents(k, length, at);
      var st := DimsStores(Result(at), length);
      forall j | 0 <= j < |length|
        ensures c[1 + j] == Store(IntElement(Result(at), j), length[j], TInt, Unordered, false)
      {
        assert c[1 + j] == st[j];
        DimsStoresAt(Result(at), length, j);
      }
    }
  }

  /** Killing the dead locals adds no call and no allocation. */
  lemma AfterKill(a: seq<Event>)
    ensures Calls([DeadLocalsKilled] + a) == Calls(a)
    ensures CountAllocs([DeadLocalsKilled] + a) == CountAllocs(a)
  {
    SelectAppend([DeadLocalsKilled], a, IsCall);
    SelectAppend([DeadLocalsKilled], a, IsAlloc);
    SelectSingleton(DeadLocalsKilled, IsCall);
    SelectSingleton(DeadLocalsKilled, IsAlloc);
  }

  /** The calls of the allocation events: none exactly when the expansion is
      chosen, else just the final runtime call. */
  lemma AllocationCalls(env: Env, k: ArrayKlass, length: seq<Node>, at: nat)
    requires 1 <= |length| <= Rank(k)
    ensures var a := Allocation(env, k, length, at);
            Calls(a) == [] <==> |length| == 1 || Expandable(NonFinal(env, length), Limit(env))
  {
    InlinedIffExpandable(env, length);
    if Inlined(env, length) {
      InlinedLengthsConstant(env, length);
      ExpansionHasNoCall(env, k, length, at);
    } else {
      CallEventsShape(k, length, at);
    }
  }

  /** The expansion's allocation count is the heuristic's, its first event the
      outer array. */
  lemma InlinedAllocation(env: Env, k: ArrayKlass, length: seq<Node>, at: nat)
    requires 1 <= |length| <= Rank(k)
    requires |length| == 1 || Expandable(NonFinal(env, length), Limit(env))
    ensures var a := Allocation(env, k, length, at);
            var d := NonFinal(env, length);
            && CountAllocs(a) == HeuristicCount(d, Limit(env)) == NestCount(d)
            && |a| >= 1 && a[0] == Alloc(k, length[0], 0)
  {
    InlinedIffExpandable(env, length);
    InlinedLengthsConstant(env, length);
    ExpansionAllocs(env, k, length, 0, at);
  }

  /** The runtime allocation's events after the kill of the dead locals. */
  lemma RuntimeAllocation(env: Env, k: ArrayKlass, length: seq<Node>, at: nat)
    requires 2 <= |length| <= Rank(k)
    requires !Expandable(NonFinal(env, length), Limit(env))
    ensures var added := [DeadLocalsKilled] + Allocation(env, k, length, at);
            && |added| >= 2
            && added[|added| - 1] == (if |length| <= 5 then Call(MultiNewArray(|length|), k, length)
                                      else Call(MultiNewArrayN, k, [Result(at)]))
            && Calls(added) == [added[|added| - 1]]
            && |added| - 1 == |CallEvents(k, length, at)|
            && (|length| <= 5 ==> CountAllocs(added) == 0)
            && (|length| > 5 ==>
                  && CountAllocs(added) == 1
                  && added[1] == Alloc(IntArrayKlass(), IntCon(|length|), 0)
                  && forall j :: 0 <= j < |length| ==>
                       added[2 + j] == Store(IntElement(Result(at), j), length[j], TInt, Unordered, false))
  {
    var c := CallEvents(k, length, at);
    InlinedIffExpandable(env, length);
    assert Allocation(env, k, length, at) == c;
    AfterKill(c);
    CallEventsShape(k, length, at);
  }

  // Properties of multianewarray.

  /** The allocation is expanded inline, and so makes no runtime call,
      exactly for one dimension or when the non-final lengths are constants
      between 1 and the limit whose running total stays within it. */
  lemma InlineIffHeuristic(s: State, env: Env, k: ArrayKlass, ndim: nat)
    requires 1 <= ndim <= Rank(k) && ndim <= |s.stack|
    ensures var r := MultiNewArrayEffect(s, env, k, ndim);
            s.trace <= r.trace &&
            (Calls(Appended(s.trace, r.trace)) == [] <==>
             ndim == 1 || Expandable(NonFinal(env, Lengths(s, ndim)), Limit(env)))
  {
    var length := Lengths(s, ndim);
    var a := Allocation(env, k, length, |s.trace| + 1);
    EffectParts(s, env, k, ndim);
    AfterKill(a);
    AllocationCalls(env, k, length, |s.trace| + 1);
  }

  /** The inline expansion allocates exactly the number of arrays the
      heuristic counted, the first being the outer array allocated with the
      first length, and pushes that outer array in place of the lengths. */
  lemma InlineAllocatesHeuristicCount(s: State, env: Env, k: ArrayKlass, ndim: nat)
    requires 1 <= ndim <= Rank(k) && ndim <= |s.stack|
    requires ndim == 1 || Expandable(NonFinal(env, Lengths(s, ndim)), Limit(env))
    ensures var r := MultiNewArrayEffect(s, env, k, ndim);
            var d := NonFinal(env, Lengths(s, ndim));
            && s.trace <= r.trace
            && CountAllocs(Appended(s.trace, r.trace)) == HeuristicCount(d, Limit(env)) == NestCount(d)
            && r.trace[|s.trace| + 1] == Alloc(k, Lengths(s, ndim)[0], 0)
            && r.stack == Drop(s.stack, ndim) + [Result(|s.trace| + 1)]
  {
    var length := Lengths(s, ndim);
    var a := Allocation(env, k, length, |s.trace| + 1);
    EffectParts(s, env, k, ndim);
    AfterKill(a);
    InlinedAllocation(env, k, length, |s.trace| + 1);
  }

  /** Otherwise the runtime allocates: ranks 2 to 5 call their own entry point
      with the lengths; higher ranks allocate an int array of the rank (right
      after the dead locals are killed), store dims[j] = length[j] into it for
      every j, and call the generic entry point with it. The call is the last
      event, and its result replaces the lengths on the stack as a non-null
      exact array, sized when the first length has a known int type. */
  lemma RuntimeCallByRank(s: State, env: Env, k: ArrayKlass, ndim: nat)
    requires 2 <= ndim <= Rank(k) && ndim <= |s.stack|
    requires !Expandable(NonFinal(env, Lengths(s, ndim)), Limit(env))
    ensures var r := MultiNewArrayEffect(s, env, k, ndim);
            var length := Lengths(s, ndim);
            var dims := Result(|s.trace| + 1);
            && s.trace <= r.trace
            && var added := Appended(s.trace, r.trace);
            && |added| >= 2
            && added[|added| - 1] == (if ndim <= 5 then Call(MultiNewArray(ndim), k, length)
                                      else Call(MultiNewArrayN, k, [dims]))
            && Calls(added) == [added[|added| - 1]]
            && r.stack == Drop(s.stack, ndim) + [CastPP(Result(|r.trace| - 1), ExactArray(env.hasIntType(length[0])))]
            && (ndim <= 5 ==> CountAllocs(added) == 0)
            && (ndim > 5 ==>
                  && CountAllocs(added) == 1
                  && added[1] == Alloc(IntArrayKlass(), IntCon(ndim), 0)
                  && forall j :: 0 <= j < ndim ==>
                       added[2 + j] == Store(IntElement(dims, j), length[j], TInt, Unordered, false))
  {
    EffectParts(s, env, k, ndim);
    InlinedIffExpandable(env, Lengths(s, ndim));
    RuntimeAllocation(env, k, Lengths(s, ndim), |s.trace| + 1);
  }

  /** A constant zero among the non-final lengths forces the runtime call. */
  lemma ZeroLengthForcesCall(s: State, env: Env, k: ArrayKlass, ndim: nat, j: nat)
    requires 2 <= ndim <= Rank(k) && ndim <= |s.stack| && j < ndim - 1
    requires env.findIntCon(Lengths(s, ndim)[j]) == Some(0)
    ensures var r := MultiNewArrayEffect(s, env, k, ndim);
            s.trace <= r.trace && Calls(Appended(s.trace, r.trace)) != []
  {
    ZeroLengthDisqualifies(NonFinal(env, Lengths(s, ndim)), Limit(env), j);
    InlineIffHeuristic(s, env, k, ndim);
  }

  /** new T[2][3][n] needs 1 + 2 + 2*3 = 9 arrays: it is expanded inline, with
      nine allocations, exactly when the limit is at least 9. */
  lemma Rank3Example(s: State, env: Env, k: ArrayKlass)
    requires 3 <= Rank(k) && 3 <= |s.stack|
    requires env.findIntCon(Lengths(s, 3)[0]) == Some(2) && env.findIntCon(Lengths(s, 3)[1]) == Some(3)
    ensures var r := MultiNewArrayEffect(s, env, k, 3);
            && s.trace <= r.trace
            && (Calls(Appended(s.trace, r.trace)) == [] <==> Limit(env) >= 9)
            && (Limit(env) >= 9 ==> CountAllocs(Appended(s.trace, r.trace)) == 9)
  {
    var d := NonFinal(env, Lengths(s, 3));
    assert d == [2, 3];
    assert d[1..] == [3] && d[1..][1..] == [];
    assert NestCount([3]) == 4;
    assert NestCount(d) == 9;
    InlineIffHeuristic(s, env, k, 3);
    if Limit(env) >= 9 {
      InlineAllocatesHeuristicCount(s, env, k, 3);
    }
  }

  /** A two-dimensional allocation whose first length is not a constant calls
      the rank-2 entry point. */
  lemma NonConstantRank2Calls(s: State, env: Env, k: ArrayKlass)
    requires 2 <= Rank(k) && 2 <= |s.stack|
    requires env.findIntCon(Lengths(s, 2)[0]).None?
    ensures var r := MultiNewArrayEffect(s, env, k, 2);
            && s.trace <= r.trace
            && Calls(Appended(s.trace, r.trace)) == [Call(MultiNewArray(2), k, Lengths(s, 2))]
  {
    assert NonFinal(env, Lengths(s, 2))[0] == -1;
    RuntimeCallByRank(s, env, k, 2);
  }

  /** multianewarray pops its ndim lengths, pushes one array and changes
      nothing else. */
  lemma StackDiscipline(s: State, env: Env, k: ArrayKlass, ndim: nat)
    requires 1 <= ndim <= Rank(k) && ndim <= |s.stack|
    ensures var r := MultiNewArrayEffect(s, env, k, ndim);
            && Drop(s.stack, ndim) <= r.stack && |r.stack| == |s.stack| - ndim + 1
            && r.stopped == s.stopped && r.flags == s.flags && r.bci == s.bci
  {
    EffectParts(s, env, k, ndim);
  }
}
