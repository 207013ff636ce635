/** Lowering of multianewarray (section 6.5 of the Java Virtual Machine
    Specification): a cost heuristic over the constant lengths, an inline
    expansion into one-dimensional allocations when it is cheap, and
    otherwise a call to a runtime entry point chosen by rank. */
module MultiArray {
  import opened ParseTypes
  import opened Trace
  import opened GraphKit

  // ---------------------------------------------------------------------------
  // Cost heuristic
  // ---------------------------------------------------------------------------

  /** The constant value of a length operand, or -1 when it is not a constant. */
  function ConstOr(env: Env, n: Node): int
  {
    match env.findIntCon(n)
    case Some(v) => v
    case None => -1
  }

  /** The constant values of a sequence of length operands. */
  function Consts(env: Env, ns: seq<Node>): (d: seq<int>)
    ensures |d| == |ns|
    ensures forall i :: 0 <= i < |ns| ==> d[i] == ConstOr(env, ns[i])
  {
    seq(|ns|, i requires 0 <= i < |ns| => ConstOr(env, ns[i]))
  }

  /** The hard cap on the expansion limit. */
  const ExpandCap: int := 100

  /** The number of allocations an inline expansion may take. */
  function Limit(env: Env): (limit: int)
    ensures limit <= ExpandCap && limit <= env.multiArrayExpandLimit
    ensures limit == env.multiArrayExpandLimit || limit == ExpandCap
  {
    if env.multiArrayExpandLimit < ExpandCap then env.multiArrayExpandLimit else ExpandCap
  }

  /** The number of arrays of new T[d0]...[dn-1][x]: the outer one, plus d0
      nests of the inner dimensions. */
  function NestCount(d: seq<int>): int
  {
    if |d| == 0 then 1 else 1 + d[0] * NestCount(d[1..])
  }

  /** The product of a sequence, taken from the back. */
  function Prod(d: seq<int>): int
  {
    if |d| == 0 then 1 else Prod(d[..|d| - 1]) * d[|d| - 1]
  }

  /** The running total after j levels: 1 + d0 + d0*d1 + ... + d0*...*d(j-1). */
  function RunningCount(d: seq<int>, j: nat): int
    requires j <= |d|
  {
    if j == 0 then 1 else RunningCount(d, j - 1) + Prod(d[..j])
  }

  /** Every non-final length is a constant between 1 and the limit. */
  predicate InRange(d: seq<int>, limit: int)
  {
    forall j :: 0 <= j < |d| ==> 1 <= d[j] <= limit
  }

  /** The non-final lengths are small enough for an inline expansion. */
  predicate Expandable(d: seq<int>, limit: int)
  {
    InRange(d, limit) && NestCount(d) <= limit
  }

  /** What the heuristic computes from the non-final lengths: one allocation
      for a single dimension, the number of arrays of the expansion when it
      is expandable, and 0 when it is not. */
  function HeuristicCount(d: seq<int>, limit: int): int
  {
    if |d| == 0 then 1 else if Expandable(d, limit) then NestCount(d) else 0
  }

  lemma {:induction false} ProdPositive(d: seq<int>)
    requires forall j :: 0 <= j < |d| ==> 1 <= d[j]
    ensures Prod(d) >= 1
  {
    if |d| > 0 {
      var init := d[..|d| - 1];
      assert forall j :: 0 <= j < |init| ==> init[j] == d[j];
      ProdPositive(init);
      assert Prod(init) * d[|d| - 1] >= Prod(init) * 1;
    }
  }

  /** With positive lengths the running total only grows. */
  lemma {:induction false} RunningCountMonotone(d: seq<int>, i: nat, k: nat)
    requires i <= k <= |d|
    requires forall j :: 0 <= j < k ==> 1 <= d[j]
    ensures RunningCount(d, i) <= RunningCount(d, k)
  {
    if i < k {
      RunningCountMonotone(d, i, k - 1);
      var pre := d[..k];
      assert forall j :: 0 <= j < |pre| ==> pre[j] == d[j];
      ProdPositive(pre);
    }
  }

  /** Taking the first element out of a product. */
  lemma {:induction false} ProdCons(d: seq<int>, j: nat)
    requires j + 1 <= |d|
    ensures Prod(d[..j + 1]) == d[0] * Prod(d[1..][..j])
  {
    if j > 0 {
      ProdCons(d, j - 1);
      assert d[..j + 1][..j] == d[..j];
      assert d[1..][..j][..j - 1] == d[1..][..j - 1];
      assert d[1..][..j][j - 1] == d[j];
      calc {
        Prod(d[..j + 1]);
        Prod(d[..j]) * d[j];
        d[0] * Prod(d[1..][..j - 1]) * d[j];
        d[0] * (Prod(d[1..][..j - 1]) * d[j]);
        d[0] * Prod(d[1..][..j]);
      }
    } else {
      assert d[..1][..0] == [];
    }
  }

  /** Taking the first level out of a running total. */
  lemma {:induction false} RunningCountCons(d: seq<int>, j: nat)
    requires j + 1 <= |d|
    ensures RunningCount(d, j + 1) == 1 + d[0] * RunningCount(d[1..], j)
  {
    ProdCons(d, j);
    if j > 0 {
      RunningCountCons(d, j - 1);
      calc {
        RunningCount(d, j + 1);
        RunningCount(d, j) + Prod(d[..j + 1]);
        1 + d[0] * RunningCount(d[1..], j - 1) + d[0] * Prod(d[1..][..j]);
        1 + d[0] * (RunningCount(d[1..], j - 1) + Prod(d[1..][..j]));
        1 + d[0] * RunningCount(d[1..], j);
      }
    }
  }

  /** The heuristic's running total over all levels is the number of arrays
      of the expansion. */
  lemma {:induction false} RunningCountIsNestCount(d: seq<int>)
    ensures RunningCount(d, |d|) == NestCount(d)
  {
    if |d| > 0 {
      RunningCountCons(d, |d| - 1);
      RunningCountIsNestCount(d[1..]);
    }
  }

  /** One more level of the running total. */
  lemma RunningCountStep(d: seq<int>, j: nat)
    requires j < |d|
    ensures Prod(d[..j + 1]) == Prod(d[..j]) * d[j]
    ensures RunningCount(d, j + 1) == RunningCount(d, j) + Prod(d[..j]) * d[j]
  {
    assert d[..j + 1][..j] == d[..j];
  }

  /** The heuristic loop: the running fanout and count, reset to 0 and
      stopped at the first length that is not a small positive constant or
      that takes the count over the limit. */
  method ExpansionCount(env: Env, length: seq<Node>, limit: int) returns (count: int)
    requires 1 <= |length|
    ensures count == HeuristicCount(Consts(env, length[..|length| - 1]), limit)
  {
    ghost var d := Consts(env, length[..|length| - 1]);
    count := 1;
    var fanout := 1;
    var j := 0;
    while j < |length| - 1
      invariant 0 <= j <= |length| - 1
      invariant count == RunningCount(d, j) && fanout == Prod(d[..j])
      invariant forall i :: 0 <= i < j ==> 1 <= d[i] <= limit
      invariant j > 0 ==> count <= limit
    {
      var dimCon := ConstOr(env, length[j]);
      RunningCountStep(d, j);
      fanout := fanout * dimCon;
      count := count + fanout;
      if dimCon <= 0 || dimCon > limit || count > limit {
        count := 0;
        NotExpandableAt(d, j, limit);
        break;
      }
      j := j + 1;
    }
    if j == |length| - 1 && |d| > 0 {
      RunningCountIsNestCount(d);
    }
  }

  /** The heuristic gives up at a level that fails its test. */
  lemma NotExpandableAt(d: seq<int>, j: nat, limit: int)
    requires j < |d|
    requires forall i :: 0 <= i < j ==> 1 <= d[i] <= limit
    requires d[j] <= 0 || d[j] > limit || RunningCount(d, j + 1) > limit
    ensures HeuristicCount(d, limit) == 0
  {
    if InRange(d, limit) {
      RunningCountMonotone(d, j + 1, |d|);
      RunningCountIsNestCount(d);
    }
  }

  /** A zero length among the non-final ones rules the expansion out. */
  lemma ZeroLengthDisqualifies(d: seq<int>, limit: int, j: nat)
    requires j < |d| && d[j] == 0
    ensures !Expandable(d, limit) && HeuristicCount(d, limit) == 0
  {
  }

  /** When the expansion is chosen, every level's running total is at most
      the cap of 100, so the source's 32-bit counters never overflow on
      that path. */
  lemma {:induction false} ExpandableCountsFit(d: seq<int>, limit: int, j: nat)
    requires Expandable(d, limit) && j <= |d| && limit <= ExpandCap
    ensures 1 <= Prod(d[..j]) <= RunningCount(d, j) <= ExpandCap
  {
    var pre := d[..j];
    assert forall i :: 0 <= i < |pre| ==> pre[i] == d[i];
    ProdPositive(pre);
    RunningCountMonotone(d, j, |d|);
    RunningCountIsNestCount(d);
    if j > 0 {
      RunningCountMonotone(d, 0, j - 1);
    }
  }

  // ---------------------------------------------------------------------------
  // Inline expansion
  // ---------------------------------------------------------------------------

  function Pow2(n: nat): (r: int)
    ensures r >= 1
  {
    if n == 0 then 1 else 2 * Pow2(n - 1)
  }

  /** The byte offset of element i of an object array: the header, then
      i shifted left by the log of the reference size. */
  function Offset(env: Env, i: int): int
  {
    env.arrayHeader + i * Pow2(env.logBytesPerHeapOop)
  }

  /** The class of the sub-arrays of a multi-dimensional array class. */
  function ElementArray(k: ArrayKlass): ArrayKlass
    requires k.elem.ArrayElem?
  {
    k.elem.inner
  }

  /** Every length but the last is a known non-negative constant, as the
      expansion demands. */
  predicate ConstantLengths(env: Env, lengths: seq<Node>)
  {
    forall j :: 0 <= j < |lengths| - 1 ==> ConstOr(env, lengths[j]) >= 0
  }

  /** Storing sub-array elem as element i of array. */
  function ElementStore(env: Env, outer: Node, i: int, elem: Node): Event
  {
    OopStore(ArraySlot(outer, Offset(env, i)), elem, TObject, ArrayElementType, Unordered)
  }

  /** The events of the expansion of new k[lengths[0]]...[lengths[n-1]] whose
      first event lands at index at: the allocation of the outer array, then
      for each of its elements the expansion of the inner dimensions followed
      by the store of that sub-array. */
  function Expansion(env: Env, k: ArrayKlass, lengths: seq<Node>, nargs: nat, at: nat): seq<Event>
    requires 1 <= |lengths| <= Rank(k) && ConstantLengths(env, lengths)
    decreases |lengths|, 1
  {
    [Alloc(k, lengths[0], nargs)] +
    (if |lengths| > 1 then
       SubArrays(env, ElementArray(k), lengths[1..], nargs, Result(at), at + 1, ConstOr(env, lengths[0]))
     else [])
  }

  /** The events for the first n elements of array, starting at index start. */
  function SubArrays(env: Env, k: ArrayKlass, lengths: seq<Node>, nargs: nat,
                     outer: Node, start: nat, n: nat): seq<Event>
    requires 1 <= |lengths| <= Rank(k) && ConstantLengths(env, lengths)
    decreases |lengths| + 1, 0, n
  {
    if n == 0 then []
    else
      var prev := SubArrays(env, k, lengths, nargs, outer, start, n - 1);
      var elemAt := start + |prev|;
      prev + Expansion(env, k, lengths, nargs, elemAt) + [ElementStore(env, outer, n - 1, Result(elemAt))]
  }

  method ExpandMultianewarray(p: Parse, env: Env, k: ArrayKlass, lengths: seq<Node>, nargs: nat)
      returns (outer: Node)
    requires 1 <= |lengths| <= Rank(k) && ConstantLengths(env, lengths)
    modifies p`trace
    ensures outer == Result(|old(p.trace)|)
    ensures p.trace == old(p.trace) + Expansion(env, k, lengths, nargs, |old(p.trace)|)
    decreases |lengths|, 1
  {
    ghost var t0 := p.trace;
    var length := lengths[0];
    outer := p.NewArray(k, length, nargs);
    if |lengths| > 1 {
      var lengthCon := ConstOr(env, length);
      var arrayKlass1 := ElementArray(k);
      ghost var pre := p.trace;
      for i := 0 to lengthCon
        invariant p.trace == pre + SubArrays(env, arrayKlass1, lengths[1..], nargs, outer, |pre|, i)
      {
        ExpandElement(p, env, arrayKlass1, lengths[1..], nargs, outer, pre, i);
      }
    }
  }

  /** One iteration of the expansion loop: expands element i of outer and
      stores it at its offset. */
  method ExpandElement(p: Parse, env: Env, k: ArrayKlass, lengths: seq<Node>, nargs: nat,
                       outer: Node, ghost pre: seq<Event>, i: nat)
    requires 1 <= |lengths| <= Rank(k) && ConstantLengths(env, lengths)
    requires p.trace == pre + SubArrays(env, k, lengths, nargs, outer, |pre|, i)
    modifies p`trace
    ensures p.trace == pre + SubArrays(env, k, lengths, nargs, outer, |pre|, i + 1)
    decreases |lengths| + 1, 0
  {
    var elem := ExpandMultianewarray(p, env, k, lengths, nargs);
    var header := env.arrayHeader;
    var offset := header + i * Pow2(env.logBytesPerHeapOop);
    var _ := p.Emit(OopStore(ArraySlot(outer, offset), elem, TObject, ArrayElementType, Unordered));
  }

  /** The expansion allocates exactly as many arrays as the heuristic counts. */
  lemma {:induction false} ExpansionAllocs(env: Env, k: ArrayKlass, lengths: seq<Node>, nargs: nat, at: nat)
    requires 1 <= |lengths| <= Rank(k) && ConstantLengths(env, lengths)
    ensures CountAllocs(Expansion(env, k, lengths, nargs, at)) == NestCount(Consts(env, lengths[..|lengths| - 1]))
    decreases |lengths|, 1
  {
    var d := Consts(env, lengths[..|lengths| - 1]);
    SelectSingleton(Alloc(k, lengths[0], nargs), IsAlloc);
    if |lengths| > 1 {
      var n := ConstOr(env, lengths[0]);
      var sub := SubArrays(env, ElementArray(k), lengths[1..], nargs, Result(at), at + 1, n);
      CountAllocsAppend([Alloc(k, lengths[0], nargs)], sub);
      SubArraysAllocs(env, ElementArray(k), lengths[1..], nargs, Result(at), at + 1, n);
      assert Consts(env, lengths[1..][..|lengths| - 2]) == d[1..];
    } else {
      assert Expansion(env, k, lengths, nargs, at) == [Alloc(k, lengths[0], nargs)];
    }
  }

  lemma {:induction false} SubArraysAllocs(env: Env, k: ArrayKlass, lengths: seq<Node>, nargs: nat,
                                           outer: Node, start: nat, n: nat)
    requires 1 <= |lengths| <= Rank(k) && ConstantLengths(env, lengths)
    ensures CountAllocs(SubArrays(env, k, lengths, nargs, outer, start, n)) ==
            n * NestCount(Consts(env, lengths[..|lengths| - 1]))
    decreases |lengths| + 1, 0, n
  {
    if n > 0 {
      var prev := SubArrays(env, k, lengths, nargs, outer, start, n - 1);
      var elemAt := start + |prev|;
      var e := Expansion(env, k, lengths, nargs, elemAt);
      var st := ElementStore(env, outer, n - 1, Result(elemAt));
      var nest := NestCount(Consts(env, lengths[..|lengths| - 1]));
      SubArraysAllocs(env, k, lengths, nargs, outer, start, n - 1);
      ExpansionAllocs(env, k, lengths, nargs, elemAt);
      CountAllocsAppend(prev + e, [st]);
      CountAllocsAppend(prev, e);
      SelectSingleton(st, IsAlloc);
      assert (n - 1) * nest + nest == n * nest;
    }
  }

  /** An expansion is made of allocations and unordered stores of sub-arrays
      only. */
  lemma {:induction false} ExpansionEvents(env: Env, k: ArrayKlass, lengths: seq<Node>, nargs: nat, at: nat)
    requires 1 <= |lengths| <= Rank(k) && ConstantLengths(env, lengths)
    ensures forall e :: e in Expansion(env, k, lengths, nargs, at) ==>
              e.Alloc? || (e.OopStore? && e.bt == TObject && e.ord == Unordered)
    decreases |lengths|, 1
  {
    if |lengths| > 1 {
      SubArraysEvents(env, ElementArray(k), lengths[1..], nargs, Result(at), at + 1, ConstOr(env, lengths[0]));
    }
  }

  lemma {:induction false} SubArraysEvents(env: Env, k: ArrayKlass, lengths: seq<Node>, nargs: nat,
                                           outer: Node, start: nat, n: nat)
    requires 1 <= |lengths| <= Rank(k) && ConstantLengths(env, lengths)
    ensures forall e :: e in SubArrays(env, k, lengths, nargs, outer, start, n) ==>
              e.Alloc? || (e.OopStore? && e.bt == TObject && e.ord == Unordered)
    decreases |lengths| + 1, 0, n
  {
    if n > 0 {
      var prev := SubArrays(env, k, lengths, nargs, outer, start, n - 1);
      SubArraysEvents(env, k, lengths, nargs, outer, start, n - 1);
      ExpansionEvents(env, k, lengths, nargs, start + |prev|);
    }
  }

  /** The array-slot stores of t into arr, in order: offset and stored value. */
  function SlotStores(t: seq<Event>, arr: Node): seq<(int, Node)>
  {
    if |t| == 0 then []
    else
      var e := t[|t| - 1];
      SlotStores(t[..|t| - 1], arr) +
      (if e.OopStore? && e.adr.ArraySlot? && e.adr.base == arr then [(e.adr.offset, e.value)] else [])
  }

  lemma {:induction false} SlotStoresAppend(a: seq<Event>, b: seq<Event>, arr: Node)
    ensures SlotStores(a + b, arr) == SlotStores(a, arr) + SlotStores(b, arr)
  {
    if |b| == 0 {
      assert a + b == a;
    } else {
      assert (a + b)[..|a + b| - 1] == a + b[..|b| - 1];
      SlotStoresAppend(a, b[..|b| - 1], arr);
    }
  }

  lemma {:induction false} SlotStoresNone(t: seq<Event>, arr: Node)
    requires forall e :: e in t && e.OopStore? && e.adr.ArraySlot? ==> e.adr.base != arr
    ensures SlotStores(t, arr) == []
  {
    if |t| > 0 {
      assert t[|t| - 1] in t;
      assert forall e :: e in t[..|t| - 1] ==> e in t;
      SlotStoresNone(t[..|t| - 1], arr);
    }
  }

  /** Node n is produced by an allocation among the events t, the first of
      which lands at index start. */
  predicate AllocatedIn(t: seq<Event>, start: nat, n: Node)
  {
    n.Result? && start <= n.at < start + |t| && t[n.at - start].Alloc?
  }

  lemma AllocatedInPrefix(t: seq<Event>, u: seq<Event>, start: nat, n: Node)
    requires AllocatedIn(t, start, n)
    ensures AllocatedIn(t + u, start, n)
  {
    assert (t + u)[n.at - start] == t[n.at - start];
  }

  lemma AllocatedInSuffix(t: seq<Event>, u: seq<Event>, start: nat, n: Node)
    requires AllocatedIn(u, start + |t|, n)
    ensures AllocatedIn(t + u, start, n)
  {
    assert (t + u)[n.at - start] == u[n.at - start - |t|];
  }

  /** Every store among t, the first of which lands at index start, goes into
      an array slot of an array allocated among t. */
  predicate StoresIntoOwn(t: seq<Event>, start: nat)
  {
    forall e :: e in t && e.OopStore? ==> e.adr.ArraySlot? && AllocatedIn(t, start, e.adr.base)
  }

  /** Every store among t goes into an array slot of outer or of an array
      allocated among t. */
  predicate StoresInto(t: seq<Event>, start: nat, outer: Node)
  {
    forall e :: e in t && e.OopStore? ==>
      e.adr.ArraySlot? && (e.adr.base == outer || AllocatedIn(t, start, e.adr.base))
  }

  /** Every store of an expansion whose first event lands at index at goes
      into an array slot of an array that the expansion itself allocates. */
  lemma {:induction false} ExpansionTargets(env: Env, k: ArrayKlass, lengths: seq<Node>, nargs: nat, at: nat)
    requires 1 <= |lengths| <= Rank(k) && ConstantLengths(env, lengths)
    ensures StoresIntoOwn(Expansion(env, k, lengths, nargs, at), at)
    decreases |lengths|, 1
  {
    var a := Alloc(k, lengths[0], nargs);
    if |lengths| > 1 {
      var sub := SubArrays(env, ElementArray(k), lengths[1..], nargs, Result(at), at + 1, ConstOr(env, lengths[0]));
      SubArraysTargets(env, ElementArray(k), lengths[1..], nargs, Result(at), at + 1, ConstOr(env, lengths[0]));
      assert Expansion(env, k, lengths, nargs, at) == [a] + sub;
      OwnStep(a, sub, at);
    } else {
      assert Expansion(env, k, lengths, nargs, at) == [a];
    }
  }

  /** An allocation followed by events storing into it or into their own
      allocations stores only into its own allocations. */
  lemma OwnStep(a: Event, sub: seq<Event>, at: nat)
    requires a.Alloc? && StoresInto(sub, at + 1, Result(at))
    ensures StoresIntoOwn([a] + sub, at)
  {
    forall e | e in [a] + sub && e.OopStore?
      ensures e.adr.ArraySlot? && AllocatedIn([a] + sub, at, e.adr.base)
    {
      assert e in sub;
      if e.adr.base == Result(at) {
        AllocatedInPrefix([a], sub, at, Result(at));
      } else {
        AllocatedInSuffix([a], sub, at, e.adr.base);
      }
    }
  }

  lemma {:induction false} SubArraysTargets(env: Env, k: ArrayKlass, lengths: seq<Node>, nargs: nat,
                                            outer: Node, start: nat, n: nat)
    requires 1 <= |lengths| <= Rank(k) && ConstantLengths(env, lengths)
    ensures StoresInto(SubArrays(env, k, lengths, nargs, outer, start, n), start, outer)
    decreases |lengths| + 1, 0, n
  {
    if n > 0 {
      var prev := SubArrays(env, k, lengths, nargs, outer, start, n - 1);
      var elemAt := start + |prev|;
      var ex := Expansion(env, k, lengths, nargs, elemAt);
      var st := ElementStore(env, outer, n - 1, Result(elemAt));
      assert StoresInto(prev + ex + [st], start, outer) by {
        SubArraysTargets(env, k, lengths, nargs, outer, start, n - 1);
        ExpansionTargets(env, k, lengths, nargs, elemAt);
        TargetsStep(prev, ex, st, outer, start);
      }
      SubArraysUnfold(env, k, lengths, nargs, outer, start, n);
    }
  }

  /** Appending an element's expansion and its store keeps every store's
      target the outer array or an allocation of the sequence. */
  lemma TargetsStep(prev: seq<Event>, ex: seq<Event>, st: Event, outer: Node, start: nat)
    requires StoresInto(prev, start, outer) && StoresIntoOwn(ex, start + |prev|)
    requires st.OopStore? && st.adr.ArraySlot? && st.adr.base == outer
    ensures StoresInto(prev + ex + [st], start, outer)
  {
    forall e | e in prev + ex + [st] && e.OopStore?
      ensures e.adr.ArraySlot? && (e.adr.base == outer || AllocatedIn(prev + ex + [st], start, e.adr.base))
    {
      if e in prev {
        if e.adr.base != outer {
          AllocatedInPrefix(prev, ex + [st], start, e.adr.base);
          assert prev + (ex + [st]) == prev + ex + [st];
        }
      } else if e in ex {
        AllocatedInSuffix(prev, ex, start, e.adr.base);
        AllocatedInPrefix(prev + ex, [st], start, e.adr.base);
      }
    }
  }

  /** An expansion stores nothing into an array allocated before it. */
  lemma ExpansionStoresElsewhere(env: Env, k: ArrayKlass, lengths: seq<Node>, nargs: nat, at: nat, o: nat)
    requires 1 <= |lengths| <= Rank(k) && ConstantLengths(env, lengths) && o < at
    ensures SlotStores(Expansion(env, k, lengths, nargs, at), Result(o)) == []
  {
    ExpansionTargets(env, k, lengths, nargs, at);
    SlotStoresNone(Expansion(env, k, lengths, nargs, at), Result(o));
  }

  lemma SubArraysUnfold(env: Env, k: ArrayKlass, lengths: seq<Node>, nargs: nat,
                        outer: Node, start: nat, n: nat)
    requires 1 <= |lengths| <= Rank(k) && ConstantLengths(env, lengths) && n > 0
    ensures var prev := SubArrays(env, k, lengths, nargs, outer, start, n - 1);
            var elemAt := start + |prev|;
            SubArrays(env, k, lengths, nargs, outer, start, n) ==
              prev + Expansion(env, k, lengths, nargs, elemAt) + [ElementStore(env, outer, n - 1, Result(elemAt))]
  {
  }

  /** The events of fewer elements are a strictly shorter prefix. */
  lemma {:induction false} SubArraysPrefix(env: Env, k: ArrayKlass, lengths: seq<Node>, nargs: nat,
                                           outer: Node, start: nat, i: nat, n: nat)
    requires 1 <= |lengths| <= Rank(k) && ConstantLengths(env, lengths) && i <= n
    ensures SubArrays(env, k, lengths, nargs, outer, start, i) <= SubArrays(env, k, lengths, nargs, outer, start, n)
    ensures i < n ==> |SubArrays(env, k, lengths, nargs, outer, start, i)| < |SubArrays(env, k, lengths, nargs, outer, start, n)|
    decreases n
  {
    if i < n {
      SubArraysPrefix(env, k, lengths, nargs, outer, start, i, n - 1);
      SubArraysUnfold(env, k, lengths, nargs, outer, start, n);
    }
  }

  /** Element i's expansion begins, right after the events of elements 0 to
      i-1, with the allocation of its sub-array. */
  lemma SubArraysAllocAt(env: Env, k: ArrayKlass, lengths: seq<Node>, nargs: nat,
                         outer: Node, start: nat, i: nat, n: nat)
    requires 1 <= |lengths| <= Rank(k) && ConstantLengths(env, lengths) && i < n
    ensures var pos := |SubArrays(env, k, lengths, nargs, outer, start, i)|;
            pos < |SubArrays(env, k, lengths, nargs, outer, start, n)| &&
            SubArrays(env, k, lengths, nargs, outer, start, n)[pos] == Alloc(k, lengths[0], nargs)
  {
    SubArraysAllocNext(env, k, lengths, nargs, outer, start, i);
    SubArraysPrefix(env, k, lengths, nargs, outer, start, i + 1, n);
  }

  /** The events of element i begin with the allocation of its sub-array. */
  lemma SubArraysAllocNext(env: Env, k: ArrayKlass, lengths: seq<Node>, nargs: nat,
                           outer: Node, start: nat, i: nat)
    requires 1 <= |lengths| <= Rank(k) && ConstantLengths(env, lengths)
    ensures var pos := |SubArrays(env, k, lengths, nargs, outer, start, i)|;
            pos < |SubArrays(env, k, lengths, nargs, outer, start, i + 1)| &&
            SubArrays(env, k, lengths, nargs, outer, start, i + 1)[pos] == Alloc(k, lengths[0], nargs)
  {
    var prev := SubArrays(env, k, lengths, nargs, outer, start, i);
    var ex := Expansion(env, k, lengths, nargs, start + |prev|);
    var st := ElementStore(env, outer, i, Result(start + |prev|));
    assert (prev + ex + [st])[|prev|] == Alloc(k, lengths[0], nargs) by {
      assert ex[0] == Alloc(k, lengths[0], nargs);
      assert (prev + ex + [st])[|prev|] == ex[0];
    }
    SubArraysUnfold(env, k, lengths, nargs, outer, start, i + 1);
  }

  lemma SlotStoresOfElement(env: Env, outer: Node, i: int, elem: Node)
    ensures SlotStores([ElementStore(env, outer, i, elem)], outer) == [(Offset(env, i), elem)]
  {
    assert [ElementStore(env, outer, i, elem)][..0] == [];
  }

  /** One element more: its expansion stores nothing into arr, and its own
      store adds the element's offset and sub-array. */
  lemma OuterStoresStep(env: Env, t: seq<Event>, prev: seq<Event>, e: seq<Event>, elem: Node, arr: Node, i: nat)
    requires t == prev + e + [ElementStore(env, arr, i, elem)] && SlotStores(e, arr) == []
    ensures SlotStores(t, arr) == SlotStores(prev, arr) + [(Offset(env, i), elem)]
  {
    SlotStoresAppend(prev + e, [ElementStore(env, arr, i, elem)], arr);
    SlotStoresAppend(prev, e, arr);
    SlotStoresOfElement(env, arr, i, elem);
  }

  /** The stores of elements 0 to n-1 into outer, in order: element i, at its
      offset, holds the sub-array whose expansion begins right after the
      events of elements 0 to i-1. */
  function ElementStores(env: Env, k: ArrayKlass, lengths: seq<Node>, nargs: nat,
                         outer: Node, start: nat, n: nat): (r: seq<(int, Node)>)
    requires 1 <= |lengths| <= Rank(k) && ConstantLengths(env, lengths)
    ensures |r| == n
  {
    if n == 0 then []
    else
      ElementStores(env, k, lengths, nargs, outer, start, n - 1) +
      [(Offset(env, n - 1), Result(start + |SubArrays(env, k, lengths, nargs, outer, start, n - 1)|))]
  }

  lemma {:induction false} ElementStoresAt(env: Env, k: ArrayKlass, lengths: seq<Node>, nargs: nat,
                                           outer: Node, start: nat, n: nat, i: nat)
    requires 1 <= |lengths| <= Rank(k) && ConstantLengths(env, lengths) && i < n
    ensures ElementStores(env, k, lengths, nargs, outer, start, n)[i] ==
            (Offset(env, i), Result(start + |SubArrays(env, k, lengths, nargs, outer, start, i)|))
  {
    if i < n - 1 {
      ElementStoresAt(env, k, lengths, nargs, outer, start, n - 1, i);
    }
  }

  /** The first n elements of the array allocated at index o are stored in
      order, as ElementStores says, and nothing else is stored into it. */
  lemma {:induction false} SubArraysOuterStores(env: Env, k: ArrayKlass, lengths: seq<Node>, nargs: nat,
                                                o: nat, start: nat, n: nat)
    requires 1 <= |lengths| <= Rank(k) && ConstantLengths(env, lengths) && o < start
    ensures SlotStores(SubArrays(env, k, lengths, nargs, Result(o), start, n), Result(o)) ==
            ElementStores(env, k, lengths, nargs, Result(o), start, n)
    decreases n
  {
    if n > 0 {
      SubArraysOuterStores(env, k, lengths, nargs, o, start, n - 1);
      OuterStoresNext(env, k, lengths, nargs, o, start, n);
    }
  }

  /** One more element adds exactly its own store to the outer array. */
  lemma OuterStoresNext(env: Env, k: ArrayKlass, lengths: seq<Node>, nargs: nat,
                        o: nat, start: nat, n: nat)
    requires 1 <= |lengths| <= Rank(k) && ConstantLengths(env, lengths) && o < start && n > 0
    requires SlotStores(SubArrays(env, k, lengths, nargs, Result(o), start, n - 1), Result(o)) ==
             ElementStores(env, k, lengths, nargs, Result(o), start, n - 1)
    ensures SlotStores(SubArrays(env, k, lengths, nargs, Result(o), start, n), Result(o)) ==
            ElementStores(env, k, lengths, nargs, Result(o), start, n)
  {
    var prev := SubArrays(env, k, lengths, nargs, Result(o), start, n - 1);
    var elemAt := start + |prev|;
    var ex := Expansion(env, k, lengths, nargs, elemAt);
    var st := ElementStore(env, Result(o), n - 1, Result(elemAt));
    assert SlotStores(prev + ex + [st], Result(o)) ==
           SlotStores(prev, Result(o)) + [(Offset(env, n - 1), Result(elemAt))] by {
      ExpansionStoresElsewhere(env, k, lengths, nargs, elemAt, o);
      OuterStoresStep(env, prev + ex + [st], prev, ex, Result(elemAt), Result(o), n - 1);
    }
    SubArraysUnfold(env, k, lengths, nargs, Result(o), start, n);
  }

  /** The stores of the expansion of new k[c][...] into its outer array are
      the stores of its c elements. */
  lemma ExpansionOuterStores(env: Env, k: ArrayKlass, lengths: seq<Node>, nargs: nat, at: nat)
    requires 2 <= |lengths| <= Rank(k) && ConstantLengths(env, lengths)
    ensures SlotStores(Expansion(env, k, lengths, nargs, at), Result(at)) ==
            ElementStores(env, ElementArray(k), lengths[1..], nargs, Result(at), at + 1, ConstOr(env, lengths[0]))
  {
    var n := ConstOr(env, lengths[0]);
    var a := Alloc(k, lengths[0], nargs);
    var sub := SubArrays(env, ElementArray(k), lengths[1..], nargs, Result(at), at + 1, n);
    var stores := ElementStores(env, ElementArray(k), lengths[1..], nargs, Result(at), at + 1, n);
    assert Expansion(env, k, lengths, nargs, at) == [a] + sub;
    assert SlotStores([a] + sub, Result(at)) == stores by {
      SlotStoresAppend([a], sub, Result(at));
      assert SlotStores([a], Result(at)) == [];
      SubArraysOuterStores(env, ElementArray(k), lengths[1..], nargs, at, at + 1, n);
      assert [] + stores == stores;
    }
  }

  /** The expansion of new k[c][...] stores exactly c sub-arrays into the
      outer array; element i is stored at its offset and holds an array of
      the element class, with the second length, that the expansion
      allocates. */
  lemma OuterArrayStoreAt(env: Env, k: ArrayKlass, lengths: seq<Node>, nargs: nat, at: nat, i: nat)
    requires 2 <= |lengths| <= Rank(k) && ConstantLengths(env, lengths) && i < ConstOr(env, lengths[0])
    ensures var t := Expansion(env, k, lengths, nargs, at);
            var stores := SlotStores(t, Result(at));
            && |stores| == ConstOr(env, lengths[0])
            && stores[i].0 == Offset(env, i)
            && AllocatedIn(t, at, stores[i].1)
            && t[stores[i].1.at - at] == Alloc(ElementArray(k), lengths[1], nargs)
  {
    var n := ConstOr(env, lengths[0]);
    var k1 := ElementArray(k);
    var l1 := lengths[1..];
    var sub := SubArrays(env, k1, l1, nargs, Result(at), at + 1, n);
    var pos := |SubArrays(env, k1, l1, nargs, Result(at), at + 1, i)|;
    var t := Expansion(env, k, lengths, nargs, at);
    ExpansionOuterStores(env, k, lengths, nargs, at);
    ElementStoresAt(env, k1, l1, nargs, Result(at), at + 1, n, i);
    assert pos < |sub| && sub[pos] == Alloc(k1, l1[0], nargs) by {
      SubArraysAllocAt(env, k1, l1, nargs, Result(at), at + 1, i, n);
    }
    assert t == [Alloc(k, lengths[0], nargs)] + sub;
    assert t[1 + pos] == sub[pos];
  }

  /** Earlier elements are stored at lower offsets and hold arrays allocated
      earlier, so different elements hold different arrays. */
  lemma OuterArrayStoresOrdered(env: Env, k: ArrayKlass, lengths: seq<Node>, nargs: nat, at: nat, i: nat, j: nat)
    requires 2 <= |lengths| <= Rank(k) && ConstantLengths(env, lengths) && i < j < ConstOr(env, lengths[0])
    ensures var stores := SlotStores(Expansion(env, k, lengths, nargs, at), Result(at));
            && |stores| == ConstOr(env, lengths[0])
            && stores[i].0 < stores[j].0
            && stores[i].1.Result? && stores[j].1.Result? && stores[i].1.at < stores[j].1.at
  {
    var n := ConstOr(env, lengths[0]);
    var k1 := ElementArray(k);
    var l1 := lengths[1..];
    ExpansionOuterStores(env, k, lengths, nargs, at);
    OffsetsIncrease(env, i, j);
    ElementStoresAt(env, k1, l1, nargs, Result(at), at + 1, n, i);
    ElementStoresAt(env, k1, l1, nargs, Result(at), at + 1, n, j);
    SubArraysPrefix(env, k1, l1, nargs, Result(at), at + 1, i, j);
  }

  /** Element offsets are distinct and increasing. */
  lemma OffsetsIncrease(env: Env, i: int, j: int)
    requires i < j
    ensures Offset(env, i) < Offset(env, j)
  {
    MulStrict(i, j, Pow2(env.logBytesPerHeapOop));
  }

  lemma {:induction false} MulStrict(a: int, b: int, w: int)
    requires a < b && w >= 1
    ensures a * w < b * w
    decreases b - a
  {
    assert (a + 1) * w == a * w + w;
    if a + 1 < b {
      MulStrict(a + 1, b, w);
    }
  }

  // ---------------------------------------------------------------------------
  // multianewarray
  // ---------------------------------------------------------------------------

  /** The lengths of a multianewarray of ndim dimensions as it pops them: the
      deepest operand is the first dimension. */
  function Lengths(s: State, ndim: nat): (length: seq<Node>)
    requires ndim <= |s.stack|
    ensures |length| == ndim && Drop(s.stack, ndim) + length == s.stack
  {
    s.stack[|s.stack| - ndim..]
  }

  /** Whether the allocation is expanded inline: always for one dimension,
      otherwise when the heuristic's count is between 1 and the limit. */
  predicate Inlined(env: Env, length: seq<Node>)
    requires 1 <= |length|
  {
    var count := HeuristicCount(Consts(env, length[..|length| - 1]), Limit(env));
    |length| == 1 || (1 <= count && count <= Limit(env))
  }

  lemma {:induction false} NestCountPositive(d: seq<int>, limit: int)
    requires InRange(d, limit)
    ensures NestCount(d) >= 1
  {
    if |d| > 0 {
      NestCountPositive(d[1..], limit);
      assert d[0] * NestCount(d[1..]) >= 1 * 1;
    }
  }

  /** The expansion is chosen exactly for one dimension or for lengths the
      heuristic accepts. */
  lemma InlinedIffExpandable(env: Env, length: seq<Node>)
    requires 1 <= |length|
    ensures Inlined(env, length) <==>
            |length| == 1 || Expandable(Consts(env, length[..|length| - 1]), Limit(env))
  {
    var d := Consts(env, length[..|length| - 1]);
    if |length| > 1 && Expandable(d, Limit(env)) {
      NestCountPositive(d, Limit(env));
    }
  }

  /** When the expansion is chosen, every length it needs is a known constant. */
  lemma InlinedLengthsConstant(env: Env, length: seq<Node>)
    requires 1 <= |length| && Inlined(env, length)
    ensures ConstantLengths(env, length)
  {
    InlinedIffExpandable(env, length);
    var d := Consts(env, length[..|length| - 1]);
    assert forall j :: 0 <= j < |length| - 1 ==> d[j] == ConstOr(env, length[j]);
  }

  /** The stores filling the dimensions array dims with the lengths. */
  function DimsStores(dims: Node, length: seq<Node>): (r: seq<Event>)
    ensures |r| == |length|
  {
    if |length| == 0 then []
    else DimsStores(dims, length[..|length| - 1]) +
         [Store(IntElement(dims, |length| - 1), length[|length| - 1], TInt, Unordered, false)]
  }

  /** The events of a runtime allocation whose first event lands at index at:
      a call to the entry point of its rank for ranks up to 5; otherwise an
      int array of the lengths, filled in, and a call to the generic entry. */
  function CallEvents(k: ArrayKlass, length: seq<Node>, at: nat): (r: seq<Event>)
    ensures |r| >= 1 && r[|r| - 1].Call?
  {
    if |length| <= 5 then [Call(MultiNewArray(|length|), k, length)]
    else [Alloc(IntArrayKlass(), IntCon(|length|), 0)] + DimsStores(Result(at), length) +
         [Call(MultiNewArrayN, k, [Result(at)])]
  }

  /** Dead locals are killed and the lengths popped. */
  function PopEffect(s: State, ndim: nat): State
    requires ndim <= |s.stack|
  {
    s.(stack := Drop(s.stack, ndim), trace := s.trace + [DeadLocalsKilled])
  }

  /** The inline expansion, its outer array pushed. */
  function InlineEffect(s: State, env: Env, k: ArrayKlass, length: seq<Node>): State
    requires 1 <= |length| <= Rank(k) && Inlined(env, length)
  {
    InlinedLengthsConstant(env, length);
    s.(stack := s.stack + [Result(|s.trace|)], trace := s.trace + Expansion(env, k, length, 0, |s.trace|))
  }

  /** The runtime allocation, its result pushed as non-null and exact, and
      sized when the first length has a known int type. */
  function CallEffect(s: State, env: Env, k: ArrayKlass, length: seq<Node>): State
    requires 1 <= |length|
  {
    var events := CallEvents(k, length, |s.trace|);
    s.(stack := s.stack + [CastPP(Result(|s.trace| + |events| - 1), ExactArray(env.hasIntType(length[0])))],
       trace := s.trace + events)
  }

  /** The effect of multianewarray. */
  function MultiNewArrayEffect(s: State, env: Env, k: ArrayKlass, ndim: nat): (r: State)
    requires 1 <= ndim <= Rank(k) && ndim <= |s.stack|
  {
    var length := Lengths(s, ndim);
    var s1 := PopEffect(s, ndim);
    if Inlined(env, length) then InlineEffect(s1, env, k, length) else CallEffect(s1, env, k, length)
  }

  /** Pops the ndim lengths into a fresh array, the top of the stack going to
      the last slot. */
  method PopLengths(p: Parse, ndim: nat) returns (length: array<Node>)
    requires ndim <= |p.stack|
    modifies p`stack
    ensures fresh(length) && length.Length == ndim
    ensures length[..] == old(p.stack)[|old(p.stack)| - ndim..]
    ensures p.stack == Drop(old(p.stack), ndim)
  {
    ghost var s0 := p.stack;
    length := new Node[ndim];
    var j := ndim;
    while j > 0
      invariant 0 <= j <= ndim
      invariant p.stack == Drop(s0, ndim - j)
      invariant length[j..] == s0[|s0| - ndim + j..]
    {
      j := j - 1;
      length[j] := p.Pop();
    }
  }

  /** Stores every length into the dimensions array. */
  method FillDims(p: Parse, dims: Node, length: array<Node>)
    modifies p`trace
    ensures p.trace == old(p.trace) + DimsStores(dims, length[..])
  {
    ghost var t0 := p.trace;
    for j := 0 to length.Length
      invariant p.trace == t0 + DimsStores(dims, length[..j])
    {
      assert length[..j + 1][..j] == length[..j];
      var _ := p.Emit(Store(IntElement(dims, j), length[j], TInt, Unordered, false));
    }
    assert length[..length.Length] == length[..];
  }

  /** The runtime allocation: the entry point of the rank for ranks 2 to 5,
      otherwise the generic entry point with an int array of the lengths. */
  method MultiNewArrayCall(p: Parse, k: ArrayKlass, length: array<Node>) returns (c: Node)
    requires 2 <= length.Length
    modifies p`trace
    ensures p.trace == old(p.trace) + CallEvents(k, length[..], |old(p.trace)|)
    ensures c == Result(|p.trace| - 1)
  {
    var ndim := length.Length;
    if ndim <= 5 {
      c := p.MakeRuntimeCall(MultiNewArray(ndim), k, length[..]);
    } else {
      var dims := p.NewArray(IntArrayKlass(), IntCon(ndim), 0);
      FillDims(p, dims, length);
      c := p.MakeRuntimeCall(MultiNewArrayN, k, [dims]);
    }
  }

  /** The inline expansion, with its result pushed. */
  method ExpandInline(p: Parse, env: Env, k: ArrayKlass, length: seq<Node>)
    requires 1 <= |length| <= Rank(k) && Inlined(env, length)
    modifies p
    ensures p.Snapshot() == InlineEffect(old(p.Snapshot()), env, k, length)
  {
    InlinedLengthsConstant(env, length);
    var obj := ExpandMultianewarray(p, env, k, length, 0);
    p.Push(obj);
  }

  /** The runtime allocation, with its result pushed under its improved type. */
  method CallAndCast(p: Parse, env: Env, k: ArrayKlass, length: array<Node>)
    requires 2 <= length.Length
    modifies p
    ensures p.Snapshot() == CallEffect(old(p.Snapshot()), env, k, length[..])
  {
    var c := MultiNewArrayCall(p, k, length);
    var sized := env.hasIntType(length[0]);
    p.Push(CastPP(c, ExactArray(sized)));
  }

  method DoMultianewarray(p: Parse, env: Env, k: ArrayKlass, ndim: nat)
    requires 1 <= ndim <= Rank(k) && ndim <= |p.stack|
    modifies p
    ensures p.Snapshot() == MultiNewArrayEffect(old(p.Snapshot()), env, k, ndim)
  {
    ghost var s0 := p.Snapshot();
    p.KillDeadLocals();
    var length := PopLengths(p, ndim);
    assert p.Snapshot() == PopEffect(s0, ndim);
    var expandLimit := Limit(env);
    var expandCount := ExpansionCount(env, length[..], expandLimit);
    if ndim == 1 || (1 <= expandCount && expandCount <= expandLimit) {
      ExpandInline(p, env, k, length[..]);
      return;
    }
    CallAndCast(p, env, k, length);
  }
}
