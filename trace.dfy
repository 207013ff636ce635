/** Views of an event trace: the barriers, memory accesses, traps,
    allocations and calls it contains, in order. */
module Trace {
  import opened ParseTypes

  /** The events of t that satisfy keep, in their original order. */
  function Select(t: seq<Event>, keep: Event -> bool): (r: seq<Event>)
    ensures |r| <= |t|
    ensures forall i :: 0 <= i < |r| ==> keep(r[i])
  {
    if |t| == 0 then [] else (if keep(t[0]) then [t[0]] else []) + Select(t[1..], keep)
  }

  lemma {:induction false} SelectAppend(a: seq<Event>, b: seq<Event>, keep: Event -> bool)
    ensures Select(a + b, keep) == Select(a, keep) + Select(b, keep)
  {
    if |a| == 0 {
      assert a + b == b;
    } else {
      assert (a + b)[1..] == a[1..] + b;
      SelectAppend(a[1..], b, keep);
    }
  }

  lemma SelectSingleton(e: Event, keep: Event -> bool)
    ensures Select([e], keep) == if keep(e) then [e] else []
  {
    assert [e][1..] == [];
  }

  /** Every event of t satisfying keep is dropped by Select exactly when none is there. */
  lemma {:induction false} SelectEmpty(t: seq<Event>, keep: Event -> bool)
    ensures Select(t, keep) == [] <==> forall i :: 0 <= i < |t| ==> !keep(t[i])
  {
    if |t| > 0 {
      SelectEmpty(t[1..], keep);
      assert forall i :: 1 <= i < |t| ==> t[i] == t[1..][i - 1];
    }
  }

  predicate IsBarrier(e: Event) { e.MemBar? }
  predicate IsAccess(e: Event)
  {
    e.Load? || e.FlattenedLoad? || e.Store? || e.OopStore? || e.FlattenedStore?
  }
  predicate IsTrap(e: Event) { e.Trap? }
  predicate IsAlloc(e: Event) { e.Alloc? }
  predicate IsCall(e: Event) { e.Call? }

  function Barriers(t: seq<Event>): seq<Event> { Select(t, IsBarrier) }
  function Accesses(t: seq<Event>): seq<Event> { Select(t, IsAccess) }
  function Traps(t: seq<Event>): seq<Event> { Select(t, IsTrap) }
  function Calls(t: seq<Event>): seq<Event> { Select(t, IsCall) }
  function CountAllocs(t: seq<Event>): nat { |Select(t, IsAlloc)| }

  lemma CountAllocsAppend(a: seq<Event>, b: seq<Event>)
    ensures CountAllocs(a + b) == CountAllocs(a) + CountAllocs(b)
  {
    SelectAppend(a, b, IsAlloc);
  }

  /** Selecting from four concatenated pieces selects from each in turn. */
  lemma Select4(a: seq<Event>, b: seq<Event>, c: seq<Event>, d: seq<Event>, keep: Event -> bool)
    ensures Select(a + b + c + d, keep) == Select(a, keep) + Select(b, keep) + Select(c, keep) + Select(d, keep)
  {
    SelectAppend(a + b + c, d, keep);
    SelectAppend(a + b, c, keep);
    SelectAppend(a, b, keep);
  }

  /** Nothing is selected from events that all fail keep. */
  lemma NoneKept(t: seq<Event>, keep: Event -> bool)
    requires forall i :: 0 <= i < |t| ==> !keep(t[i])
    ensures Select(t, keep) == []
  {
    SelectEmpty(t, keep);
  }

  /** Everything is selected from events that all pass keep. */
  lemma {:induction false} AllKept(t: seq<Event>, keep: Event -> bool)
    requires forall i :: 0 <= i < |t| ==> keep(t[i])
    ensures Select(t, keep) == t
  {
    if |t| > 0 {
      assert forall i :: 0 <= i < |t| - 1 ==> t[1..][i] == t[i + 1];
      AllKept(t[1..], keep);
    }
  }

  /** Selecting from four pieces of which only the second is kept. */
  lemma SelectSecond(a: seq<Event>, b: seq<Event>, c: seq<Event>, d: seq<Event>, keep: Event -> bool)
    requires forall i :: 0 <= i < |a| ==> !keep(a[i])
    requires forall i :: 0 <= i < |b| ==> keep(b[i])
    requires forall i :: 0 <= i < |c| ==> !keep(c[i])
    requires forall i :: 0 <= i < |d| ==> !keep(d[i])
    ensures Select(a + b + c + d, keep) == b
  {
    Select4(a, b, c, d, keep);
    NoneKept(a, keep);
    AllKept(b, keep);
    NoneKept(c, keep);
    NoneKept(d, keep);
    assert Select(a, keep) + Select(b, keep) == b;
    assert Select(a, keep) + Select(b, keep) + Select(c, keep) == b;
  }

  /** Selecting from four pieces of which only the first and last are kept. */
  lemma SelectOuter(a: seq<Event>, b: seq<Event>, c: seq<Event>, d: seq<Event>, keep: Event -> bool)
    requires forall i :: 0 <= i < |a| ==> keep(a[i])
    requires forall i :: 0 <= i < |b| ==> !keep(b[i])
    requires forall i :: 0 <= i < |c| ==> !keep(c[i])
    requires forall i :: 0 <= i < |d| ==> keep(d[i])
    ensures Select(a + b + c + d, keep) == a + d
  {
    Select4(a, b, c, d, keep);
    AllKept(a, keep);
    NoneKept(b, keep);
    NoneKept(c, keep);
    AllKept(d, keep);
    assert Select(a, keep) + Select(b, keep) == a;
    assert Select(a, keep) + Select(b, keep) + Select(c, keep) == a;
  }

  /** Selecting from four pieces none of which is kept. */
  lemma SelectNothing(a: seq<Event>, b: seq<Event>, c: seq<Event>, d: seq<Event>, keep: Event -> bool)
    requires forall i :: 0 <= i < |a| ==> !keep(a[i])
    requires forall i :: 0 <= i < |b| ==> !keep(b[i])
    requires forall i :: 0 <= i < |c| ==> !keep(c[i])
    requires forall i :: 0 <= i < |d| ==> !keep(d[i])
    ensures Select(a + b + c + d, keep) == []
  {
    Select4(a, b, c, d, keep);
    NoneKept(a, keep);
    NoneKept(b, keep);
    NoneKept(c, keep);
    NoneKept(d, keep);
    assert Select(a, keep) + Select(b, keep) + Select(c, keep) == [];
  }

  // The shape of a lowered field access: optional barriers around exactly
  // one memory access, with an optional null assertion after it. Such a
  // sequence has that one access, the barriers around it, and no trap.

  lemma ShapeAccesses(pre: seq<Event>, a: Event, mid: seq<Event>, post: seq<Event>)
    requires |pre| <= 1 && |mid| <= 1 && |post| <= 1
    requires |pre| == 1 ==> pre[0].MemBar?
    requires |post| == 1 ==> post[0].MemBar?
    requires |mid| == 1 ==> mid[0].AssertNull?
    requires IsAccess(a)
    ensures Accesses(pre + [a] + mid + post) == [a]
  {
    SelectSecond(pre, [a], mid, post, IsAccess);
  }

  lemma ShapeBarriers(pre: seq<Event>, a: Event, mid: seq<Event>, post: seq<Event>)
    requires |pre| <= 1 && |mid| <= 1 && |post| <= 1
    requires |pre| == 1 ==> pre[0].MemBar?
    requires |post| == 1 ==> post[0].MemBar?
    requires |mid| == 1 ==> mid[0].AssertNull?
    requires IsAccess(a)
    ensures Barriers(pre + [a] + mid + post) == pre + post
  {
    SelectOuter(pre, [a], mid, post, IsBarrier);
  }

  lemma ShapeTraps(pre: seq<Event>, a: Event, mid: seq<Event>, post: seq<Event>)
    requires |pre| <= 1 && |mid| <= 1 && |post| <= 1
    requires |pre| == 1 ==> pre[0].MemBar?
    requires |post| == 1 ==> post[0].MemBar?
    requires |mid| == 1 ==> mid[0].AssertNull?
    requires IsAccess(a)
    ensures Traps(pre + [a] + mid + post) == []
  {
    SelectNothing(pre, [a], mid, post, IsTrap);
  }

  lemma AccessShape(pre: seq<Event>, a: Event, mid: seq<Event>, post: seq<Event>)
    requires |pre| <= 1 && |mid| <= 1 && |post| <= 1
    requires |pre| == 1 ==> pre[0].MemBar?
    requires |post| == 1 ==> post[0].MemBar?
    requires |mid| == 1 ==> mid[0].AssertNull?
    requires IsAccess(a)
    ensures Accesses(pre + [a] + mid + post) == [a]
    ensures Barriers(pre + [a] + mid + post) == pre + post
    ensures Traps(pre + [a] + mid + post) == []
  {
    ShapeAccesses(pre, a, mid, post);
    ShapeBarriers(pre, a, mid, post);
    ShapeTraps(pre, a, mid, post);
  }

  /** The events appended to a trace between two points of a path. */
  function Appended(before: seq<Event>, after: seq<Event>): (r: seq<Event>)
    requires before <= after
    ensures before + r == after
  {
    after[|before|..]
  }

  /** The memory ordering an access event carries (flattened accesses carry none). */
  function OrdOf(e: Event): MemOrd
  {
    match e
    case Load(_, _, _, ord, _) => ord
    case Store(_, _, _, ord, _) => ord
    case OopStore(_, _, _, _, ord) => ord
    case _ => Unordered
  }
}
