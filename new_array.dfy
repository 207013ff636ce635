/** Lowering of newarray and anewarray: a one-dimensional array of a
    primitive type, or of a class (section 6.5 of the Java Virtual Machine
    Specification). */
module NewArray {
  import opened ParseTypes
  import opened Trace
  import opened GraphKit

  /** An array of a value type whose class is not yet initialized. */
  predicate ElementIsUninitializedValueType(k: ArrayKlass)
  {
    k.elem.InstanceElem? && k.elem.klass.isValueType && !k.elem.klass.initialized
  }

  /** The effect of allocating a one-dimensional array of class k: dead locals
      are killed, the length on top of the stack is replaced by the array. */
  function AllocEffect(s: State, k: ArrayKlass): (r: State)
    requires 1 <= |s.stack|
  {
    var at := |s.trace| + 1;
    s.(stack := Drop(s.stack, 1) + [Result(at)],
       trace := s.trace + [DeadLocalsKilled, Alloc(k, s.stack[|s.stack| - 1], 1)])
  }

  /** The effect of anewarray on a live path: an unloaded array class or an
      uninitialized value-type element ends the path; otherwise the array is
      allocated. */
  function NewArrayEffect(s: State, k: ArrayKlass): (r: State)
    requires 1 <= |s.stack|
    ensures s.trace <= r.trace
  {
    if !k.loaded then Trapped(s, Unloaded, Reinterpret, Some(k), "")
    else if ElementIsUninitializedValueType(k) then Trapped(s, Uninitialized, Reinterpret, None, "")
    else AllocEffect(s, k)
  }

  /** The effect of newarray: primitive array classes are always loaded. */
  function PrimNewArrayEffect(s: State, bt: BasicType): (r: State)
    requires 1 <= |s.stack|
    ensures s.trace <= r.trace
  {
    AllocEffect(s, ArrayKlass(true, PrimElem(bt)))
  }

  method DoNewarray(p: Parse, k: ArrayKlass)
    requires !p.stopped && 1 <= |p.stack|
    modifies p
    ensures p.Snapshot() == NewArrayEffect(old(p.Snapshot()), k)
  {
    if !k.loaded {
      p.UncommonTrap(Unloaded, Reinterpret, Some(k), "");
      return;
    } else if ElementIsUninitializedValueType(k) {
      p.UncommonTrap(Uninitialized, Reinterpret, None, "");
      return;
    }
    p.KillDeadLocals();
    var countVal := p.Pop();
    var obj := p.NewArray(k, countVal, 1);
    p.Push(obj);
  }

  method DoNewarrayPrim(p: Parse, elemType: BasicType)
    requires 1 <= |p.stack|
    modifies p
    ensures p.Snapshot() == PrimNewArrayEffect(old(p.Snapshot()), elemType)
  {
    p.KillDeadLocals();
    var countVal := p.Pop();
    var arrayKlass := ArrayKlass(true, PrimElem(elemType));
    var obj := p.NewArray(arrayKlass, countVal, 1);
    p.Push(obj);
  }

  /** An unloaded array class ends the path with a trap that names it; the
      length stays on the stack and nothing is allocated. */
  lemma UnloadedArrayTraps(s: State, k: ArrayKlass)
    requires 1 <= |s.stack| && !k.loaded
    ensures var r := NewArrayEffect(s, k);
            && r.stopped && r.stack == s.stack
            && Appended(s.trace, r.trace) == [Trap(Unloaded, Reinterpret, Some(k), "")]
            && CountAllocs(Appended(s.trace, r.trace)) == 0
  {
    SelectSingleton(Trap(Unloaded, Reinterpret, Some(k), ""), IsAlloc);
  }

  /** A loaded array of an uninitialized value type ends the path with a trap
      that names no class; nothing is popped or allocated. */
  lemma UninitializedElementTraps(s: State, k: ArrayKlass)
    requires 1 <= |s.stack| && k.loaded && ElementIsUninitializedValueType(k)
    ensures var r := NewArrayEffect(s, k);
            && r.stopped && r.stack == s.stack
            && Appended(s.trace, r.trace) == [Trap(Uninitialized, Reinterpret, None, "")]
            && CountAllocs(Appended(s.trace, r.trace)) == 0
  {
    SelectSingleton(Trap(Uninitialized, Reinterpret, None, ""), IsAlloc);
  }

  /** Otherwise exactly one array is allocated, with the popped length as its
      length, and it replaces that length on the stack. */
  lemma {:induction false} AllocatesExactlyOnce(s: State, k: ArrayKlass)
    requires 1 <= |s.stack|
    ensures var r := AllocEffect(s, k);
            var added := Appended(s.trace, r.trace);
            && r.stopped == s.stopped && r.flags == s.flags && r.bci == s.bci
            && CountAllocs(added) == 1
            && added[1] == Alloc(k, s.stack[|s.stack| - 1], 1)
            && |r.stack| == |s.stack|
            && Drop(s.stack, 1) <= r.stack
            && r.stack[|r.stack| - 1] == Result(|s.trace| + 1)
            && r.trace[|s.trace| + 1] == Alloc(k, s.stack[|s.stack| - 1], 1)
  {
    var a := Alloc(k, s.stack[|s.stack| - 1], 1);
    SelectAppend([DeadLocalsKilled], [a], IsAlloc);
    SelectSingleton(DeadLocalsKilled, IsAlloc);
    SelectSingleton(a, IsAlloc);
    assert [DeadLocalsKilled, a] == [DeadLocalsKilled] + [a];
  }

  /** A loaded array class whose element is not an uninitialized value type
      takes neither trap: anewarray is exactly the allocation. */
  lemma AcceptedClassAllocates(s: State, k: ArrayKlass)
    requires 1 <= |s.stack| && k.loaded && !ElementIsUninitializedValueType(k)
    ensures NewArrayEffect(s, k) == AllocEffect(s, k)
    ensures !NewArrayEffect(s, k).stopped <==> !s.stopped
  {
  }

  /** newarray behaves as anewarray of a loaded primitive array class: it
      neither traps nor does anything else. */
  lemma PrimitiveArrayNeverTraps(s: State, bt: BasicType)
    requires 1 <= |s.stack|
    ensures PrimNewArrayEffect(s, bt) == NewArrayEffect(s, ArrayKlass(true, PrimElem(bt)))
    ensures PrimNewArrayEffect(s, bt).stopped == s.stopped
  {
  }
}
