/** What the field-access lowering guarantees: the order of its traps, its
    operand-stack discipline, the memory ordering and barriers it emits, and
    the bookkeeping a put records. */
module FieldAccessProps {
  import opened ParseTypes
  import opened Trace
  import opened Clinit
  import opened FieldAccess

  // ---------------------------------------------------------------------------
  // Get
  // ---------------------------------------------------------------------------

  /** A get pushes as many slots as the field's type is wide, whether it
      loads the value or folds it. */
  lemma LoadedTypeWidth(f: Field)
    ensures SlotCount(LoadedType(f)) == SlotCount(f.layoutType)
    ensures MustAssertNull(f) ==> SlotCount(LoadedType(f)) == 1
  {
  }

  /** A folded get pushes only the constant and emits nothing. */
  lemma FoldedGetEmitsNothing(s: State, env: Env, obj: Node, f: Field, curBci: int, nextBci: int)
    requires Folds(env, f, obj)
    ensures var r := GetEffect(s, env, obj, f, curBci, nextBci);
            r.trace == s.trace && r.bci == s.bci &&
            r.stack == s.stack + Slots(f.layoutType, env.constantFromField(f, obj).value)
  {
  }

  /** An object field of unloaded type is never folded. */
  lemma UnloadedObjectNeverFolds(env: Env, obj: Node, f: Field)
    requires f.layoutType == TObject && !f.typeLoaded
    ensures !Folds(env, f, obj)
  {
  }

  /** The events of a get that is not folded: exactly one access, the load;
      a volatile get brackets it with an optional leading full barrier (only
      when volatile loads carry the StoreLoad barrier) and a trailing acquire
      barrier; a non-volatile get emits no barrier; no get traps. */
  lemma GetOrdering(env: Env, obj: Node, f: Field, nextBci: int, ld: Node)
    ensures var added := GetEvents(env, obj, f, nextBci, ld);
            && Accesses(added) == [LoadEvent(env, obj, f)]
            && Barriers(added) == (if f.isVolatile then
                                     (if env.supportIRIW then [MemBar(MemBarVolatile)] else []) + [MemBar(MemBarAcquire)]
                                   else [])
            && Traps(added) == []
            && added[|GetPreBarrier(env, f)|] == LoadEvent(env, obj, f)
            && (f.isVolatile ==> added[|added| - 1] == MemBar(MemBarAcquire))
            && (f.isVolatile && env.supportIRIW ==> added[0] == MemBar(MemBarVolatile))
  {
    AccessShape(GetPreBarrier(env, f), LoadEvent(env, obj, f), GetNullCheck(f, nextBci, ld), GetPostBarrier(f));
  }

  /** A get that is not folded appends exactly its events to the trace and
      pushes the loaded node. */
  lemma GetAppends(s: State, env: Env, obj: Node, f: Field, curBci: int, nextBci: int)
    requires !Folds(env, f, obj)
    ensures var r := GetEffect(s, env, obj, f, curBci, nextBci);
            && Appended(s.trace, r.trace) == GetEvents(env, obj, f, nextBci, LoadNode(env, f, s.trace))
            && r.stack == s.stack + Slots(LoadedType(f), LoadNode(env, f, s.trace))
            && r.trace[|s.trace| + |GetPreBarrier(env, f)|] == LoadEvent(env, obj, f)
  {
    var r := GetEffect(s, env, obj, f, curBci, nextBci);
    var added := GetEvents(env, obj, f, nextBci, LoadNode(env, f, s.trace));
    assert r.trace == s.trace + added;
    assert added[|GetPreBarrier(env, f)|] == LoadEvent(env, obj, f);
  }

  /** The load of a non-flattened get is an acquire load exactly when the
      field is volatile, and atomic exactly when the field is volatile or all
      accesses are made atomic. */
  lemma LoadOrdering(env: Env, obj: Node, f: Field)
    requires !f.isFlattened
    ensures LoadEvent(env, obj, f).Load?
    ensures OrdOf(LoadEvent(env, obj, f)) == Acquire <==> f.isVolatile
    ensures OrdOf(LoadEvent(env, obj, f)) == Unordered <==> !f.isVolatile
    ensures LoadEvent(env, obj, f).atomic <==> f.isVolatile || env.alwaysAtomicAccesses
  {
  }

  /** A get of an object or value-type field whose type is not loaded does not
      trap: it loads with the bottom type, pushes the load, asserts it null at
      the next bytecode, and leaves the path at the current bytecode. */
  lemma UnloadedGetAssertsNull(s: State, env: Env, obj: Node, f: Field, curBci: int, nextBci: int)
    requires MustAssertNull(f) && !Folds(env, f, obj)
    ensures GetEffect(s, env, obj, f, curBci, nextBci).stopped == s.stopped
    ensures GetEffect(s, env, obj, f, curBci, nextBci).bci == curBci
    ensures GetEffect(s, env, obj, f, curBci, nextBci).stack == s.stack + [LoadNode(env, f, s.trace)]
    ensures AssertNull(nextBci, LoadNode(env, f, s.trace)) in
              Appended(s.trace, GetEffect(s, env, obj, f, curBci, nextBci).trace)
    ensures Traps(Appended(s.trace, GetEffect(s, env, obj, f, curBci, nextBci).trace)) == []
    ensures !f.isFlattened ==> LoadEvent(env, obj, f).t == Bottom
  {
    var ld := LoadNode(env, f, s.trace);
    LoadedTypeWidth(f);
    GetAppends(s, env, obj, f, curBci, nextBci);
    GetOrdering(env, obj, f, nextBci, ld);
    var added := GetEvents(env, obj, f, nextBci, ld);
    assert added[|GetPreBarrier(env, f)| + 1] == AssertNull(nextBci, ld);
  }

  // ---------------------------------------------------------------------------
  // Put
  // ---------------------------------------------------------------------------

  /** The events of a put that stores: exactly one access, the store; a
      volatile put emits a release barrier before it and, unless volatile
      loads carry the StoreLoad barrier, a full barrier after it; a
      non-volatile put emits no barrier; no trap. */
  lemma PutOrdering(env: Env, obj: Node, f: Field, val: Node)
    ensures var added := PutEvents(env, obj, f, val);
            && Accesses(added) == [StoreEvent(env, obj, f, val)]
            && Barriers(added) == (if f.isVolatile then
                                     [MemBar(MemBarRelease)] + (if env.supportIRIW then [] else [MemBar(MemBarVolatile)])
                                   else [])
            && Traps(added) == []
            && (f.isVolatile ==> added[0] == MemBar(MemBarRelease))
            && added[|PutPreBarrier(f)|] == StoreEvent(env, obj, f, val)
  {
    var pre, post := PutPreBarrier(f), PutPostBarrier(env, f);
    assert PutEvents(env, obj, f, val) == pre + [StoreEvent(env, obj, f, val)] + [] + post;
    AccessShape(pre, StoreEvent(env, obj, f, val), [], post);
  }

  /** A put that does not trap appends exactly its events, keeps the path
      live and pops its value. */
  lemma PutAppends(s: State, env: Env, obj: Node, f: Field, isField: bool)
    requires !s.stopped && SlotCount(f.layoutType) <= |s.stack|
    requires !StoresNullToFlattenable(env, f, StoredValue(s.stack, f))
    ensures var r := PutEffect(s, env, obj, f, isField);
            && !r.stopped
            && r.stack == Drop(s.stack, SlotCount(f.layoutType))
            && Appended(s.trace, r.trace) == PutEvents(env, obj, f, StoredValue(s.stack, f))
  {
  }

  /** A store that is not flattened is a releasing store exactly when the
      field is volatile or holds an object reference; a primitive store is
      atomic exactly when the field is volatile or all accesses are made
      atomic. */
  lemma StoreOrdering(env: Env, obj: Node, f: Field, val: Node)
    requires !(IsOop(f.layoutType) && f.isFlattened)
    ensures OrdOf(StoreEvent(env, obj, f, val)) == Release <==> f.isVolatile || f.layoutType == TObject
    ensures !IsOop(f.layoutType) ==>
              StoreEvent(env, obj, f, val).Store? &&
              (StoreEvent(env, obj, f, val).atomic <==> f.isVolatile || env.alwaysAtomicAccesses)
  {
  }

  /** A non-value-type stored into a flattenable field leaves null where the
      value was, ends the path with a null-check trap, stores nothing and
      records nothing. */
  lemma {:induction false} FlattenableNullPutTraps(s: State, env: Env, obj: Node, f: Field, isField: bool)
    requires !s.stopped && SlotCount(f.layoutType) <= |s.stack|
    requires StoresNullToFlattenable(env, f, StoredValue(s.stack, f))
    ensures var r := PutEffect(s, env, obj, f, isField);
            var added := Appended(s.trace, r.trace);
            && r.stopped && r.flags == s.flags
            && r.stack == Drop(s.stack, SlotCount(f.layoutType)) + [NullCon]
            && Accesses(added) == []
            && Traps(added) == [Trap(NullCheck, ActionNone, None, "")]
            && added[|added| - 1] == Trap(NullCheck, ActionNone, None, "")
  {
    assert Appended(s.trace, PutEffect(s, env, obj, f, isField).trace) == NullPutEvents(f);
    NullPutShape(f);
  }

  /** The events of a refused put: an optional barrier, then the trap. */
  lemma NullPutShape(f: Field)
    ensures Accesses(NullPutEvents(f)) == []
    ensures Traps(NullPutEvents(f)) == [Trap(NullCheck, ActionNone, None, "")]
  {
    var t := Trap(NullCheck, ActionNone, None, "");
    var pre := PutPreBarrier(f);
    SelectAppend(pre, [t], IsAccess);
    SelectAppend(pre, [t], IsTrap);
    NoneKept(pre, IsAccess);
    NoneKept(pre, IsTrap);
    NoneKept([t], IsAccess);
    AllKept([t], IsTrap);
  }

  // ---------------------------------------------------------------------------
  // Dispatch
  // ---------------------------------------------------------------------------

  /** An access is refused by one of the three traps the dispatch checks. */
  predicate Refused(env: Env, m: MethodInfo, isGet: bool, isField: bool, f: Field)
  {
    || isField == f.isStatic
    || (!isField && !f.holder.initialized && !StaticFieldOkInClinit(f, m, env.isSubclassOf))
    || (!isGet && f.isCallSiteTarget)
  }

  /** An instance read of a field of a value type takes the field out of the
      value: no trap, no event and no check applies, not even the ones that
      would refuse it. */
  lemma ValueTypeHolderBypassesChecks(s: State, env: Env, m: MethodInfo, curBci: int, nextBci: int,
                                      isGet: bool, f: Field)
    requires !s.stopped && 1 <= |s.stack| && f.holder.isValueType && isGet
    ensures var r := FieldAccessEffect(s, env, m, curBci, nextBci, isGet, true, f);
            && r.trace == s.trace && !r.stopped && r.flags == s.flags && r.bci == s.bci
            && Drop(s.stack, 1) <= r.stack
            && |r.stack| == |s.stack| - 1 + SlotCount(f.layoutType)
            && r.stack == Drop(s.stack, 1) + Slots(f.layoutType, env.fieldValueByOffset(s.stack[|s.stack| - 1], f.offset))
  {
  }

  /** First check: an instance bytecode on a static field, or a static bytecode
      on an instance field, ends the path with an unhandled trap, whatever the
      initialization state of the holder, unless it is an instance access on
      a value-type holder, whose bypass comes before every check. */
  lemma KindMismatchTrapsFirst(s: State, env: Env, m: MethodInfo, curBci: int, nextBci: int,
                               isGet: bool, isField: bool, f: Field)
    requires !s.stopped && NeededSlots(isGet, isField, f) <= |s.stack|
    requires !(isField && f.holder.isValueType) && isField == f.isStatic
    ensures var r := FieldAccessEffect(s, env, m, curBci, nextBci, isGet, isField, f);
            r == Trapped(s, Unhandled, ActionNone, None, "")
  {
  }

  /** Second check: a static access to an uninitialized holder from a method
      that is not allowed to see it ends the path, before the call-site check. */
  lemma UninitializedStaticTrapsSecond(s: State, env: Env, m: MethodInfo, curBci: int, nextBci: int,
                                       isGet: bool, f: Field)
    requires !s.stopped && NeededSlots(isGet, false, f) <= |s.stack|
    requires f.isStatic && !f.holder.initialized && !StaticFieldOkInClinit(f, m, env.isSubclassOf)
    ensures var r := FieldAccessEffect(s, env, m, curBci, nextBci, isGet, false, f);
            r == Trapped(s, Uninitialized, Reinterpret, None, "!static_field_ok_in_clinit")
  {
  }

  /** Third check: a put to a call-site target field that passed the first two
      checks ends the path. */
  lemma CallSiteTargetPutTrapsThird(s: State, env: Env, m: MethodInfo, curBci: int, nextBci: int,
                                    isField: bool, f: Field)
    requires !s.stopped && NeededSlots(false, isField, f) <= |s.stack|
    requires !(isField && f.holder.isValueType)
    requires !Refused(env, m, true, isField, f) && f.isCallSiteTarget
    ensures var r := FieldAccessEffect(s, env, m, curBci, nextBci, false, isField, f);
            r == Trapped(s, Unhandled, Reinterpret, None, "put to call site target field")
  {
  }

  /** A refused access emits its trap and nothing else: no load, no store,
      no barrier, and the stack and flags are left as they were. */
  lemma {:induction false} RefusedAccessEmitsOnlyTrap(s: State, env: Env, m: MethodInfo, curBci: int, nextBci: int,
                                                      isGet: bool, isField: bool, f: Field)
    requires !s.stopped && NeededSlots(isGet, isField, f) <= |s.stack|
    requires isField && f.holder.isValueType ==> isGet
    requires !(isField && f.holder.isValueType) && Refused(env, m, isGet, isField, f)
    ensures var r := FieldAccessEffect(s, env, m, curBci, nextBci, isGet, isField, f);
            var added := Appended(s.trace, r.trace);
            && r.stopped && r.stack == s.stack && r.flags == s.flags && r.bci == s.bci
            && |added| == 1 && added[0].Trap?
            && Accesses(added) == [] && Barriers(added) == []
  {
    var r := FieldAccessEffect(s, env, m, curBci, nextBci, isGet, isField, f);
    var added := Appended(s.trace, r.trace);
    assert |added| == 1 && added[0].Trap?;
    assert added == [added[0]];
    SelectSingleton(added[0], IsAccess);
    SelectSingleton(added[0], IsBarrier);
  }

  /** An access that none of the three checks refuses never takes their
      traps: the only trap it can emit is a put's null check. */
  lemma AcceptedAccessTrapsOnlyOnNull(s: State, env: Env, m: MethodInfo, curBci: int, nextBci: int,
                                      isGet: bool, isField: bool, f: Field)
    requires !s.stopped && NeededSlots(isGet, isField, f) <= |s.stack|
    requires isField && f.holder.isValueType ==> isGet
    requires !Refused(env, m, isGet, isField, f)
    ensures var r := FieldAccessEffect(s, env, m, curBci, nextBci, isGet, isField, f);
            forall e :: e in Appended(s.trace, r.trace) && e.Trap? ==> e.reason == NullCheck && !isGet
  {
    var r := FieldAccessEffect(s, env, m, curBci, nextBci, isGet, isField, f);
    var added := Appended(s.trace, r.trace);
    if isField && f.holder.isValueType {
      assert added == [];
    } else {
      var depth := if isGet then 0 else SlotCount(f.layoutType);
      var checked := if isField then env.nullCheck(s.stack[|s.stack| - 1 - depth]) else Some(Mirror(f.holder));
      if checked.None? {
        assert added == [];
      } else {
        var obj := checked.value;
        var s1 := if isField && isGet then s.(stack := Drop(s.stack, 1)) else s;
        assert s1.trace == s.trace;
        if isGet {
          GetEmitsNoTrap(s1, env, obj, f, curBci, nextBci, added);
        } else {
          assert r.trace == PutEffect(s, env, obj, f, isField).trace;
          PutTrapsOnlyOnNull(s, env, obj, f, isField, added);
        }
      }
    }
  }

  /** The traps among the events of a get (there are none). */
  lemma GetEmitsNoTrap(s: State, env: Env, obj: Node, f: Field, curBci: int, nextBci: int, added: seq<Event>)
    requires added == Appended(s.trace, GetEffect(s, env, obj, f, curBci, nextBci).trace)
    ensures forall e :: e in added ==> !e.Trap?
  {
    if !Folds(env, f, obj) {
      GetAppends(s, env, obj, f, curBci, nextBci);
    }
  }

  /** The traps among the events of a put are null checks. */
  lemma PutTrapsOnlyOnNull(s: State, env: Env, obj: Node, f: Field, isField: bool, added: seq<Event>)
    requires !s.stopped && SlotCount(f.layoutType) <= |s.stack|
    requires added == Appended(s.trace, PutEffect(s, env, obj, f, isField).trace)
    ensures forall e :: e in added && e.Trap? ==> e.reason == NullCheck
  {
    if !StoresNullToFlattenable(env, f, StoredValue(s.stack, f)) {
      PutAppends(s, env, obj, f, isField);
      assert added == PutEvents(env, obj, f, StoredValue(s.stack, f));
    }
  }

  /** The class initializer, or a constructor, of the holder or of one of its
      subclasses never takes the uninitialized trap on a static access. */
  lemma InitializerNeverTrapsUninitialized(s: State, env: Env, m: MethodInfo, curBci: int, nextBci: int,
                                           isGet: bool, f: Field)
    requires !s.stopped && NeededSlots(isGet, false, f) <= |s.stack| && f.isStatic
    requires env.isSubclassOf(m.holder, f.holder)
    requires (m.isStatic && m.name == ClassInitializerName) || (!m.isStatic && m.name == ObjectInitializerName)
    ensures var r := FieldAccessEffect(s, env, m, curBci, nextBci, isGet, false, f);
            forall e :: e in Appended(s.trace, r.trace) && e.Trap? ==> e.reason != Uninitialized
  {
    if !Refused(env, m, isGet, false, f) {
      AcceptedAccessTrapsOnlyOnNull(s, env, m, curBci, nextBci, isGet, false, f);
    }
  }

  /** A path that ends stopped made no memory access. */
  lemma StoppedAccessDidNotTouchMemory(s: State, env: Env, m: MethodInfo, curBci: int, nextBci: int,
                                       isGet: bool, isField: bool, f: Field)
    requires !s.stopped && NeededSlots(isGet, isField, f) <= |s.stack|
    requires isField && f.holder.isValueType ==> isGet
    ensures var r := FieldAccessEffect(s, env, m, curBci, nextBci, isGet, isField, f);
            r.stopped ==> Accesses(Appended(s.trace, r.trace)) == []
  {
    var r := FieldAccessEffect(s, env, m, curBci, nextBci, isGet, isField, f);
    if r.stopped {
      if !(isField && f.holder.isValueType) && Refused(env, m, isGet, isField, f) {
        RefusedAccessEmitsOnlyTrap(s, env, m, curBci, nextBci, isGet, isField, f);
      } else if isField {
        var depth := if isGet then 0 else SlotCount(f.layoutType);
        var recv := s.stack[|s.stack| - 1 - depth];
        if env.nullCheck(recv).Some? {
          var obj := env.nullCheck(recv).value;
          assert !isGet;
          FlattenableNullPutTraps(s, env, obj, f, true);
        } else {
          assert Appended(s.trace, r.trace) == [];
        }
      } else {
        assert !isGet;
        FlattenableNullPutTraps(s, env, Mirror(f.holder), f, false);
      }
    }
  }

  /** An instance get null-checks the receiver on top of the stack; when the
      check stops the path nothing else happens, otherwise the receiver is
      replaced by the field's one or two slots. */
  lemma InstanceGetStack(s: State, env: Env, m: MethodInfo, curBci: int, nextBci: int, f: Field)
    requires !s.stopped && 1 <= |s.stack| && !f.holder.isValueType && !f.isStatic
    ensures var r := FieldAccessEffect(s, env, m, curBci, nextBci, true, true, f);
            && (env.nullCheck(s.stack[|s.stack| - 1]).None? ==> r.stopped && r.trace == s.trace && r.stack == s.stack)
            && (env.nullCheck(s.stack[|s.stack| - 1]).Some? ==>
                  !r.stopped && Drop(s.stack, 1) <= r.stack &&
                  |r.stack| == |s.stack| - 1 + SlotCount(f.layoutType))
  {
    LoadedTypeWidth(f);
  }

  /** An instance put null-checks the receiver found below the one- or
      two-slot value. When that check stops the path the stack is unchanged;
      otherwise the value is popped, and the receiver is popped only when the
      put leaves the path live (a trapped put leaves it, under null). */
  lemma InstancePutStack(s: State, env: Env, m: MethodInfo, curBci: int, nextBci: int, f: Field)
    requires !s.stopped && 1 + SlotCount(f.layoutType) <= |s.stack| && !f.holder.isValueType
    requires !f.isStatic && !f.isCallSiteTarget
    ensures var r := FieldAccessEffect(s, env, m, curBci, nextBci, false, true, f);
            var recv := s.stack[|s.stack| - 1 - SlotCount(f.layoutType)];
            && (env.nullCheck(recv).None? ==> r.stopped && r.trace == s.trace && r.stack == s.stack)
            && (env.nullCheck(recv).Some? && r.stopped ==>
                  r.stack == Drop(s.stack, SlotCount(f.layoutType)) + [NullCon])
            && (env.nullCheck(recv).Some? && !r.stopped ==>
                  r.stack == Drop(s.stack, SlotCount(f.layoutType) + 1))
  {
    var recv := s.stack[|s.stack| - 1 - SlotCount(f.layoutType)];
    if env.nullCheck(recv).Some? {
      var r := PutEffect(s, env, env.nullCheck(recv).value, f, true);
      if !r.stopped {
        assert Drop(r.stack, 1) == Drop(s.stack, SlotCount(f.layoutType) + 1);
      }
    }
  }

  /** A static access works on the holder's mirror and never touches a
      receiver slot: a get only pushes, a put only pops its value (and a
      trapped put leaves null in its place). */
  lemma StaticAccessStack(s: State, env: Env, m: MethodInfo, curBci: int, nextBci: int,
                          isGet: bool, f: Field)
    requires !s.stopped && NeededSlots(isGet, false, f) <= |s.stack|
    requires !Refused(env, m, isGet, false, f)
    ensures var r := FieldAccessEffect(s, env, m, curBci, nextBci, isGet, false, f);
            && (isGet ==> !r.stopped && s.stack <= r.stack && |r.stack| == |s.stack| + SlotCount(f.layoutType))
            && (!isGet && !r.stopped ==> r.stack == Drop(s.stack, SlotCount(f.layoutType)))
            && (!isGet && r.stopped ==> r.stack == Drop(s.stack, SlotCount(f.layoutType)) + [NullCon])
  {
    LoadedTypeWidth(f);
  }

  /** A static put is never recorded: whether it is refused, trapped on a
      flattenable null or emitted, the bookkeeping flags read by the
      constructor's exit are left as they were. */
  lemma StaticPutKeepsFlags(s: State, env: Env, m: MethodInfo, curBci: int, nextBci: int, f: Field)
    requires !s.stopped && NeededSlots(false, false, f) <= |s.stack|
    ensures FieldAccessEffect(s, env, m, curBci, nextBci, false, false, f).flags == s.flags
  {
  }
}
