/** Lowering of getfield, putfield, getstatic and putstatic: the traps an
    access may take, the operand-stack traffic, the memory ordering and
    barriers of volatile and reference accesses (section 17.4 of the Java
    Language Specification), and the per-path bookkeeping a put records. */
module FieldAccess {
  import opened ParseTypes
  import opened Trace
  import opened Clinit
  import opened GraphKit

  // ---------------------------------------------------------------------------
  // Get
  // ---------------------------------------------------------------------------

  /** A get of a final or stable field is answered by the constant oracle,
      unless the field is object-typed and its type is not loaded. */
  predicate Folds(env: Env, f: Field, obj: Node)
  {
    f.isConstant && (f.layoutType != TObject || f.typeLoaded) && env.constantFromField(f, obj).Some?
  }

  /** The type a load of f is given. */
  function LoadType(f: Field): TypeTag
  {
    if IsOop(f.layoutType) then
      if !f.typeLoaded then Bottom
      else match f.staticConstant
        case NullConstant => NullPtr
        case ObjectConstant(_) => OopConstant
        case NotStaticConstant =>
          FromKlass(f.layoutType == TValueType && f.isStatic && f.staticValueNonNull)
    else Primitive(f.layoutType)
  }

  /** The type a get loads and pushes: a non-flattened, non-flattenable value
      type field may hold null, so it is loaded as a pointer. */
  function LoadedType(f: Field): BasicType
  {
    if !f.isFlattened && f.layoutType == TValueType && !f.isFlattenable then TValueTypePtr
    else f.layoutType
  }

  /** An object or value-type field whose declared type is not loaded is read
      as possibly null and asserted null at the next bytecode. */
  predicate MustAssertNull(f: Field)
  {
    IsOop(f.layoutType) && !f.typeLoaded
  }

  predicate NeedsAtomic(env: Env, f: Field)
  {
    f.isVolatile || env.alwaysAtomicAccesses
  }

  /** The memory access of a get that is not folded. */
  function LoadEvent(env: Env, obj: Node, f: Field): Event
  {
    if f.isFlattened then FlattenedLoad(obj, f.offset)
    else Load(FieldAddr(obj, f.offset), LoadedType(f), LoadType(f),
              if f.isVolatile then Acquire else Unordered, NeedsAtomic(env, f))
  }

  /** Barrier before a volatile load on CPUs that are not multiple-copy atomic. */
  function GetPreBarrier(env: Env, f: Field): seq<Event>
  {
    if env.supportIRIW && f.isVolatile then [MemBar(MemBarVolatile)] else []
  }

  /** The null assertion, placed at the next bytecode, of a possibly unloaded value. */
  function GetNullCheck(f: Field, nextBci: int, ld: Node): seq<Event>
  {
    if MustAssertNull(f) then [AssertNull(nextBci, ld)] else []
  }

  /** Acquire barrier after a volatile load. */
  function GetPostBarrier(f: Field): seq<Event>
  {
    if f.isVolatile then [MemBar(MemBarAcquire)] else []
  }

  /** The events of a get that is not folded, ld being the load's node. */
  function GetEvents(env: Env, obj: Node, f: Field, nextBci: int, ld: Node): seq<Event>
  {
    GetPreBarrier(env, f) + [LoadEvent(env, obj, f)] + GetNullCheck(f, nextBci, ld) + GetPostBarrier(f)
  }

  /** The node a get that is not folded loads, on a path whose trace is t. */
  function LoadNode(env: Env, f: Field, t: seq<Event>): Node
  {
    Result(|t| + |GetPreBarrier(env, f)|)
  }

  /** The effect of a get on the path: either the folded constant is pushed,
      or an optional leading barrier, the load, an optional null assertion at
      the next bci and an optional trailing acquire barrier are emitted and
      the loaded value is pushed. */
  function GetEffect(s: State, env: Env, obj: Node, f: Field, curBci: int, nextBci: int): (r: State)
    ensures s.trace <= r.trace && r.stopped == s.stopped && r.flags == s.flags
  {
    if Folds(env, f, obj) then
      s.(stack := s.stack + Slots(f.layoutType, env.constantFromField(f, obj).value))
    else
      var ld := LoadNode(env, f, s.trace);
      s.(stack := s.stack + Slots(LoadedType(f), ld),
         trace := s.trace + GetEvents(env, obj, f, nextBci, ld),
         bci := if MustAssertNull(f) then curBci else s.bci)
  }

  /** Emits the barrier a volatile load needs in front of it, if any. */
  method EmitGetPreBarrier(p: Parse, env: Env, field: Field)
    modifies p`trace
    ensures p.trace == old(p.trace) + GetPreBarrier(env, field)
  {
    if env.supportIRIW && field.isVolatile {
      p.InsertMemBar(MemBarVolatile);
    }
  }

  /** Emits the load of a get: a flattened load, or a load of the field's
      address with its type, ordering and atomicity. */
  method EmitFieldLoad(p: Parse, env: Env, obj: Node, field: Field) returns (ld: Node)
    modifies p`trace
    ensures ld == Result(|old(p.trace)|)
    ensures p.trace == old(p.trace) + [LoadEvent(env, obj, field)]
  {
    var bt := field.layoutType;
    var isVol := field.isVolatile;
    var offset := field.offset;
    var adr := FieldAddr(obj, offset);
    var t := LoadType(field);
    var mo := if isVol then Acquire else Unordered;
    var needsAtomicAccess := isVol || env.alwaysAtomicAccesses;
    if field.isFlattened {
      ld := p.MakeLoad(FlattenedLoad(obj, offset));
    } else {
      if bt == TValueType && !field.isFlattenable {
        bt := TValueTypePtr;
      }
      ld := p.MakeLoad(Load(adr, bt, t, mo, needsAtomicAccess));
    }
  }

  /** Asserts, at the next bytecode, that a value of an unloaded type on top
      of the stack is null, and returns to the current bytecode. */
  method EmitGetNullCheck(p: Parse, field: Field, ld: Node)
    requires MustAssertNull(field) ==> |p.stack| >= 1 && p.Peek(0) == ld
    modifies p`trace, p`bci
    ensures p.trace == old(p.trace) + GetNullCheck(field, p.nextBci, ld)
    ensures p.bci == if MustAssertNull(field) then p.curBci else old(p.bci)
  {
    if MustAssertNull(field) {
      p.SetBci(p.nextBci);
      p.NullAssert(p.Peek(0));
      p.SetBci(p.curBci);
    }
  }

  /** Emits the acquire barrier that follows a volatile load. */
  method EmitGetPostBarrier(p: Parse, field: Field)
    modifies p`trace
    ensures p.trace == old(p.trace) + GetPostBarrier(field)
  {
    if field.isVolatile {
      p.InsertMemBar(MemBarAcquire);
    }
  }

  /** Emits the load with the barrier it may need in front of it. */
  method EmitBarrierAndLoad(p: Parse, env: Env, obj: Node, field: Field) returns (ld: Node)
    modifies p`trace
    ensures ld == LoadNode(env, field, old(p.trace))
    ensures p.trace == old(p.trace) + GetPreBarrier(env, field) + [LoadEvent(env, obj, field)]
  {
    EmitGetPreBarrier(p, env, field);
    ld := EmitFieldLoad(p, env, obj, field);
  }

  /** Pushes the loaded value, then asserts it null if its type is unloaded. */
  method PushLoaded(p: Parse, field: Field, ld: Node)
    modifies p`stack, p`trace, p`bci
    ensures p.stack == old(p.stack) + Slots(LoadedType(field), ld)
    ensures p.trace == old(p.trace) + GetNullCheck(field, p.nextBci, ld)
    ensures p.bci == if MustAssertNull(field) then p.curBci else old(p.bci)
  {
    p.PushNode(LoadedType(field), ld);
    EmitGetNullCheck(p, field, ld);
  }

  /** The part of a get that is not folded: barriers, load, push and null
      assertion. */
  method LoadField(p: Parse, env: Env, obj: Node, field: Field)
    modifies p`stack, p`trace, p`bci
    ensures p.stack == old(p.stack) + Slots(LoadedType(field), LoadNode(env, field, old(p.trace)))
    ensures p.trace == old(p.trace) + GetEvents(env, obj, field, p.nextBci, LoadNode(env, field, old(p.trace)))
    ensures p.bci == if MustAssertNull(field) then p.curBci else old(p.bci)
  {
    var ld := EmitBarrierAndLoad(p, env, obj, field);
    PushLoaded(p, field, ld);
    EmitGetPostBarrier(p, field);
  }

  method DoGetXxx(p: Parse, env: Env, obj: Node, field: Field)
    modifies p
    ensures p.Snapshot() == GetEffect(old(p.Snapshot()), env, obj, field, p.curBci, p.nextBci)
  {
    if field.isConstant && (field.layoutType != TObject || field.typeLoaded) {
      var con := env.constantFromField(field, obj);
      if con.Some? {
        p.PushNode(field.layoutType, con.value);
        return;
      }
    }
    LoadField(p, env, obj, field);
  }

  // ---------------------------------------------------------------------------
  // Put
  // ---------------------------------------------------------------------------

  /** Release ordering for stores of object references. */
  function ReleaseIfReference(bt: BasicType): MemOrd
  {
    if bt == TObject then Release else Unordered
  }

  function StoreOrd(f: Field): MemOrd
  {
    if f.isVolatile then Release else ReleaseIfReference(f.layoutType)
  }

  /** The value a put stores: the low slot of the top value, doubles rounded. */
  function StoredValue(stack: seq<Node>, f: Field): Node
    requires SlotCount(f.layoutType) <= |stack|
  {
    var v := stack[|stack| - SlotCount(f.layoutType)];
    if f.layoutType == TDouble then Rounded(v) else v
  }

  function FieldType(f: Field): TypeTag
  {
    if !f.typeLoaded then Bottom else FromKlass(false)
  }

  /** A flattenable field receiving something that is not a value type. */
  predicate StoresNullToFlattenable(env: Env, f: Field, val: Node)
  {
    IsOop(f.layoutType) && f.isFlattenable && !env.isValueTypeNode(val)
  }

  /** The memory access of a put that does not trap. */
  function StoreEvent(env: Env, obj: Node, f: Field, val: Node): Event
  {
    if IsOop(f.layoutType) then
      if f.isFlattened then FlattenedStore(val, obj, f.offset)
      else OopStore(FieldAddr(obj, f.offset), val, f.layoutType, FieldType(f), StoreOrd(f))
    else Store(FieldAddr(obj, f.offset), val, f.layoutType, StoreOrd(f), NeedsAtomic(env, f))
  }

  /** Release barrier in front of a volatile store. */
  function PutPreBarrier(f: Field): seq<Event>
  {
    if f.isVolatile then [MemBar(MemBarRelease)] else []
  }

  /** Full barrier after a volatile store, unless volatile loads carry it. */
  function PutPostBarrier(env: Env, f: Field): seq<Event>
  {
    if f.isVolatile && !env.supportIRIW then [MemBar(MemBarVolatile)] else []
  }

  /** The events of a put that stores val. */
  function PutEvents(env: Env, obj: Node, f: Field, val: Node): seq<Event>
  {
    PutPreBarrier(f) + [StoreEvent(env, obj, f, val)] + PutPostBarrier(env, f)
  }

  /** The events of a put whose value is refused by a flattenable field. */
  function NullPutEvents(f: Field): seq<Event>
  {
    PutPreBarrier(f) + [Trap(NullCheck, ActionNone, None, "")]
  }

  /** The bookkeeping after a put: only instance fields are recorded. */
  function PutFlags(fl: Flags, env: Env, obj: Node, f: Field, isField: bool): Flags
  {
    Flags(fl.wroteFields || isField,
          fl.wroteVolatile || (isField && f.isVolatile),
          fl.wroteFinal || (isField && f.isFinal),
          fl.wroteStable || (isField && f.isStable),
          if isField && f.isFinal && env.idealAllocation(obj) then Some(obj) else fl.allocWithFinal)
  }

  /** The effect of a put on a live path: the value is popped; a
      non-value-type stored into a flattenable field leaves null on the stack
      and ends the path with a null-check trap; otherwise the store is
      emitted between its barriers and the put is recorded. */
  function PutEffect(s: State, env: Env, obj: Node, f: Field, isField: bool): (r: State)
    requires !s.stopped && SlotCount(f.layoutType) <= |s.stack|
    ensures s.trace <= r.trace && r.bci == s.bci
    ensures Drop(s.stack, SlotCount(f.layoutType)) <= r.stack
  {
    var val := StoredValue(s.stack, f);
    var rest := Drop(s.stack, SlotCount(f.layoutType));
    if StoresNullToFlattenable(env, f, val) then
      s.(stack := rest + [NullCon], trace := s.trace + NullPutEvents(f), stopped := true)
    else
      s.(stack := rest,
         trace := s.trace + PutEvents(env, obj, f, val),
         flags := PutFlags(s.flags, env, obj, f, isField))
  }

  method EmitPutPreBarrier(p: Parse, field: Field)
    modifies p`trace
    ensures p.trace == old(p.trace) + PutPreBarrier(field)
  {
    if field.isVolatile {
      p.InsertMemBar(MemBarRelease);
    }
  }

  /** Pops the value to be stored (one or two slots); doubles are rounded. */
  method PopStoredValue(p: Parse, field: Field) returns (val: Node)
    requires SlotCount(field.layoutType) <= |p.stack|
    modifies p`stack
    ensures val == StoredValue(old(p.stack), field)
    ensures p.stack == Drop(old(p.stack), SlotCount(field.layoutType))
  {
    var bt := field.layoutType;
    if SlotCount(bt) == 1 {
      val := p.Pop();
    } else {
      val := p.PopPair();
    }
    if bt == TDouble {
      val := Rounded(val);
    }
  }

  /** Emits the store of a put: a flattened store, an oop store, or a
      primitive store, with the ordering and atomicity the field needs. */
  method EmitFieldStore(p: Parse, env: Env, obj: Node, field: Field, val: Node)
    modifies p`trace
    ensures p.trace == old(p.trace) + [StoreEvent(env, obj, field, val)]
  {
    var isVol := field.isVolatile;
    var offset := field.offset;
    var adr := FieldAddr(obj, offset);
    var bt := field.layoutType;
    var mo := if isVol then Release else ReleaseIfReference(bt);
    if bt == TObject || bt == TValueType {
      var fieldType := if !field.typeLoaded then Bottom else FromKlass(false);
      if field.isFlattened {
        var _ := p.Emit(FlattenedStore(val, obj, offset));
      } else {
        var _ := p.Emit(OopStore(adr, val, bt, fieldType, mo));
      }
    } else {
      var needsAtomicAccess := isVol || env.alwaysAtomicAccesses;
      var _ := p.Emit(Store(adr, val, bt, mo, needsAtomicAccess));
    }
  }

  method EmitPutPostBarrier(p: Parse, env: Env, field: Field)
    modifies p`trace
    ensures p.trace == old(p.trace) + PutPostBarrier(env, field)
  {
    if field.isVolatile && !env.supportIRIW {
      p.InsertMemBar(MemBarVolatile);
    }
  }

  /** Records an instance-field put for the barriers emitted at method exit. */
  method RecordPut(p: Parse, env: Env, obj: Node, field: Field, isField: bool)
    modifies p`wroteFields, p`wroteVolatile, p`wroteFinal, p`wroteStable, p`allocWithFinal
    ensures p.Snapshot().flags == PutFlags(old(p.Snapshot().flags), env, obj, field, isField)
  {
    if field.isVolatile && isField {
      p.wroteVolatile := true;
    }
    if isField {
      p.wroteFields := true;
    }
    if isField && (field.isFinal || field.isStable) {
      if field.isFinal {
        p.wroteFinal := true;
      }
      if field.isStable {
        p.wroteStable := true;
      }
      if field.isFinal && env.idealAllocation(obj) {
        p.allocWithFinal := Some(obj);
      }
    }
  }

  /** A flattenable field refuses the value: null takes its place on the
      stack and the path ends with a null-check trap. */
  method RefuseNullPut(p: Parse)
    requires !p.stopped
    modifies p`stack, p`trace, p`stopped
    ensures p.stack == old(p.stack) + [NullCon]
    ensures p.trace == old(p.trace) + [Trap(NullCheck, ActionNone, None, "")]
    ensures p.stopped
  {
    p.Push(NullCon);
    p.UncommonTrap(NullCheck, ActionNone, None, "");
  }

  /** The store, the barrier after it, and the bookkeeping. */
  method StoreAndRecord(p: Parse, env: Env, obj: Node, field: Field, isField: bool, val: Node)
    modifies p`trace, p`wroteFields, p`wroteVolatile, p`wroteFinal, p`wroteStable, p`allocWithFinal
    ensures p.trace == old(p.trace) + [StoreEvent(env, obj, field, val)] + PutPostBarrier(env, field)
    ensures p.Snapshot().flags == PutFlags(old(p.Snapshot().flags), env, obj, field, isField)
  {
    EmitFieldStore(p, env, obj, field, val);
    EmitPutPostBarrier(p, env, field);
    RecordPut(p, env, obj, field, isField);
  }

  method DoPutXxx(p: Parse, env: Env, obj: Node, field: Field, isField: bool)
    requires !p.stopped && SlotCount(field.layoutType) <= |p.stack|
    modifies p
    ensures p.Snapshot() == PutEffect(old(p.Snapshot()), env, obj, field, isField)
  {
    ghost var t0 := p.trace;
    EmitPutPreBarrier(p, field);
    var val := PopStoredValue(p, field);
    if StoresNullToFlattenable(env, field, val) {
      RefuseNullPut(p);
      assert p.trace == t0 + NullPutEvents(field);
      return;
    }
    StoreAndRecord(p, env, obj, field, isField, val);
    assert p.trace == t0 + PutEvents(env, obj, field, val);
  }

  // ---------------------------------------------------------------------------
  // Dispatch
  // ---------------------------------------------------------------------------

  /** Operand slots an access consumes: the receiver of an instance access and
      the value of a put. */
  function NeededSlots(isGet: bool, isField: bool, f: Field): nat
  {
    (if isField then 1 else 0) + (if isGet then 0 else SlotCount(f.layoutType))
  }

  /** An accepted instance-field access: the object is null-checked, then
      loaded from or stored to; a store pops the object after the value. */
  function InstanceAccessEffect(s: State, env: Env, curBci: int, nextBci: int,
                                isGet: bool, f: Field): State
    requires !s.stopped && NeededSlots(isGet, true, f) <= |s.stack|
  {
    var depth := if isGet then 0 else SlotCount(f.layoutType);
    match env.nullCheck(s.stack[|s.stack| - 1 - depth])
    case None => s.(stopped := true)
    case Some(obj) =>
      if isGet then GetEffect(s.(stack := Drop(s.stack, 1)), env, obj, f, curBci, nextBci)
      else
        var r := PutEffect(s, env, obj, f, true);
        if r.stopped then r else r.(stack := Drop(r.stack, 1))
  }

  /** The effect of one field-access bytecode on a live path. */
  function FieldAccessEffect(s: State, env: Env, m: MethodInfo, curBci: int, nextBci: int,
                             isGet: bool, isField: bool, f: Field): (r: State)
    requires !s.stopped && NeededSlots(isGet, isField, f) <= |s.stack|
    requires isField && f.holder.isValueType ==> isGet
    ensures s.trace <= r.trace
  {
    if isField && f.holder.isValueType then
      var vt := s.stack[|s.stack| - 1];
      s.(stack := Drop(s.stack, 1) + Slots(f.layoutType, env.fieldValueByOffset(vt, f.offset)))
    else if isField == f.isStatic then
      Trapped(s, Unhandled, ActionNone, None, "")
    else if !isField && !f.holder.initialized && !StaticFieldOkInClinit(f, m, env.isSubclassOf) then
      Trapped(s, Uninitialized, Reinterpret, None, "!static_field_ok_in_clinit")
    else if !isGet && f.isCallSiteTarget then
      Trapped(s, Unhandled, Reinterpret, None, "put to call site target field")
    else if isField then
      InstanceAccessEffect(s, env, curBci, nextBci, isGet, f)
    else if isGet then
      GetEffect(s, env, Mirror(f.holder), f, curBci, nextBci)
    else
      PutEffect(s, env, Mirror(f.holder), f, false)
  }

  method InstanceAccess(p: Parse, env: Env, isGet: bool, field: Field)
    requires !p.stopped && NeededSlots(isGet, true, field) <= |p.stack|
    modifies p
    ensures p.Snapshot() == InstanceAccessEffect(old(p.Snapshot()), env, p.curBci, p.nextBci, isGet, field)
  {
    var objDepth := if isGet then 0 else SlotCount(field.layoutType);
    var obj := p.NullCheck(env, p.Peek(objDepth));
    if p.stopped {
      return;
    }
    if isGet {
      InstanceGet(p, env, obj, field);
    } else {
      InstancePut(p, env, obj, field);
    }
  }

  /** getfield on a non-null object: the object is popped, then the get. */
  method InstanceGet(p: Parse, env: Env, obj: Node, field: Field)
    requires 1 <= |p.stack|
    modifies p
    ensures p.Snapshot() == GetEffect(old(p.Snapshot()).(stack := Drop(old(p.stack), 1)),
                                      env, obj, field, p.curBci, p.nextBci)
  {
    var _ := p.Pop();
    DoGetXxx(p, env, obj, field);
  }

  /** putfield on a non-null object: the put, then the object is popped
      unless the put stopped the path. */
  method InstancePut(p: Parse, env: Env, obj: Node, field: Field)
    requires !p.stopped && 1 + SlotCount(field.layoutType) <= |p.stack|
    modifies p
    ensures var r := PutEffect(old(p.Snapshot()), env, obj, field, true);
            p.Snapshot() == if r.stopped then r else r.(stack := Drop(r.stack, 1))
  {
    DoPutXxx(p, env, obj, field, true);
    if p.stopped {
      return;
    }
    var _ := p.Pop();
  }

  method DoFieldAccess(p: Parse, env: Env, isGet: bool, isField: bool, field: Field)
    requires !p.stopped && NeededSlots(isGet, isField, field) <= |p.stack|
    requires isField && field.holder.isValueType ==> isGet
    modifies p
    ensures p.Snapshot() == FieldAccessEffect(old(p.Snapshot()), env, p.compiledMethod,
                                              p.curBci, p.nextBci, isGet, isField, field)
  {
    var fieldHolder := field.holder;

    if isField && fieldHolder.isValueType {
      var bt := field.layoutType;
      var vt := p.Pop();
      var value := env.fieldValueByOffset(vt, field.offset);
      p.PushNode(bt, value);
      return;
    }

    if isField == field.isStatic {
      p.UncommonTrap(Unhandled, ActionNone, None, "");
      return;
    }

    if !isField && !fieldHolder.initialized {
      if !StaticFieldOkInClinit(field, p.compiledMethod, env.isSubclassOf) {
        p.UncommonTrap(Uninitialized, Reinterpret, None, "!static_field_ok_in_clinit");
        return;
      }
    }

    if !isGet && field.isCallSiteTarget {
      p.UncommonTrap(Unhandled, Reinterpret, None, "put to call site target field");
      return;
    }

    if isField {
      InstanceAccess(p, env, isGet, field);
    } else {
      var obj := Mirror(fieldHolder);
      if isGet {
        DoGetXxx(p, env, obj, field);
      } else {
        DoPutXxx(p, env, obj, field, isField);
      }
    }
  }
}
