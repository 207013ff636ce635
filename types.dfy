/** Entities the field-access and array-allocation lowering works on: the
    metadata it reads (fields, classes, the method being compiled), the
    abstract IR values it moves on the operand stack, the events it emits
    into the graph, the per-path state, and the collaborators it consults. */
module ParseTypes {

  datatype Option<T> = None | Some(value: T)

  /** Layout types of fields and array elements. */
  datatype BasicType =
    | TBoolean | TChar | TFloat | TDouble | TByte | TShort | TInt | TLong
    | TObject | TValueType | TValueTypePtr

  /** Operand-stack slots taken by a value of this type (type2size). */
  function SlotCount(bt: BasicType): nat
  {
    if bt == TLong || bt == TDouble then 2 else 1
  }

  /** Types whose accesses go through the oop path (T_OBJECT or T_VALUETYPE). */
  predicate IsOop(bt: BasicType)
  {
    bt == TObject || bt == TValueType
  }

  /** Instance classes: value-type-ness and initialization state. */
  datatype InstanceKlass = InstanceKlass(id: nat, isValueType: bool, initialized: bool)

  /** Array classes: whether loaded, and the element they hold. */
  datatype ArrayKlass = ArrayKlass(loaded: bool, elem: Element)
  datatype Element =
    | PrimElem(bt: BasicType)
    | InstanceElem(klass: InstanceKlass)
    | ArrayElem(inner: ArrayKlass)

  /** Number of array dimensions of an array class. */
  function Rank(k: ArrayKlass): nat
  {
    match k.elem
    case ArrayElem(inner) => 1 + Rank(inner)
    case _ => 1
  }

  /** The class of an int[] (used for the dimensions array of rank > 5). */
  function IntArrayKlass(): ArrayKlass
  {
    ArrayKlass(true, PrimElem(TInt))
  }

  /** The method being compiled. */
  datatype MethodInfo = MethodInfo(holder: InstanceKlass, isStatic: bool, name: string)

  const ClassInitializerName: string := "<clinit>"
  const ObjectInitializerName: string := "<init>"

  /** What is known about a static final field's value at compile time. */
  datatype StaticConstant = NotStaticConstant | NullConstant | ObjectConstant(id: nat)

  /** A resolved field descriptor. `typeLoaded` says whether the declared
      type is loaded; `staticValueNonNull` is the current value of a static
      value-type field in its holder's mirror. */
  datatype Field = Field(
    holder: InstanceKlass,
    offset: int,
    layoutType: BasicType,
    typeLoaded: bool,
    isStatic: bool,
    isVolatile: bool,
    isFinal: bool,
    isStable: bool,
    isConstant: bool,
    isFlattened: bool,
    isFlattenable: bool,
    isCallSiteTarget: bool,
    staticConstant: StaticConstant,
    staticValueNonNull: bool)

  /** Abstract result types, standing for elements of the type lattice. */
  datatype TypeTag =
    | Bottom
    | NullPtr
    | OopConstant
    | FromKlass(notNull: bool)
    | Primitive(bt: BasicType)
    | ArrayElementType
    | ExactArray(sized: bool)

  /** Abstract IR values. `Result(i)` is the value produced by the event at
      index i of the trace (a load, an allocation, a runtime call). */
  datatype Node =
    | Input(id: nat)
    | Result(at: nat)
    | Mirror(klass: InstanceKlass)
    | NullCon
    | TopCon
    | IntCon(v: int)
    | Rounded(n: Node)
    | CastPP(n: Node, t: TypeTag)

  datatype Reason = Unhandled | Uninitialized | Unloaded | NullCheck
  datatype Action = ActionNone | Reinterpret
  datatype BarKind = MemBarVolatile | MemBarAcquire | MemBarRelease
  datatype MemOrd = Unordered | Acquire | Release

  /** Addresses: a field of an object, a byte offset in an array, an int element. */
  datatype Address =
    | FieldAddr(base: Node, offset: int)
    | ArraySlot(base: Node, offset: int)
    | IntElement(base: Node, index: int)

  /** Runtime entry points for multi-dimensional allocation. */
  datatype Entry = MultiNewArray(rank: nat) | MultiNewArrayN

  /** Events appended to the graph under construction. */
  datatype Event =
    | Trap(reason: Reason, action: Action, trapKlass: Option<ArrayKlass>, comment: string)
    | MemBar(kind: BarKind)
    | Load(adr: Address, bt: BasicType, t: TypeTag, ord: MemOrd, atomic: bool)
    | FlattenedLoad(base: Node, offset: int)
    | Store(adr: Address, value: Node, bt: BasicType, ord: MemOrd, atomic: bool)
    | OopStore(adr: Address, value: Node, bt: BasicType, t: TypeTag, ord: MemOrd)
    | FlattenedStore(value: Node, base: Node, offset: int)
    | AssertNull(bci: int, value: Node)
    | DeadLocalsKilled
    | Alloc(klass: ArrayKlass, length: Node, nargs: nat)
    | Call(entry: Entry, klass: ArrayKlass, args: seq<Node>)

  /** Per-path bookkeeping that later phases read (barriers at constructor exit). */
  datatype Flags = Flags(
    wroteFields: bool,
    wroteVolatile: bool,
    wroteFinal: bool,
    wroteStable: bool,
    allocWithFinal: Option<Node>)

  /** The parser state of one path, as a value. */
  datatype State = State(
    stack: seq<Node>,
    stopped: bool,
    bci: int,
    flags: Flags,
    trace: seq<Event>)

  /** Global flags and the collaborators this core consults but does not define. */
  datatype Env = Env(
    supportIRIW: bool,
    alwaysAtomicAccesses: bool,
    multiArrayExpandLimit: int,
    arrayHeader: int,
    logBytesPerHeapOop: nat,
    isSubclassOf: (InstanceKlass, InstanceKlass) -> bool,
    constantFromField: (Field, Node) -> Option<Node>,
    nullCheck: Node -> Option<Node>,
    isValueTypeNode: Node -> bool,
    idealAllocation: Node -> bool,
    findIntCon: Node -> Option<int>,
    hasIntType: Node -> bool,
    fieldValueByOffset: (Node, int) -> Node)

  /** The slots a value of type bt occupies: itself, then a filler for the high half. */
  function Slots(bt: BasicType, n: Node): seq<Node>
  {
    if SlotCount(bt) == 1 then [n] else [n, TopCon]
  }

  /** The stack without its top k slots. */
  function Drop(stack: seq<Node>, k: nat): seq<Node>
    requires k <= |stack|
  {
    stack[..|stack| - k]
  }

  /** The path after an uncommon trap on a live path: the trap is the last event. */
  function Trapped(s: State, reason: Reason, action: Action, klass: Option<ArrayKlass>, comment: string): State
  {
    s.(trace := s.trace + [Trap(reason, action, klass, comment)], stopped := true)
  }
}
