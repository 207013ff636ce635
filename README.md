# Field access and array allocation in the C2 bytecode parser

This project models the part of HotSpot's C2 parser that turns field and
array-allocation bytecodes into IR: `getfield`, `putfield`, `getstatic`,
`putstatic`, `newarray`, `anewarray` and `multianewarray`, in the
value-type (Valhalla) variant of `src/hotspot/share/opto/parse3.cpp`.

The parser works on one path of the method being compiled. That path has:

- an operand stack of IR nodes;
- a flag saying whether the path has stopped (ended by an uncommon trap);
- the current bytecode index;
- a few bookkeeping flags that the method exit reads;
- the graph built so far.

The model keeps this state in the class `GraphKit.Parse`. The graph is a
trace of events: traps, memory barriers, loads, stores, allocations and
runtime calls. A node that an event produces is `Result(i)`, where i is the
event's index in the trace.

Each bytecode lowering is a method that changes a `Parse`. Its postcondition
equates the new state with a declarative effect function of the old state:

| method | effect function |
|---|---|
| `FieldAccess.DoFieldAccess` | `FieldAccessEffect` |
| `FieldAccess.DoGetXxx` | `GetEffect` |
| `FieldAccess.DoPutXxx` | `PutEffect` |
| `NewArray.DoNewarray` | `NewArrayEffect` |
| `NewArray.DoNewarrayPrim` | `PrimNewArrayEffect` |
| `MultiArray.DoMultianewarray` | `MultiNewArrayEffect` |

The guarantees of the lowering are proved as lemmas about these functions,
and about the event sequences they append. They cover:

- the order in which `do_field_access` refuses an access;
- barrier placement and memory ordering for volatile accesses;
- the null-store trap of flattenable fields;
- the stack effects;
- the multianewarray heuristic: when it expands the allocation inline, and
  how many arrays the expansion allocates;
- the runtime entry chosen by rank.

All integers are unbounded; the one place where the source's 32-bit
arithmetic matters is discussed under "Left out".

Modules:

- **ParseTypes**: the entities (fields, classes, nodes, events, state, and
  the environment of global flags and oracles).
- **Trace**: filters over event sequences and their concatenation lemmas.
- **Clinit**: `static_field_ok_in_clinit`.
- **GraphKit**: the parser object and the primitives it calls.
- **FieldAccess** and **FieldAccessProps**: field accesses and their
  properties.
- **NewArray**: the two `do_newarray` variants.
- **MultiArray** and **MultiArrayProps**: the expansion heuristic,
  `expand_multianewarray`, `do_multianewarray` and their properties.

## Model

| member | source | states |
|---|---|---|
| Clinit.StaticFieldOkInClinit | src/hotspot/share/opto/parse3.cpp:45-79 | true exactly when the compiled method is the static `<clinit>` or an instance `<init>` of the field's holder or of a subclass of it |
| Clinit.MisnamedOrUnrelatedRefused | src/hotspot/share/opto/parse3.cpp:58-77 | a static `<init>`, an instance `<clinit>`, and any method of a class unrelated to the holder are refused |
| FieldAccess.DoFieldAccess | src/hotspot/share/opto/parse3.cpp:82-159 | the parser state after the access is the dispatch effect: value-type holder read, the three refusing traps in order, null check of the receiver, then get or put |
| FieldAccess.InstanceAccess | src/hotspot/share/opto/parse3.cpp:129-149 | an instance access null-checks the receiver at depth 0 for a get or the value's width for a put; a stopped check ends it; a get pops the receiver first; a put pops it afterwards, and only on a live path |
| FieldAccess.InstanceGet | src/hotspot/share/opto/parse3.cpp:140-142 | the receiver is popped, then the get's effect applies |
| FieldAccess.InstancePut | src/hotspot/share/opto/parse3.cpp:143-149 | the put's effect applies, then the receiver is popped unless the put stopped the path |
| FieldAccess.DoGetXxx | src/hotspot/share/opto/parse3.cpp:161-282 | the state after a get is GetEffect: a constant fold, or barrier, load, push, null assertion and acquire barrier |
| FieldAccess.LoadField | src/hotspot/share/opto/parse3.cpp:224-281 | an unfolded get pushes the load in one or two slots and appends exactly the get's events; the bci is set to the current bytecode only when a null assertion is emitted, and is otherwise unchanged |
| FieldAccess.EmitGetPreBarrier | src/hotspot/share/opto/parse3.cpp:224-226 | appends a full barrier exactly when the field is volatile and IRIW support is on, and nothing otherwise |
| FieldAccess.EmitBarrierAndLoad | src/hotspot/share/opto/parse3.cpp:224-243 | appends the optional leading barrier and then the field's load, and returns the node the load produces |
| FieldAccess.PushLoaded | src/hotspot/share/opto/parse3.cpp:245-273 | pushes the loaded node in the slots of its loaded type, appends a null assertion at the next bytecode exactly when the field's type is unloaded and, only when it emits that assertion, sets the bci back to the current bytecode; otherwise the bci is unchanged |
| FieldAccess.EmitGetPostBarrier | src/hotspot/share/opto/parse3.cpp:278-281 | appends an acquire barrier exactly when the field is volatile, and nothing otherwise |
| FieldAccess.EmitFieldLoad | src/hotspot/share/opto/parse3.cpp:230-243 | appends exactly the field's load (flattened, or a load at the field's offset with its type, ordering and atomicity) and returns the node it produces |
| FieldAccess.EmitGetNullCheck | src/hotspot/share/opto/parse3.cpp:251-273 | exactly when the field's type is unloaded, the null assertion is placed at the next bytecode and, only then, the bci is set back to the current bytecode; otherwise nothing is appended and the bci is unchanged |
| FieldAccess.EmitPutPreBarrier | src/hotspot/share/opto/parse3.cpp:290 | appends a release barrier exactly when the field is volatile, and nothing otherwise |
| FieldAccess.EmitPutPostBarrier | src/hotspot/share/opto/parse3.cpp:347-351 | appends a full barrier exactly when the field is volatile and IRIW support is off, and nothing otherwise |
| FieldAccess.StoreAndRecord | src/hotspot/share/opto/parse3.cpp:312-383 | appends the store and then the optional trailing barrier, and updates the bookkeeping flags as a put of this field records them |
| FieldAccess.DoPutXxx | src/hotspot/share/opto/parse3.cpp:284-384 | the state after a put is PutEffect: release barrier, pop (and rounding) of the value, then either the flattenable null trap or the store, post-barrier and bookkeeping |
| FieldAccess.PopStoredValue | src/hotspot/share/opto/parse3.cpp:298-300 | pops one or two slots by the field's width; a double is rounded |
| FieldAccess.EmitFieldStore | src/hotspot/share/opto/parse3.cpp:303-343 | appends exactly the field's store: flattened, an oop store with the field type, or a primitive store, ordered and atomic as the field needs |
| FieldAccess.RefuseNullPut | src/hotspot/share/opto/parse3.cpp:320-328 | null is pushed and the path ends with a null-check trap with no action |
| FieldAccess.RecordPut | src/hotspot/share/opto/parse3.cpp:355-383 | only instance puts are recorded; volatile, final and stable writes set their flags; a final write to a freshly allocated object records it |
| FieldAccessProps.LoadedTypeWidth | src/hotspot/share/opto/parse3.cpp:237-249 | replacing a non-flattenable value type by its pointer type keeps the slot count; a field that must be asserted null takes one slot |
| FieldAccessProps.FoldedGetEmitsNothing | src/hotspot/share/opto/parse3.cpp:165-178 | a folded constant is pushed in the field's width and no event is emitted |
| FieldAccessProps.UnloadedObjectNeverFolds | src/hotspot/share/opto/parse3.cpp:165-171 | an object field of unloaded type is never folded |
| FieldAccessProps.GetOrdering | src/hotspot/share/opto/parse3.cpp:224-281 | a get's only access is its load; volatile gets have an optional leading full barrier (IRIW) and a trailing acquire barrier; non-volatile gets have none; no get traps |
| FieldAccessProps.GetAppends | src/hotspot/share/opto/parse3.cpp:224-281 | an unfolded get appends exactly its events and pushes the loaded node |
| FieldAccessProps.LoadOrdering | src/hotspot/share/opto/parse3.cpp:230-231 | acquire if and only if volatile; unordered if and only if not volatile; atomic if and only if volatile or all accesses are atomic |
| FieldAccessProps.UnloadedGetAssertsNull | src/hotspot/share/opto/parse3.cpp:194-197 | an oop field of unloaded type does not trap: it loads with the bottom type, asserts null at the next bytecode, and leaves the bci at the current one |
| FieldAccessProps.PutOrdering | src/hotspot/share/opto/parse3.cpp:290-351 | a put's only access is its store; volatile puts have a leading release barrier and, unless IRIW support is on, a trailing full barrier; non-volatile puts have none |
| FieldAccessProps.PutAppends | src/hotspot/share/opto/parse3.cpp:290-351 | a put that does not trap keeps the path live, pops the value and appends exactly its events |
| FieldAccessProps.StoreOrdering | src/hotspot/share/opto/parse3.cpp:303-310 | a releasing store if and only if volatile or an object field; primitive stores are atomic if and only if volatile or all accesses are atomic |
| FieldAccessProps.FlattenableNullPutTraps | src/hotspot/share/opto/parse3.cpp:320-328 | a non-value type put into a flattenable field puts null in its place, traps on null check, stores nothing and records nothing |
| FieldAccessProps.NullPutShape | src/hotspot/share/opto/parse3.cpp:320-328 | a refused put's events hold no access and exactly the null-check trap |
| FieldAccessProps.ValueTypeHolderBypassesChecks | src/hotspot/share/opto/parse3.cpp:89-96 | a read from a value-type holder takes no check and no event, keeps flags and bci, and replaces the holder on top of the stack by the slots of the field value found at the field's offset in it |
| FieldAccessProps.KindMismatchTrapsFirst | src/hotspot/share/opto/parse3.cpp:98-104 | an instance bytecode on a static field, or the reverse, traps as unhandled, unless it is an instance access on a value-type holder (parse3.cpp:88-95 comes first) |
| FieldAccessProps.UninitializedStaticTrapsSecond | src/hotspot/share/opto/parse3.cpp:106-113 | a static access to an uninitialized holder from a method not allowed to see it traps as uninitialized, before the call-site check |
| FieldAccessProps.CallSiteTargetPutTrapsThird | src/hotspot/share/opto/parse3.cpp:116-121 | a put to a call-site target that passed the first two checks traps as unhandled |
| FieldAccessProps.RefusedAccessEmitsOnlyTrap | src/hotspot/share/opto/parse3.cpp:98-121 | a refused access appends exactly one trap and leaves stack, flags and bci as they were |
| FieldAccessProps.AcceptedAccessTrapsOnlyOnNull | src/hotspot/share/opto/parse3.cpp:122-158 | an access no check refuses can only trap on a put's null check |
| FieldAccessProps.GetEmitsNoTrap | src/hotspot/share/opto/parse3.cpp:161-282 | a get emits no trap |
| FieldAccessProps.PutTrapsOnlyOnNull | src/hotspot/share/opto/parse3.cpp:284-384 | every trap a put emits is a null check |
| FieldAccessProps.InitializerNeverTrapsUninitialized | src/hotspot/share/opto/parse3.cpp:106-113 | the class initializer or a constructor of the holder or a subclass never takes the uninitialized trap |
| FieldAccessProps.StoppedAccessDidNotTouchMemory | src/hotspot/share/opto/parse3.cpp:98-158 | an access that ends with the path stopped emitted no load and no store |
| FieldAccessProps.InstanceGetStack | src/hotspot/share/opto/parse3.cpp:129-142 | a failed null check leaves everything in place; otherwise the receiver is replaced by the field's slots |
| FieldAccessProps.InstancePutStack | src/hotspot/share/opto/parse3.cpp:129-149 | when the receiver's null check stops the path, the stack is unchanged; otherwise the value is popped, the receiver is popped only if the put leaves the path live, and null replaces the value on a trapped put |
| FieldAccessProps.StaticPutKeepsFlags | src/hotspot/share/opto/parse3.cpp:355-383 | a static put, refused, trapped or emitted, leaves every bookkeeping flag as it was |
| FieldAccessProps.StaticAccessStack | src/hotspot/share/opto/parse3.cpp:150-158 | a static access checks no receiver: a get only pushes, a put only pops (or puts null in the value's place) |
| NewArray.DoNewarray | src/hotspot/share/opto/parse3.cpp:388-420 | the state after anewarray is NewArrayEffect |
| NewArray.DoNewarrayPrim | src/hotspot/share/opto/parse3.cpp:423-431 | the state after newarray is the allocation of the primitive array class |
| NewArray.UnloadedArrayTraps | src/hotspot/share/opto/parse3.cpp:399-404 | an unloaded array class traps naming the class, leaves the stack and allocates nothing |
| NewArray.UninitializedElementTraps | src/hotspot/share/opto/parse3.cpp:405-411 | an uninitialized value-type element class traps naming no class and allocates nothing |
| NewArray.AcceptedClassAllocates | src/hotspot/share/opto/parse3.cpp:399-419 | a loaded array class whose element is not an uninitialized value type takes neither trap: anewarray's effect is the allocation, and the path stays as live as it was |
| NewArray.AllocatesExactlyOnce | src/hotspot/share/opto/parse3.cpp:414-419 | the allocation kills dead locals, allocates exactly one array with the popped length, and replaces the length by it on the stack |
| NewArray.PrimitiveArrayNeverTraps | src/hotspot/share/opto/parse3.cpp:423-431 | newarray is anewarray of a loaded primitive array class and never stops the path |
| MultiArray.Limit | src/hotspot/share/opto/parse3.cpp:477 | the expansion limit is at most both the flag's value and 100, and equals one of them: the smaller of the two |
| MultiArray.ExpansionCount | src/hotspot/share/opto/parse3.cpp:477-490 | the heuristic loop returns the number of arrays the inline expansion needs, or 0 when a length is not a constant in 1..limit or the running count passes the limit |
| MultiArray.RunningCountIsNestCount | src/hotspot/share/opto/parse3.cpp:478-483 | the heuristic's running total over all levels equals the number of arrays of the nested allocation |
| MultiArray.NotExpandableAt | src/hotspot/share/opto/parse3.cpp:484-489 | a level that fails the test makes the count 0 |
| MultiArray.ZeroLengthDisqualifies | src/hotspot/share/opto/parse3.cpp:484 | a zero non-final length rules the expansion out |
| MultiArray.ExpandableCountsFit | src/hotspot/share/opto/parse3.cpp:477-486 | on an expandable path every fanout and running count lies between 1 and 100 |
| MultiArray.ExpandMultianewarray | src/hotspot/share/opto/parse3.cpp:435-454 | returns the node of its first allocation and appends exactly the recursive expansion |
| MultiArray.ExpandElement | src/hotspot/share/opto/parse3.cpp:446-451 | one loop iteration appends the sub-array's expansion and its store at its offset |
| MultiArray.ExpansionAllocs | src/hotspot/share/opto/parse3.cpp:435-454 | the expansion allocates exactly NestCount of the non-final lengths |
| MultiArray.ExpansionEvents | src/hotspot/share/opto/parse3.cpp:438-450 | the expansion is made only of allocations and unordered object stores |
| MultiArray.OuterArrayStoreAt | src/hotspot/share/opto/parse3.cpp:438-450 | the outer array of new k[c][...] receives exactly c stores; store i is at the offset of element i, and its value is an array that the expansion allocates, of the element class and with the second length |
| MultiArray.OuterArrayStoresOrdered | src/hotspot/share/opto/parse3.cpp:446-450 | for elements i < j, store i is at a lower offset and holds an array allocated earlier, so no two elements share a sub-array |
| MultiArray.ExpansionOuterStores | src/hotspot/share/opto/parse3.cpp:438-450 | the stores into the outer array are exactly the element stores, in element order |
| MultiArray.SubArraysOuterStores | src/hotspot/share/opto/parse3.cpp:446-450 | after n iterations the outer array has received the stores for elements 0 to n-1, in order, each holding the node of the allocation that begins that element's events |
| MultiArray.SubArraysAllocAt | src/hotspot/share/opto/parse3.cpp:447 | the events of element i begin with the allocation of its sub-array |
| MultiArray.SubArraysPrefix | src/hotspot/share/opto/parse3.cpp:446-451 | the events of fewer iterations are a strictly shorter prefix of the events of more |
| MultiArray.ExpansionTargets | src/hotspot/share/opto/parse3.cpp:446-450 | every store of an expansion is an array-slot store whose base is the result of an allocation event inside that same expansion |
| MultiArray.OffsetsIncrease | src/hotspot/share/opto/parse3.cpp:448 | element offsets are strictly increasing in the index |
| MultiArray.InlinedIffExpandable | src/hotspot/share/opto/parse3.cpp:494 | inline expansion is chosen if and only if there is one dimension or the non-final lengths pass the heuristic |
| MultiArray.InlinedLengthsConstant | src/hotspot/share/opto/parse3.cpp:440-441 | when the expansion is chosen, every non-final length is a non-negative constant, so the guarantee holds |
| MultiArray.PopLengths | src/hotspot/share/opto/parse3.cpp:469-472 | pops ndim lengths, the top of the stack into the last slot |
| MultiArray.FillDims | src/hotspot/share/opto/parse3.cpp:537-540 | stores length j into int element j of the dimensions array, in order |
| MultiArray.MultiNewArrayCall | src/hotspot/share/opto/parse3.cpp:510-548 | for rank 2 or more (rank 1 never gets here), ranks 2 to 5 call their own entry point with the lengths; higher ranks allocate and fill an int array and call the generic entry |
| MultiArray.ExpandInline | src/hotspot/share/opto/parse3.cpp:494-507 | the inline path appends the whole expansion and pushes its outer array, as InlineEffect says |
| MultiArray.CallAndCast | src/hotspot/share/opto/parse3.cpp:549-566 | the runtime path appends the call's events and pushes its result as a non-null exact array, sized when the first length has an int type, as CallEffect says |
| MultiArray.DoMultianewarray | src/hotspot/share/opto/parse3.cpp:456-571 | the state after multianewarray is MultiNewArrayEffect |
| MultiArrayProps.EffectParts | src/hotspot/share/opto/parse3.cpp:466-566 | multianewarray kills dead locals, then appends the allocation events; it pops the lengths, pushes one node, and changes nothing else |
| MultiArrayProps.DimsStoresAreStores | src/hotspot/share/opto/parse3.cpp:537-540 | filling the dimensions array makes no call and no allocation |
| MultiArrayProps.CallEventsShape | src/hotspot/share/opto/parse3.cpp:510-547 | a runtime allocation's only call is its last event, to the entry of its rank; above rank 5 it is preceded by the int array and its filling stores |
| MultiArrayProps.InlineIffHeuristic | src/hotspot/share/opto/parse3.cpp:494-527 | the allocation makes no runtime call if and only if one dimension or the heuristic accepts |
| MultiArrayProps.InlineAllocatesHeuristicCount | src/hotspot/share/opto/parse3.cpp:494-507 | the inline expansion allocates exactly the heuristic's count, first the outer array, and pushes it |
| MultiArrayProps.RuntimeCallByRank | src/hotspot/share/opto/parse3.cpp:510-566 | otherwise exactly one call, by rank, and its result is pushed as a non-null exact array, sized when the first length has an int type |
| MultiArrayProps.ZeroLengthForcesCall | src/hotspot/share/opto/parse3.cpp:484-494 | a constant zero non-final length forces the runtime call |
| MultiArrayProps.Rank3Example | src/hotspot/share/opto/parse3.cpp:477-507 | new T[2][3][n] needs 1 + 2 + 6 = 9 arrays and is expanded inline when the limit allows |
| MultiArrayProps.NonConstantRank2Calls | src/hotspot/share/opto/parse3.cpp:481-516 | a two-dimensional allocation with a non-constant first length calls the rank-2 entry |
| MultiArrayProps.StackDiscipline | src/hotspot/share/opto/parse3.cpp:466-566 | multianewarray pops its ndim lengths and pushes one array |

## Left out

- The type lattice: result types are abstract tags (`TypeTag`), and GVN,
  node construction, alias types and address computation are not modelled.
- `null_check` is an oracle: `None` means the check stopped the path. What
  it emits when it stops the path is not recorded.
- `make_constant_from_field`, `ValueTypeNode` queries, `Ideal_allocation`,
  `find_int_con` and `find_int_type` are oracles in `Env`.
- `dstore_rounding` is the node `Rounded(val)`.
- `null_assert` is the single event `AssertNull`. How it deoptimizes is not
  modelled, and neither is the replacement of the asserted value by null on
  the continuing path: the loaded node stays on the stack.
- The graph-kit primitives are the methods of `GraphKit.Parse`.
  graphKit.cpp is not part of this model. `insert_mem_bar`, `null_assert`,
  `kill_dead_locals`, `new_array`, `make_runtime_call` and `make_load` each
  append one event. `uncommon_trap` appends one event on a live path.
  `push`, `pop`, their two-slot forms, `set_bci` and the `null_check`
  oracle append none.
- `StoreNode::release_if_reference` is taken to release exactly object
  stores. memnode.hpp is not part of this model.
- obj_depth uses `field->type()->size()`, modelled as the slot count of the
  layout type.
- `make_slow_call_ex` (parse3.cpp:549) is not modelled. This is the
  exceptional exit of the runtime call, which a negative length takes.
  The model covers only the normal return of the call.
- `PreserveReexecuteState`/`inc_sp` are not modelled. They keep the
  lengths on the interpreter's stack for deoptimization.
- The runtime-call events record the lengths as arguments. They do not
  record the trailing NULL terminator of the length array.
- Logging, `PrintOpto` output and the `ASSERT` block are left out.
- The 32-bit arithmetic of the expansion heuristic is unbounded here.
  `MultiArray.ExpandableCountsFit` shows that whenever the expansion is
  chosen, every count stays at most 100. On the path that gives up, the
  loop stops at the first level that fails its test, so the outcome is the
  same.
- The comment at parse3.cpp:468 says the first dimension is on top of the
  stack. The loop at line 472 pops the top into the last slot, and the
  model follows the loop.
- `DoFieldAccess`, `DoPutXxx` (with the instance-access and null-put
  helpers) and `DoNewarray` require a live path (`!p.stopped`); the parser
  only lowers bytecodes on live paths. `DoGetXxx`, `DoNewarrayPrim` and
  `DoMultianewarray` carry no such requirement. `ndimensions <= rank` and the stack depth
  are guaranteed by the bytecode verifier and are stated as preconditions.
- MultiArray.OuterArrayStoreAt: states which allocation each element
  store holds for the outermost array only. For inner arrays the model
  states that every store goes into an array allocated in the same
  expansion (`MultiArray.ExpansionTargets`), but not which element of
  which inner array receives which sub-array.
