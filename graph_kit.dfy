/** The parser of one path: its operand stack, whether the path is stopped,
    the current bytecode index, the bookkeeping flags, and the trace of
    events emitted so far; with the primitive operations the lowering code
    uses (push, pop, peek, uncommon_trap, barrier insertion, loads, stores,
    allocations and runtime calls). */
module GraphKit {
  import opened ParseTypes

  class Parse {
    var stack: seq<Node>
    var stopped: bool
    var bci: int
    var wroteFields: bool
    var wroteVolatile: bool
    var wroteFinal: bool
    var wroteStable: bool
    var allocWithFinal: Option<Node>
    var trace: seq<Event>

    /** The method being compiled and the indices of the current and next bytecode. */
    const compiledMethod: MethodInfo
    const curBci: int
    const nextBci: int

    function Snapshot(): State
      reads this
    {
      State(stack, stopped, bci,
            Flags(wroteFields, wroteVolatile, wroteFinal, wroteStable, allocWithFinal),
            trace)
    }

    constructor (compiledMethod: MethodInfo, curBci: int, nextBci: int, stack: seq<Node>)
      ensures this.compiledMethod == compiledMethod && this.curBci == curBci && this.nextBci == nextBci
      ensures Snapshot() == State(stack, false, curBci, Flags(false, false, false, false, None), [])
    {
      this.compiledMethod := compiledMethod;
      this.curBci := curBci;
      this.nextBci := nextBci;
      this.stack := stack;
      stopped := false;
      bci := curBci;
      wroteFields, wroteVolatile, wroteFinal, wroteStable := false, false, false, false;
      allocWithFinal := None;
      trace := [];
    }

    method Push(n: Node)
      modifies this`stack
      ensures stack == old(stack) + [n]
    {
      stack := stack + [n];
    }

    /** Pushes a two-slot value: the value, then an empty high half. */
    method PushPair(n: Node)
      modifies this`stack
      ensures stack == old(stack) + [n, TopCon]
    {
      stack := stack + [n, TopCon];
    }

    /** Pushes one or two slots according to the width of bt. */
    method PushNode(bt: BasicType, n: Node)
      modifies this`stack
      ensures stack == old(stack) + Slots(bt, n)
    {
      if SlotCount(bt) == 1 {
        Push(n);
      } else {
        PushPair(n);
      }
    }

    method Pop() returns (n: Node)
      requires |stack| >= 1
      modifies this`stack
      ensures n == old(stack)[|old(stack)| - 1]
      ensures stack == Drop(old(stack), 1)
    {
      n := stack[|stack| - 1];
      stack := stack[..|stack| - 1];
    }

    /** Pops a two-slot value and returns its low slot. */
    method PopPair() returns (n: Node)
      requires |stack| >= 2
      modifies this`stack
      ensures n == old(stack)[|old(stack)| - 2]
      ensures stack == Drop(old(stack), 2)
    {
      n := stack[|stack| - 2];
      stack := stack[..|stack| - 2];
    }

    function Peek(depth: nat): Node
      reads this
      requires depth < |stack|
    {
      stack[|stack| - 1 - depth]
    }

    method SetBci(b: int)
      modifies this`bci
      ensures bci == b
    {
      bci := b;
    }

    /** Appends an event; a value it produces is Result(at). */
    method Emit(e: Event) returns (at: nat)
      modifies this`trace
      ensures at == |old(trace)|
      ensures trace == old(trace) + [e]
    {
      at := |trace|;
      trace := trace + [e];
    }

    /** Ends a live path with a trap; a stopped path is left as it is. */
    method UncommonTrap(reason: Reason, action: Action, klass: Option<ArrayKlass>, comment: string)
      modifies this`trace, this`stopped
      ensures stopped
      ensures trace == if old(stopped) then old(trace) else old(trace) + [Trap(reason, action, klass, comment)]
    {
      if !stopped {
        trace := trace + [Trap(reason, action, klass, comment)];
        stopped := true;
      }
    }

    method InsertMemBar(kind: BarKind)
      modifies this`trace
      ensures trace == old(trace) + [MemBar(kind)]
    {
      var _ := Emit(MemBar(kind));
    }

    /** Asserts at the current bci that value is null. */
    method NullAssert(value: Node)
      modifies this`trace
      ensures trace == old(trace) + [AssertNull(bci, value)]
    {
      var _ := Emit(AssertNull(bci, value));
    }

    method KillDeadLocals()
      modifies this`trace
      ensures trace == old(trace) + [DeadLocalsKilled]
    {
      var _ := Emit(DeadLocalsKilled);
    }

    /** Allocates an array; the result is the allocation's own node. */
    method NewArray(klass: ArrayKlass, length: Node, nargs: nat) returns (obj: Node)
      modifies this`trace
      ensures obj == Result(|old(trace)|)
      ensures trace == old(trace) + [Alloc(klass, length, nargs)]
    {
      var at := Emit(Alloc(klass, length, nargs));
      obj := Result(at);
    }

    /** A runtime call's normal return; the result is its return value. */
    method MakeRuntimeCall(entry: Entry, klass: ArrayKlass, args: seq<Node>) returns (res: Node)
      modifies this`trace
      ensures res == Result(|old(trace)|)
      ensures trace == old(trace) + [Call(entry, klass, args)]
    {
      var at := Emit(Call(entry, klass, args));
      res := Result(at);
    }

    /** Null-checks value through the oracle. When the oracle finds the value
        always null the path stops; the check's own nodes are not modelled. */
    method NullCheck(env: Env, value: Node) returns (obj: Node)
      modifies this`stopped
      ensures env.nullCheck(value).Some? ==> obj == env.nullCheck(value).value && stopped == old(stopped)
      ensures env.nullCheck(value).None? ==> obj == value && stopped
    {
      var checked := env.nullCheck(value);
      if checked.Some? {
        obj := checked.value;
      } else {
        obj := value;
        stopped := true;
      }
    }

    /** Emits an access that produces a value (a load). */
    method MakeLoad(e: Event) returns (ld: Node)
      modifies this`trace
      ensures ld == Result(|old(trace)|)
      ensures trace == old(trace) + [e]
    {
      var at := Emit(e);
      ld := Result(at);
    }
  }
}
