// Where the compiler keeps each WebAssembly operand: a slot with a usage count, a constant slot,
// the slot of a local, or the register (kernel/wasm3/source/m3_compile.c:231-510).
module SlotAllocator {
  import opened WasmValues
  import opened Wrappers
  import opened ThreadedMachine

  const MAX_FUNCTION_STACK_HEIGHT := 2000
  const REG0: nat := 30000
  const SLOT_UNUSED: nat := 0xFFFF
  const MAX_USAGE := 0xFF

  datatype Opcode = FunctionBody | BlockOp | LoopBody | IfBody | ElseBody

  // A block being compiled; patches are the places of the pointers to its end.
  datatype Scope = Scope(opcode: Opcode, typed: bool, init: nat, polymorphic: bool, pc: Pc, patches: seq<Pc>)

  // The part of the compilation state that says where values are.  scopes[0] is the innermost.
  datatype Alloc = Alloc(
    stack: seq<nat>, slots: seq<nat>, maxAllocated: nat, regIndexPlusOne: nat,
    consts: seq<Word>, firstConst: nat, firstDynamic: nat, numLocals: nat,
    mutables: seq<bool>, scopes: seq<Scope>)

  datatype Slotted = Slotted(alloc: Alloc, slot: nat)

  // A new allocation and the operations emitted on the way to it.
  datatype Out = Out(alloc: Alloc, ops: seq<Straight>)

  // ---------------------------------------------------------------------------------
  // What always holds.

  predicate Place(a: Alloc, loc: nat) {
    loc == REG0 || loc < a.firstConst + |a.consts| || a.firstDynamic <= loc < MAX_FUNCTION_SLOTS
  }

  // Locals have slots of their own, and every operand has a legal place.
  predicate Placed(a: Alloc) {
    && a.numLocals <= |a.stack| <= MAX_FUNCTION_STACK_HEIGHT && a.numLocals <= a.firstConst
    && (forall i :: 0 <= i < a.numLocals ==> a.stack[i] < a.firstConst)
    && (forall i, j :: 0 <= i < j < a.numLocals ==> a.stack[i] != a.stack[j])
    && (forall i :: 0 <= i < |a.stack| ==> Place(a, a.stack[i]))
  }

  // The usage count of a dynamic slot is the number of operands kept in it.
  predicate Counted(a: Alloc) {
    && |a.slots| == MAX_FUNCTION_SLOTS
    && (forall c :: a.firstDynamic <= c < MAX_FUNCTION_SLOTS ==> a.slots[c] == multiset(a.stack)[c] <= MAX_USAGE)
  }

  // Constants fill their slots from the first one on.
  predicate Pooled(a: Alloc) {
    && a.firstConst <= a.firstDynamic < MAX_FUNCTION_SLOTS && |a.slots| == MAX_FUNCTION_SLOTS
    && a.firstConst + |a.consts| <= a.firstDynamic
    && (forall c :: a.firstConst <= c < a.firstDynamic ==> (a.slots[c] == 0 <==> a.firstConst + |a.consts| <= c))
  }

  // The register is taken by an operand of the block being compiled.
  predicate Registered(a: Alloc) {
    && |a.scopes| > 0 && a.numLocals <= a.scopes[0].init <= |a.stack|
    && (a.regIndexPlusOne != 0 ==>
        a.scopes[0].init < a.regIndexPlusOne <= |a.stack| && a.stack[a.regIndexPlusOne - 1] == REG0)
  }

  // No slot from maxAllocated on is in use.
  predicate Bounded(a: Alloc) {
    && |a.slots| == MAX_FUNCTION_SLOTS && a.firstDynamic <= a.maxAllocated <= MAX_FUNCTION_SLOTS
    && (forall c :: a.maxAllocated <= c < MAX_FUNCTION_SLOTS ==> a.slots[c] == 0)
  }

  predicate Valid(a: Alloc) {
    Placed(a) && Counted(a) && Pooled(a) && Registered(a) && Bounded(a)
  }

  // At most one operand is in the register, the one the compiler has noted.
  predicate OneInRegister(a: Alloc) {
    forall i :: 0 <= i < |a.stack| && a.stack[i] == REG0 ==> a.regIndexPlusOne == i + 1
  }

  // ---------------------------------------------------------------------------------
  // Reading the compile-time stack.

  predicate InRegister(a: Alloc, below: nat) {
    below < |a.stack| && a.stack[|a.stack| - 1 - below] == REG0
  }

  function TopSlot(a: Alloc): nat {
    if |a.stack| == 0 then SLOT_UNUSED else a.stack[|a.stack| - 1]
  }

  predicate Polymorphic(a: Alloc)
    requires |a.scopes| > 0
  {
    a.scopes[0].polymorphic
  }

  // What no step changes.
  predicate SameShape(a: Alloc, b: Alloc) {
    && |b.slots| == |a.slots| && b.scopes == a.scopes
    && b.firstConst == a.firstConst && b.firstDynamic == a.firstDynamic && b.numLocals == a.numLocals
  }

  // What the functions below rely on.
  predicate Shaped(a: Alloc) {
    |a.slots| == MAX_FUNCTION_SLOTS && |a.scopes| > 0 && a.firstConst <= a.firstDynamic <= MAX_FUNCTION_SLOTS
  }

  // ---------------------------------------------------------------------------------
  // Slots.

  function FirstFree(slots: seq<nat>, from: nat, to: nat): (r: Option<nat>)
    requires to <= |slots|
    ensures r.Some? ==> from <= r.value < to && slots[r.value] == 0
    ensures r.Some? ==> (forall c :: from <= c < r.value ==> slots[c] != 0)
    ensures r.None? ==> (forall c :: from <= c < to ==> slots[c] != 0)
    decreases if from < to then to - from else 0
  {
    if from >= to then None
    else if slots[from] == 0 then Some(from)
    else FirstFree(slots, from + 1, to)
  }

  function Max(a: nat, b: nat): nat {
    if a < b then b else a
  }

  function MarkAllocated(a: Alloc, slot: nat): Alloc
    requires slot < |a.slots|
  {
    a.(slots := a.slots[slot := 1], maxAllocated := Max(a.maxAllocated, slot + 1))
  }

  function AllocateWithin(a: Alloc, from: nat, to: nat): (r: Option<Slotted>)
    requires to <= |a.slots|
    ensures r.Some? ==> SameShape(a, r.value.alloc)
  {
    var slot :- FirstFree(a.slots, from, to);
    Some(Slotted(MarkAllocated(a, slot), slot))
  }

  function AllocateSlot(a: Alloc): (r: Option<Slotted>)
    requires |a.slots| == MAX_FUNCTION_SLOTS
    ensures r.Some? ==> SameShape(a, r.value.alloc)
  {
    AllocateWithin(a, a.firstDynamic, MAX_FUNCTION_SLOTS)
  }

  // Counts are bytes.
  function Release(slots: seq<nat>, slot: nat): seq<nat> {
    if slot < |slots| then slots[slot := (slots[slot] + 255) % 256] else slots
  }

  function MaxUsed(slots: seq<nat>, from: nat, bound: nat): (r: nat)
    requires from <= bound <= |slots|
    ensures from <= r <= bound
    ensures forall c :: r <= c < bound ==> slots[c] == 0
    ensures r == from || slots[r - 1] != 0
  {
    if bound == from || slots[bound - 1] != 0 then bound else MaxUsed(slots, from, bound - 1)
  }

  // ---------------------------------------------------------------------------------
  // The compile-time stack.

  function PushAt(a: Alloc, loc: nat): (r: Option<Alloc>)
    ensures r.Some? ==> SameShape(a, r.value)
  {
    if |a.stack| >= MAX_FUNCTION_STACK_HEIGHT then None
    else Some(a.(stack := a.stack + [loc],
                 regIndexPlusOne := if loc == REG0 then |a.stack| + 1 else a.regIndexPlusOne))
  }

  // At the bottom of its block a polymorphic stack has as many operands as it takes.
  function PopTop(a: Alloc): (r: Option<Alloc>)
    requires |a.scopes| > 0
    ensures r.Some? ==> SameShape(a, r.value)
  {
    if |a.stack| > a.scopes[0].init then
      var loc := a.stack[|a.stack| - 1];
      var a1 := a.(stack := a.stack[..|a.stack| - 1]);
      Some(if loc >= REG0 then a1.(regIndexPlusOne := 0)
           else if loc >= a.firstDynamic then a1.(slots := Release(a.slots, loc))
           else a1)
    else if Polymorphic(a) then Some(a) else None
  }

  function PushAllocated(a: Alloc): (r: Option<Slotted>)
    requires |a.slots| == MAX_FUNCTION_SLOTS
    ensures r.Some? ==> SameShape(a, r.value.alloc)
  {
    var s :- AllocateSlot(a);
    var a1 :- PushAt(s.alloc, s.slot);
    Some(Slotted(a1, s.slot))
  }

  // Moves what is in the register to a slot.
  function PreserveRegister(a: Alloc): (r: Option<Out>)
    requires |a.slots| == MAX_FUNCTION_SLOTS
    ensures r.Some? ==> SameShape(a, r.value.alloc)
  {
    if a.regIndexPlusOne == 0 then Some(Out(a, []))
    else
      var index := a.regIndexPlusOne - 1;
      var s :- AllocateSlot(a);
      Some(Out(s.alloc.(regIndexPlusOne := 0, stack := if index < |a.stack| then a.stack[index := s.slot] else a.stack),
               [SetSlot(s.slot)]))
  }

  // ---------------------------------------------------------------------------------
  // Each of these keeps the invariant.

  lemma ValidParts(a: Alloc)
    requires Valid(a)
    ensures Placed(a) && Counted(a) && Pooled(a) && Registered(a) && Bounded(a) && Shaped(a)
    ensures |a.scopes| > 0 && a.numLocals <= a.scopes[0].init <= |a.stack|
  {
  }

  // Every operand and every constant lies below the slot that the frame of a callee begins at
  // (source lines 346-358, 1346-1362): frames never overlap what is still needed.
  lemma BelowNextFrame(a: Alloc, i: nat)
    requires Valid(a) && i < |a.stack| && a.stack[i] != REG0
    ensures a.stack[i] < MaxUsed(a.slots, a.firstDynamic, a.maxAllocated)
    ensures a.firstConst + |a.consts| <= MaxUsed(a.slots, a.firstDynamic, a.maxAllocated)
  {
    var c, top := a.stack[i], MaxUsed(a.slots, a.firstDynamic, a.maxAllocated);
    assert Place(a, c);
    if c >= a.firstDynamic {
      assert c in multiset(a.stack);
      assert a.slots[c] == multiset(a.stack)[c] > 0;
    }
  }

  lemma FreeSlot(a: Alloc)
    requires Valid(a) && AllocateSlot(a).Some?
    ensures var c := AllocateSlot(a).value.slot;
            a.firstDynamic <= c < MAX_FUNCTION_SLOTS && a.slots[c] == 0 && c !in a.stack
  {
    var c := AllocateSlot(a).value.slot;
    assert multiset(a.stack)[c] == 0;
    assert c !in multiset(a.stack);
  }

  lemma PushKeeps(a: Alloc, loc: nat)
    requires Valid(a) && PushAt(a, loc).Some? && Place(a, loc)
    requires loc != REG0 ==> loc < a.firstDynamic
    ensures var b := PushAt(a, loc).value;
            Valid(b) && (OneInRegister(a) && (loc == REG0 ==> a.regIndexPlusOne == 0) ==> OneInRegister(b))
  {
    var b := PushAt(a, loc).value;
    assert b.stack[|a.stack|] == loc;
    assert multiset(b.stack) == multiset(a.stack) + multiset{loc};
  }

  lemma PopCounts(a: Alloc)
    requires Placed(a) && Counted(a) && |a.scopes| > 0 && |a.stack| > a.scopes[0].init
    ensures Counted(PopTop(a).value)
    ensures forall c :: 0 <= c < MAX_FUNCTION_SLOTS && (c < a.firstDynamic || a.slots[c] == 0) ==>
            PopTop(a).value.slots[c] == a.slots[c]
  {
    hide SameShape;
    var b := PopTop(a).value;
    var loc := a.stack[|a.stack| - 1];
    assert a.stack == b.stack + [loc];
    assert multiset(a.stack) == multiset(b.stack) + multiset{loc};
    assert Place(a, loc);
  }

  lemma PopPlaces(a: Alloc)
    requires Placed(a) && Pooled(a) && Registered(a) && |a.stack| > a.scopes[0].init
    ensures var b := PopTop(a).value;
            Placed(b) && Registered(b) && (OneInRegister(a) ==> OneInRegister(b))
  {
    var b := PopTop(a).value;
    var loc := a.stack[|a.stack| - 1];
    assert Place(a, loc);
    assert forall i :: 0 <= i < |b.stack| ==> b.stack[i] == a.stack[i];
    assert forall l :: Place(a, l) ==> Place(b, l);
    if OneInRegister(a) {
      forall i | 0 <= i < |b.stack| && b.stack[i] == REG0 ensures b.regIndexPlusOne == i + 1 {
        assert a.stack[i] == REG0;
      }
    }
  }

  lemma PopKeeps(a: Alloc)
    requires Valid(a) && PopTop(a).Some?
    ensures var b := PopTop(a).value;
            Valid(b) && (OneInRegister(a) ==> OneInRegister(b))
  {
    hide Placed, Counted, Registered, OneInRegister;
    ValidParts(a);
    if |a.stack| > a.scopes[0].init {
      PopCounts(a);
      PopPlaces(a);
    }
  }

  lemma PushAllocatedKeeps(a: Alloc)
    requires Valid(a) && PushAllocated(a).Some?
    ensures var b := PushAllocated(a).value.alloc;
            Valid(b) && (OneInRegister(a) ==> OneInRegister(b))
  {
    hide SameShape;
    FreeSlot(a);
    var c, b := PushAllocated(a).value.slot, PushAllocated(a).value.alloc;
    assert b.stack[|a.stack|] == c;
    assert multiset(b.stack) == multiset(a.stack) + multiset{c};
  }

  lemma PreserveCounts(a: Alloc)
    requires Valid(a) && PreserveRegister(a).Some? && a.regIndexPlusOne != 0
    ensures Counted(PreserveRegister(a).value.alloc)
  {
    FreeSlot(a);
    var index, c, b := a.regIndexPlusOne - 1, AllocateSlot(a).value.slot, PreserveRegister(a).value.alloc;
    assert b.stack == a.stack[index := c];
    assert multiset(b.stack) == multiset(a.stack) - multiset{REG0} + multiset{c};
  }

  lemma PreservePlaces(a: Alloc)
    requires Valid(a) && PreserveRegister(a).Some? && a.regIndexPlusOne != 0
    ensures var b := PreserveRegister(a).value.alloc;
            Placed(b) && Registered(b) && (OneInRegister(a) ==> OneInRegister(b))
  {
    hide Counted, Bounded;
    var index, c, b := a.regIndexPlusOne - 1, AllocateSlot(a).value.slot, PreserveRegister(a).value.alloc;
    assert a.stack[index] == REG0 && !(REG0 < a.firstConst);
    assert b.stack == a.stack[index := c];
    assert Place(b, c) && forall l :: Place(a, l) ==> Place(b, l);
  }

  lemma PreserveKeeps(a: Alloc)
    requires Valid(a) && PreserveRegister(a).Some?
    ensures var b := PreserveRegister(a).value.alloc;
            Valid(b) && b.regIndexPlusOne == 0 && (OneInRegister(a) ==> OneInRegister(b))
  {
    if a.regIndexPlusOne != 0 {
      PreserveCounts(a);
      PreservePlaces(a);
      hide Counted, Placed, Registered, OneInRegister;
    }
  }
}
