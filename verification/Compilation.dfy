// The compilation record, updated in place as the compiler goes along: the locations of operands,
// the usage counts of slots, the table of constants, the open blocks and the pages
// (kernel/wasm3/source/m3_compile.h:51-114; m3_compile.c:118-426, 533-904, 1014-1257, 1525-1810,
// 2164-2410).  Each method does what the function that specifies it says.
module Compilation {
  import opened WasmValues
  import opened WasmSemantics
  import opened Wrappers
  import opened ThreadedMachine
  import opened SlotAllocator
  import opened PlainCompile
  import opened PlainInvariants
  import opened ControlCompile
  import opened ControlOutcomes
  import opened FunctionFrame
  import opened CompileFunction
  import opened CompileSteps
  import opened PagedMachine
  import opened EmissionLog

  class Compilation {
    const wasmStack: array<nat>
    const m3Slots: array<nat>
    const constants: array<Word>
    const mutables: seq<bool>
    var stackIndex: nat
    var maxAllocatedSlotPlusOne: nat
    var regStackIndexPlusOne: nat
    var firstConstSlotIndex: nat
    var maxConstSlotIndex: nat
    var firstDynamicSlotIndex: nat
    var firstDynamicStackIndex: nat
    var scopes: seq<Scope>
    var code: Memory
    var used: seq<nat>
    var page: nat
    // What has been emitted so far, step by step, and what is still to be done.
    var log: seq<Emitted>
    ghost var duties: Duties

    // The indices are within the arrays.
    ghost predicate Fits()
      reads this
    {
      && wasmStack != m3Slots && wasmStack.Length == MAX_FUNCTION_STACK_HEIGHT
      && m3Slots.Length == MAX_FUNCTION_SLOTS && constants.Length == MAX_CONSTANT_TABLE_SIZE
      && stackIndex <= MAX_FUNCTION_STACK_HEIGHT && maxAllocatedSlotPlusOne <= MAX_FUNCTION_SLOTS
      && firstConstSlotIndex <= maxConstSlotIndex <= firstConstSlotIndex + MAX_CONSTANT_TABLE_SIZE
      && page < |used| && |scopes| > 0
    }

    // What the record says of where values are, and the code emitted besides.
    ghost function Where(): (a: Alloc)
      requires Fits()
      reads this, wasmStack, m3Slots, constants
    {
      Alloc(wasmStack[..stackIndex], m3Slots[..], maxAllocatedSlotPlusOne, regStackIndexPlusOne,
            constants[..maxConstSlotIndex - firstConstSlotIndex], firstConstSlotIndex, firstDynamicSlotIndex,
            firstDynamicStackIndex, mutables, scopes)
    }

    ghost function Value(): (o: Comp)
      requires Fits()
      reads this, wasmStack, m3Slots, constants
    {
      Comp(Where(), code, used, page)
    }

    ghost predicate Ready()
      reads this, wasmStack, m3Slots, constants
      ensures Ready() ==> Fits() && Formed(Value())
    {
      Fits() && Workable(Where()) && Recorded()
    }

    // And the same is left to be done.
    twostate predicate StillReady()
      reads this, wasmStack, m3Slots, constants
    {
      Ready() && duties == old(duties)
    }

    // The log tells what has been emitted, and what is still to be emitted will be possible.
    ghost predicate Recorded()
      reads this
    {
      && TapesOf(log) == Some(Tapes(code, used, page, duties.saved))
      && Linked(code, used, scopes, duties.reserved)
    }

    // A cleared record with an empty page.
    constructor (mutables: seq<bool>, typed: bool)
      ensures Fits() && fresh(wasmStack) && fresh(m3Slots) && fresh(constants)
      ensures Value() == Comp(Blank(mutables, typed), map[], [0], 0) && Recorded() && duties == Duties([], {})
    {
      wasmStack := new nat[MAX_FUNCTION_STACK_HEIGHT](_ => 0);
      m3Slots := new nat[MAX_FUNCTION_SLOTS](_ => 0);
      constants := new Word[MAX_CONSTANT_TABLE_SIZE](_ => 0);
      this.mutables := mutables;
      stackIndex, maxAllocatedSlotPlusOne, regStackIndexPlusOne := 0, 0, 0;
      firstConstSlotIndex, maxConstSlotIndex, firstDynamicSlotIndex, firstDynamicStackIndex := 0, 0, 0, 0;
      scopes := [Scope(FunctionBody, typed, 0, false, Pc(0, 0), [])];
      code, used, page, log, duties := map[], [0], 0, [], Duties([], {});
      new;
      assert m3Slots[..] == seq(MAX_FUNCTION_SLOTS, _ => 0);
    }

    // -------------------------------------------------------------------------------
    // Reading the record (source lines 118-205).

    predicate IsStackTopInRegister(below: nat)
      requires Fits()
      reads this, wasmStack
      ensures IsStackTopInRegister(below) == InRegister(Where(), below)
    {
      below < stackIndex && wasmStack[stackIndex - 1 - below] == REG0
    }

    function GetStackTopSlot(): (slot: nat)
      requires Fits()
      reads this, wasmStack
      ensures slot == TopSlot(Where())
    {
      if stackIndex == 0 then SLOT_UNUSED else wasmStack[stackIndex - 1]
    }

    function GetPC(): (pc: Pc)
      requires Fits()
      reads this
    {
      Pc(page, used[page])
    }

    // -------------------------------------------------------------------------------
    // Slots and operands (source lines 231-510).

    method EmitOp(op: Op)
      requires Fits() && Recorded() && Writable(code, used, op)
      modifies `code, `used, `log
      ensures Fits() && Recorded() && Value() == Emit(old(Value()), op)
    {
      hide TapesOf, Linked;
      LinkedWritten(code, used, scopes, duties.reserved, page, op);
      TapesNext(log, Written(op));
      code := code[GetPC() := op];
      used := used[page := used[page] + 1];
      log := log + [Written(op)];
    }

    method AllocateSlotsWithinRange(start: nat, end: nat) returns (result: Status, slot: nat)
      requires Fits() && end <= MAX_FUNCTION_SLOTS
      modifies `maxAllocatedSlotPlusOne, m3Slots
      ensures Fits() && result.Success? == AllocateWithin(old(Where()), start, end).Some?
      ensures result.Success? ==> AllocateWithin(old(Where()), start, end) == Some(Slotted(Where(), slot))
      ensures result.Failure? ==> Where() == old(Where())
    {
      hide TapesOf, Linked;
      ghost var a := Where();
      slot := start;
      while slot < end && m3Slots[slot] != 0
        invariant Fits() && Where() == a
        invariant FirstFree(a.slots, slot, end) == FirstFree(a.slots, start, end)
      {
        slot := slot + 1;
      }
      if slot >= end {
        return Failure, slot;
      }
      m3Slots[slot] := 1;
      maxAllocatedSlotPlusOne := Max(maxAllocatedSlotPlusOne, slot + 1);
      assert m3Slots[..] == a.slots[slot := 1];
      result := Success;
    }

    method AllocateSlots() returns (result: Status, slot: nat)
      requires Fits()
      modifies `maxAllocatedSlotPlusOne, m3Slots
      ensures Fits() && result.Success? == AllocateSlot(old(Where())).Some?
      ensures result.Success? ==> AllocateSlot(old(Where())) == Some(Slotted(Where(), slot))
    {
      hide TapesOf, Linked;
      slot :- AllocateSlotsWithinRange(firstDynamicSlotIndex, MAX_FUNCTION_SLOTS);
      result := Success;
    }

    method Push(location: nat) returns (result: Status)
      requires Fits()
      modifies `stackIndex, `regStackIndexPlusOne, wasmStack
      ensures result.Success? == PushAt(old(Where()), location).Some?
      ensures result.Success? ==> Fits() && PushAt(old(Where()), location) == Some(Where())
    {
      hide TapesOf, Linked;
      var index := stackIndex;
      stackIndex := stackIndex + 1;
      if index >= MAX_FUNCTION_STACK_HEIGHT {
        return Failure;
      }
      wasmStack[index] := location;
      if location == REG0 {
        regStackIndexPlusOne := index + 1;
      }
      assert wasmStack[..stackIndex] == old(wasmStack[..stackIndex]) + [location];
      result := Success;
    }

    method DeallocateSlot(slot: nat)
      requires Fits() && slot < m3Slots.Length
      modifies m3Slots
      ensures Fits() && Where() == old(Where()).(slots := Release(old(Where()).slots, slot))
    {
      hide TapesOf, Linked;
      ghost var a := Where();
      m3Slots[slot] := (m3Slots[slot] + 255) % 256;
      assert m3Slots[..] == Release(a.slots, slot);
    }

    method Pop() returns (result: Status)
      requires Ready()
      modifies `stackIndex, `regStackIndexPlusOne, m3Slots
      ensures result.Success? == PopTop(old(Where())).Some?
      ensures result.Success? ==> StillReady() && PopTop(old(Where())) == Some(Where())
    {
      hide TapesOf, Linked;
      ghost var a := Where();
      TopWorks(a);
      hide Workable;
      if stackIndex > scopes[0].init {
        stackIndex := stackIndex - 1;
        var slot := wasmStack[stackIndex];
        assert slot == a.stack[stackIndex] && wasmStack[..stackIndex] == a.stack[..stackIndex];
        if slot >= REG0 {
          regStackIndexPlusOne := 0;
        } else if slot >= firstDynamicSlotIndex {
          DeallocateSlot(slot);
        }
      } else if !scopes[0].polymorphic {
        return Failure;
      }
      PopWorks(a);
      result := Success;
    }

    // Down to where the block began.
    method UnwindBlockStack()
      requires Ready()
      modifies `stackIndex, `regStackIndexPlusOne, m3Slots
      ensures Ready() && UnwindTo(old(Where()), scopes[0].init) == Some(Where())
      ensures old(stackIndex) >= scopes[0].init ==> stackIndex == scopes[0].init
    {
      hide TapesOf, Linked;
      ghost var a := Where();
      while stackIndex > scopes[0].init
        invariant Ready() && UnwindTo(Where(), scopes[0].init) == UnwindTo(a, scopes[0].init)
        invariant old(stackIndex) >= scopes[0].init ==> stackIndex >= scopes[0].init
      {
        var _ := Pop();
      }
    }

    method PushRegister() returns (result: Status)
      requires Ready()
      modifies `stackIndex, `regStackIndexPlusOne, wasmStack
      ensures result.Success? == PushAt(old(Where()), REG0).Some?
      ensures result.Success? ==> StillReady() && PushAt(old(Where()), REG0) == Some(Where())
    {
      hide TapesOf, Linked;
      ghost var a := Where();
      :- Push(REG0);
      PushWorks(a, REG0);
      result := Success;
    }

    method PushAllocatedSlot() returns (result: Status, slot: nat)
      requires Fits()
      modifies `stackIndex, `regStackIndexPlusOne, `maxAllocatedSlotPlusOne, wasmStack, m3Slots
      ensures result.Success? == PushAllocated(old(Where())).Some?
      ensures result.Success? ==> Fits() && PushAllocated(old(Where())) == Some(Slotted(Where(), slot))
      ensures result.Success? && Workable(old(Where())) ==> Workable(Where())
    {
      hide TapesOf, Linked;
      ghost var a := Where();
      slot :- AllocateSlots();
      ghost var b := Where();
      :- Push(slot);
      if Workable(a) {
        AllocateWorks(a);
        PushWorks(b, slot);
      }
      result := Success;
    }

    method SetLocation(index: nat, location: nat)
      requires Fits() && index < wasmStack.Length
      modifies wasmStack
      ensures Fits()
      ensures var a := old(Where());
              Where() == a.(stack := if index < |a.stack| then a.stack[index := location] else a.stack)
    {
      hide TapesOf, Linked;
      ghost var a := Where();
      wasmStack[index] := location;
      assert wasmStack[..stackIndex] == if index < |a.stack| then a.stack[index := location] else a.stack;
    }

    // The operand in the register gets a slot.
    method FreeRegister() returns (result: Status, slot: nat)
      requires Ready() && regStackIndexPlusOne != 0
      modifies `regStackIndexPlusOne, `maxAllocatedSlotPlusOne, wasmStack, m3Slots
      ensures result.Success? == PreserveRegister(old(Where())).Some?
      ensures result.Success? ==> StillReady() && PreserveRegister(old(Where())) == Some(Out(Where(), [SetSlot(slot)]))
    {
      hide TapesOf, Linked;
      ghost var a := Where();
      TopWorks(a);
      PreserveWorks(a);
      hide Workable, AllocateSlot;
      var index := regStackIndexPlusOne - 1;
      regStackIndexPlusOne := 0;
      slot :- AllocateSlots();
      SetLocation(index, slot);
      result := Success;
    }

    method PreserveRegisterIfOccupied() returns (result: Status)
      requires Ready()
      modifies `regStackIndexPlusOne, `maxAllocatedSlotPlusOne, `code, `used, `log, wasmStack, m3Slots
      ensures result.Success? == PreserveRegister(old(Where())).Some?
      ensures result.Success? ==> StillReady() && Value() == EmitOut(old(Value()), PreserveRegister(old(Where())).value)
    {
      hide Workable, AllocateSlot, TapesOf, Linked;
      ghost var o := Value();
      if regStackIndexPlusOne != 0 {
        var slot :- FreeRegister();
        SinceFirst(o, SetSlot(slot), Where());
        EmitOp(Do(SetSlot(slot)));
      }
      result := Success;
    }

    method PreserveNonTopRegister() returns (result: Status)
      requires Ready()
      modifies `regStackIndexPlusOne, `maxAllocatedSlotPlusOne, `code, `used, `log, wasmStack, m3Slots
      ensures result.Success? == PreserveNonTop(old(Where())).Some?
      ensures result.Success? ==> StillReady() && Value() == EmitOut(old(Value()), PreserveNonTop(old(Where())).value)
    {
      hide TapesOf, Linked;
      if stackIndex > 0 && regStackIndexPlusOne != 0 && regStackIndexPlusOne != stackIndex {
        :- PreserveRegisterIfOccupied();
      }
      result := Success;
    }

    // A constant that is in the table already is used again.
    method PushConst(v: Word) returns (result: Status)
      requires Ready()
      modifies this, wasmStack, m3Slots, constants
      ensures result.Success? == PlainCompile.PushConst(old(Where()), v).Some?
      ensures result.Success? ==> StillReady()
      ensures result.Success? ==> Value() == EmitOut(old(Value()), PlainCompile.PushConst(old(Where()), v).value)
    {
      hide AllocateWithin, PushAllocated, TapesOf, Linked;
      ghost var a := Where();
      var i := FindConstant(v);
      if i < maxConstSlotIndex - firstConstSlotIndex {
        :- Push(firstConstSlotIndex + i);
        PushWorks(a, a.firstConst + i);
      } else {
        :- PushNewConst(v);
      }
      result := Success;
    }

    method FindConstant(v: Word) returns (i: nat)
      requires Ready()
      ensures i <= maxConstSlotIndex - firstConstSlotIndex == |Where().consts|
      ensures FindConst(Where().consts, v) == if i < |Where().consts| then Some(i) else None
    {
      hide TapesOf, Linked;
      ghost var a := Where();
      var numUsed := maxConstSlotIndex - firstConstSlotIndex;
      i := 0;
      while i < numUsed && !(m3Slots[firstConstSlotIndex + i] != 0 && constants[i] == Signed(v))
        invariant i <= numUsed && FindConst(a.consts[..i], v).None?
      {
        assert a.slots[a.firstConst + i] != 0 && a.consts[i] == constants[i];
        FindConstNone(a.consts, v, i);
        i := i + 1;
      }
      assert a.consts[..|a.consts|] == a.consts;
      if i < numUsed {
        FindConstAt(a.consts, v, i, |a.consts|);
      }
    }

    method PushNewConst(v: Word) returns (result: Status)
      requires Ready() && FindConst(Where().consts, v).None?
      modifies this, wasmStack, m3Slots, constants
      ensures result.Success? == PlainCompile.PushConst(old(Where()), v).Some?
      ensures result.Success? ==> StillReady()
      ensures result.Success? ==> Value() == EmitOut(old(Value()), PlainCompile.PushConst(old(Where()), v).value)
    {
      hide Workable, AllocateWithin, AllocateSlot, FindConst, PushAllocated, PushAt, TapesOf, Linked;
      ghost var o, a := Value(), Where();
      var slot;
      var spare;
      spare, slot := AllocateSlotsWithinRange(firstConstSlotIndex, firstDynamicSlotIndex);
      if spare.Failure? {
        slot :- PushAllocatedSlot();
        SinceFirst(o, Const32(v, slot), Where());
        EmitOp(Do(Const32(v, slot)));
      } else {
        :- PushSpareConst(a, slot, v);
      }
      result := Success;
    }

    // In the next slot of the table.
    method PushSpareConst(ghost a: Alloc, slot: nat, v: Word) returns (result: Status)
      requires Fits() && Recorded() && Workable(a) && FindConst(a.consts, v).None?
      requires AllocateWithin(a, a.firstConst, a.firstDynamic) == Some(Slotted(Where(), slot))
      modifies this, wasmStack, m3Slots, constants
      ensures result.Success? == PlainCompile.PushConst(a, v).Some?
      ensures result.Success? ==> StillReady()
      ensures result.Success? ==> Value() == EmitOut(old(Value()), PlainCompile.PushConst(a, v).value)
    {
      hide Workable, AllocateWithin, AllocateSlot, FindConst, PushAllocated, PushAt, TapesOf, Linked;
      NextConst(a, v);
      SetConstant(slot, v);
      ghost var b := Where();
      :- Push(slot);
      PushWorks(b, slot);
      result := Success;
    }

    method SetConstant(slot: nat, v: Word)
      requires Fits() && slot == maxConstSlotIndex < firstConstSlotIndex + MAX_CONSTANT_TABLE_SIZE
      modifies `maxConstSlotIndex, constants
      ensures Fits() && Where() == old(Where()).(consts := old(Where()).consts + [v])
    {
      hide TapesOf, Linked;
      ghost var a := Where();
      constants[slot - firstConstSlotIndex] := v;
      maxConstSlotIndex := Max(slot + 1, maxConstSlotIndex);
      assert constants[..maxConstSlotIndex - firstConstSlotIndex] == a.consts + [v];
    }

    // -------------------------------------------------------------------------------
    // Locals (source lines 739-893, 1057-1105).

    lemma LocalsLow()
      requires Ready()
      ensures firstDynamicStackIndex <= firstDynamicSlotIndex && firstDynamicStackIndex <= stackIndex
      ensures forall i :: 0 <= i < firstDynamicStackIndex ==> wasmStack[i] < firstDynamicSlotIndex
    {
      assert forall i :: 0 <= i < firstDynamicStackIndex ==> wasmStack[i] == Where().stack[i];
    }

    // The operands from the start of the search on that are only references to the local get one
    // slot of their own.
    method FindReferencedLocalWithinCurrentBlock(local: nat) returns (result: Status, preserved: nat)
      requires Ready() && local < firstDynamicSlotIndex
      modifies `maxAllocatedSlotPlusOne, wasmStack, m3Slots
      ensures result.Success? == FindReferenced(old(Where()), local).Some?
      ensures result.Success? ==> StillReady()
      ensures result.Success? ==> FindReferenced(old(Where()), local) == Some(Slotted(Where(), preserved))
    {
      hide Workable, AllocateSlot, Uses, Copied, FindReferenced, TapesOf, Linked;
      ghost var a := Where();
      var start := StartOfSearch();
      preserved := local;
      if start > stackIndex {
        NothingToCopy(a, local);
        return Success, preserved;
      }
      CopiedStarts(a, start, local);
      var i := start;
      while i < stackIndex
        invariant Fits() && start <= i <= stackIndex == |a.stack| && firstDynamicSlotIndex == a.firstDynamic
        invariant Copied(a, start, local, i, Where(), preserved)
      {
        ghost var b := Where();
        CopiedPast(a, start, local, i, b, preserved);
        if wasmStack[i] == local {
          result, preserved := CopyReference(a, start, i, local, preserved);
          if result.Failure? {
            CopyFails(a, local, i + 1);
            return;
          }
        }
        i := i + 1;
      }
      CopiedAll(a, start, local, Where(), preserved);
      ReferencedWorks(a, local);
      result := Success;
    }

    // One operand that refers to the local.
    method CopyReference(ghost a: Alloc, ghost start: nat, i: nat, local: nat, preserved0: nat)
      returns (result: Status, preserved: nat)
      requires Fits() && start <= i < stackIndex == |a.stack| && wasmStack[i] == local < firstDynamicSlotIndex
      requires Copied(a, start, local, i, Where(), preserved0) && firstDynamicSlotIndex == a.firstDynamic
      modifies `maxAllocatedSlotPlusOne, wasmStack, m3Slots
      ensures Fits()
      ensures result.Success? ==> Copied(a, start, local, i + 1, Where(), preserved)
      ensures result.Failure? ==> var uses := Uses(a.stack[..i + 1], start, local);
                      uses > MAX_USAGE || (uses > 0 && AllocateSlot(a).None?)
    {
      hide Copied, Uses, AllocateSlot, TapesOf, Linked;
      ghost var b := Where();
      CopiedPast(a, start, local, i, b, preserved0);
      assert wasmStack[i] == b.stack[i];
      preserved := preserved0;
      if preserved == local {
        CopiedFirst(a, start, local, i, b);
        preserved :- AllocateSlots();
      } else {
        CopiedAgain(a, start, local, i, b, preserved);
        :- IncrementSlotUsageCount(preserved);
      }
      SetLocation(i, preserved);
      result := Success;
    }

    method IncrementSlotUsageCount(slot: nat) returns (result: Status)
      requires Fits() && slot < m3Slots.Length
      modifies m3Slots
      ensures Fits() && result.Success? == (old(Where()).slots[slot] < MAX_USAGE)
      ensures result.Success? ==> Where() == old(Where().(slots := Where().slots[slot := Where().slots[slot] + 1]))
      ensures result.Failure? ==> Where() == old(Where())
    {
      hide TapesOf, Linked;
      ghost var a := Where();
      if m3Slots[slot] >= MAX_USAGE {
        return Failure;
      }
      m3Slots[slot] := m3Slots[slot] + 1;
      assert m3Slots[..] == a.slots[slot := a.slots[slot] + 1];
      result := Success;
    }

    // Blocks share the search of the scope around them.
    method StartOfSearch() returns (start: nat)
      requires Fits()
      ensures start == SearchStart(scopes)
    {
      hide TapesOf, Linked;
      var k := 0;
      while scopes[k].opcode == BlockOp && k + 1 < |scopes|
        invariant k < |scopes| && SearchStart(scopes[k..]) == SearchStart(scopes)
      {
        assert scopes[k..][1..] == scopes[k + 1..];
        k := k + 1;
      }
      start := scopes[k].init;
    }

    method CopyTopSlot(dst: nat)
      requires Fits() && Recorded()
      modifies `code, `used, `log
      ensures Fits() && Recorded() && Value() == Emit(old(Value()), Do(CopyTop(old(Where()), dst)))
    {
      hide TapesOf, Linked;
      EmitOp(Do(if IsStackTopInRegister(0) then SetSlot(dst) else CopySlot(dst, GetStackTopSlot())));
    }

    method PreservedCopyTopSlot(dst: nat, preserve: nat)
      requires Fits() && Recorded()
      modifies `code, `used, `log
      ensures Fits() && Recorded() && Value() == Emit(old(Value()), Do(PreservedCopyTop(old(Where()), dst, preserve)))
    {
      hide TapesOf, Linked;
      EmitOp(Do(if IsStackTopInRegister(0) then PreserveSetSlot(dst, preserve)
                else PreserveCopySlot(dst, GetStackTopSlot(), preserve)));
    }

    method SetLocal(index: nat, tee: bool) returns (result: Status)
      requires Ready()
      modifies this, wasmStack, m3Slots, constants
      ensures var r := CompilePlain(old(Where()), if tee then LocalTee(index) else LocalSet(index));
              && result.Success? == r.Some?
              && (result.Success? ==> StillReady() && Value() == EmitOut(old(Value()), r.value))
    {
      hide TapesOf, Linked;
      LocalsLow();
      hide Workable, FindReferenced, PopTop;
      ghost var o, a := Value(), Where();
      if index >= firstDynamicStackIndex {
        return Failure;
      }
      var local := wasmStack[index];
      assert local == a.stack[index];
      var preserve :- FindReferencedLocalWithinCurrentBlock(local);
      ghost var b := Where();
      if preserve == local {
        CopyTopSlot(local);
      } else {
        PreservedCopyTopSlot(local, preserve);
      }
      ghost var op := if preserve == local then CopyTop(b, local) else PreservedCopyTop(b, local, preserve);
      SinceFirst(o, op, b);
      if !tee {
        ghost var p := Value();
        :- Pop();
        SinceMoved(o, [op], p, Where());
      }
      result := Success;
    }

    method GetLocal(index: nat) returns (result: Status)
      requires Ready()
      modifies this, wasmStack, m3Slots, constants
      ensures var r := CompilePlain(old(Where()), LocalGet(index));
              && result.Success? == r.Some?
              && (result.Success? ==> StillReady() && Value() == EmitOut(old(Value()), r.value))
    {
      hide TapesOf, Linked;
      ghost var a := Where();
      if index >= firstDynamicStackIndex {
        return Failure;
      }
      assert wasmStack[index] == a.stack[index];
      :- Push(wasmStack[index]);
      PushWorks(a, a.stack[index]);
      result := Success;
    }

    // -------------------------------------------------------------------------------
    // Instructions without control flow (source lines 918-926, 1108-1168, 1637-1810).

    method GetGlobal(global: nat) returns (result: Status)
      requires Ready()
      modifies this, wasmStack, m3Slots, constants
      ensures var r := CompilePlain(old(Where()), GlobalGet(global));
              && result.Success? == r.Some?
              && (result.Success? ==> StillReady() && Value() == EmitOut(old(Value()), r.value))
    {
      hide TapesOf, Linked;
      ghost var o := Value();
      if global >= |mutables| {
        return Failure;
      }
      var slot :- PushAllocatedSlot();
      SinceFirst(o, Straight.GetGlobal(global, slot), Where());
      EmitOp(Do(Straight.GetGlobal(global, slot)));
      result := Success;
    }

    method SetGlobal(global: nat) returns (result: Status)
      requires Ready()
      modifies this, wasmStack, m3Slots, constants
      ensures var r := CompilePlain(old(Where()), GlobalSet(global));
              && result.Success? == r.Some?
              && (result.Success? ==> StillReady() && Value() == EmitOut(old(Value()), r.value))
    {
      hide Workable, PopTop, TapesOf, Linked;
      ghost var o, a := Value(), Where();
      if global >= |mutables| || !mutables[global] {
        return Failure;
      }
      var op := if IsStackTopInRegister(0) then SetGlobalR(global) else SetGlobalS(global, GetStackTopSlot());
      EmitOp(Do(op));
      SinceFirst(o, op, a);
      ghost var p := Value();
      :- Pop();
      SinceMoved(o, [op], p, Where());
      result := Success;
    }

    method Drop() returns (result: Status)
      requires Ready()
      modifies this, wasmStack, m3Slots, constants
      ensures var r := CompilePlain(old(Where()), Plain.Drop);
              && result.Success? == r.Some?
              && (result.Success? ==> StillReady() && Value() == EmitOut(old(Value()), r.value))
    {
      hide TapesOf, Linked;
      result := Pop();
    }

    // The operand of an operator that takes one.
    method TakeOperand() returns (result: Status, x: One)
      requires Ready()
      modifies this, wasmStack, m3Slots, constants
      ensures result.Success? == TakeOne(old(Where())).Some?
      ensures result.Success? ==> StillReady() && TakeOne(old(Where())).value.operand == x
      ensures result.Success? ==> Value() == EmitOut(old(Value()), TakeOne(old(Where())).value.out)
    {
      hide TapesOf, Linked;
      ghost var o := Value();
      if IsStackTopInRegister(0) {
        x := R;
        :- Pop();
      } else {
        x := S(0);
        :- PreserveRegisterIfOccupied();
        ghost var p := Value();
        x := S(GetStackTopSlot());
        :- Pop();
        SinceMoved(o, PreserveRegister(o.a).value.ops, p, Where());
      }
      result := Success;
    }

    // The operands of an operator that takes two; no integer operator has both in the register.
    method TakeOperands() returns (result: Status, x: Two)
      requires Ready()
      modifies this, wasmStack, m3Slots, constants
      ensures result.Success? == TakeTwo(old(Where())).Some?
      ensures result.Success? ==> StillReady() && TakeTwo(old(Where())).value.operands == x
      ensures result.Success? ==> Value() == EmitOut(old(Value()), TakeTwo(old(Where())).value.out)
    {
      hide PreserveRegister, PopTop, Workable, TapesOf, Linked;
      ghost var o := Value();
      x := RS(0);
      if IsStackTopInRegister(0) {
        if IsStackTopInRegister(1) {
          return Failure, x;
        }
        :- Pop();
        x := RS(GetStackTopSlot());
        :- Pop();
      } else if IsStackTopInRegister(1) {
        x := SR(GetStackTopSlot());
        :- Pop();
        :- Pop();
      } else {
        :- PreserveRegisterIfOccupied();
        ghost var p := Value();
        var src := GetStackTopSlot();
        :- Pop();
        x := SS(src, GetStackTopSlot());
        :- Pop();
        SinceMoved(o, PreserveRegister(o.a).value.ops, p, Where());
      }
      result := Success;
    }

    // The operation itself, with its result in the register.
    method EmitResult(ghost o: Comp, ghost out: Out, op: Straight) returns (result: Status)
      requires Ready() && o.page < |o.used| && Value() == EmitOut(o, out)
      modifies `stackIndex, `regStackIndexPlusOne, `code, `used, `log, wasmStack
      ensures result.Success? == PushResult(out, op).Some?
      ensures result.Success? ==> StillReady() && Value() == EmitOut(o, PushResult(out, op).value)
    {
      hide TapesOf, Linked;
      ghost var p := Value();
      EmitOp(Do(op));
      :- PushRegister();
      SinceOne(o, out.ops, p, op, Where());
      result := Success;
    }

    method UnaryOperator(op: Unary) returns (result: Status)
      requires Ready()
      modifies this, wasmStack, m3Slots, constants
      ensures var r := CompilePlain(old(Where()), Unop(op));
              && result.Success? == r.Some?
              && (result.Success? ==> StillReady() && Value() == EmitOut(old(Value()), r.value))
    {
      hide TapesOf, Linked;
      ghost var o := Value();
      var x :- TakeOperand();
      :- EmitResult(o, TakeOne(o.a).value.out, UnaryOperation(op, x));
      result := Success;
    }

    method BinaryOperator(op: Binary) returns (result: Status)
      requires Ready()
      modifies this, wasmStack, m3Slots, constants
      ensures var r := CompilePlain(old(Where()), Binop(op));
              && result.Success? == r.Some?
              && (result.Success? ==> StillReady() && Value() == EmitOut(old(Value()), r.value))
    {
      hide TapesOf, Linked;
      ghost var o := Value();
      var x :- TakeOperands();
      :- EmitResult(o, TakeTwo(o.a).value.out, BinaryOperation(op, x));
      result := Success;
    }

    method LoadOperator(kind: Load, offset: Word) returns (result: Status)
      requires Ready()
      modifies this, wasmStack, m3Slots, constants
      ensures var r := CompilePlain(old(Where()), LoadOp(kind, offset));
              && result.Success? == r.Some?
              && (result.Success? ==> StillReady() && Value() == EmitOut(old(Value()), r.value))
    {
      hide TapesOf, Linked;
      ghost var o := Value();
      var x :- TakeOperand();
      :- EmitResult(o, TakeOne(o.a).value.out, LoadOperation(kind, offset, x));
      result := Success;
    }

    method StoreOperator(kind: Store, offset: Word) returns (result: Status)
      requires Ready()
      modifies this, wasmStack, m3Slots, constants
      ensures var r := CompilePlain(old(Where()), StoreOp(kind, offset));
              && result.Success? == r.Some?
              && (result.Success? ==> StillReady() && Value() == EmitOut(old(Value()), r.value))
    {
      hide TapesOf, Linked;
      ghost var o := Value();
      var x :- TakeOperands();
      ghost var p := Value();
      SinceOne(o, TakeTwo(o.a).value.out.ops, p, StoreOperation(kind, offset, x), Where());
      EmitOp(Do(StoreOperation(kind, offset, x)));
      result := Success;
    }

    // With all three operands in slots the register is left to what it holds.
    method SelectOperator() returns (result: Status)
      requires Ready()
      modifies this, wasmStack, m3Slots, constants
      ensures var r := CompilePlain(old(Where()), Select);
              && result.Success? == r.Some?
              && (result.Success? ==> StillReady() && Value() == EmitOut(old(Value()), r.value))
    {
      hide PreserveRegister, Workable, TakeThree, CompileSelect, PushResult, TapesOf, Linked;
      ghost var o := Value();
      if stackIndex < 2 {
        result := SelectNothing();
        return;
      }
      SelectTakes(o.a);
      ghost var ops := [];
      if !IsStackTopInRegister(0) && !IsStackTopInRegister(1) && !IsStackTopInRegister(2) {
        :- PreserveRegisterIfOccupied();
        ops := PreserveRegister(o.a).value.ops;
      }
      ghost var p := Value();
      var op :- TakeSelected();
      SinceMoved(o, ops, p, Where());
      :- EmitResult(o, Out(Where(), ops), op);
      result := Success;
    }

    method SelectNothing() returns (result: Status)
      requires Ready() && stackIndex < 2
      modifies this, wasmStack, m3Slots, constants
      ensures var r := CompilePlain(old(Where()), Select);
              && result.Success? == r.Some?
              && (result.Success? ==> StillReady() && Value() == EmitOut(old(Value()), r.value))
    {
      hide TapesOf, Linked;
      ghost var o := Value();
      if !scopes[0].polymorphic {
        return Failure;
      }
      :- EmitResult(o, Out(Where(), []), NoOperation);
      result := Success;
    }

    method TakeSelected() returns (result: Status, op: Straight)
      requires Ready()
      modifies `stackIndex, `regStackIndexPlusOne, m3Slots
      ensures result.Success? == TakeThree(old(Where())).Some?
      ensures result.Success? ==> StillReady() && TakeThree(old(Where())) == Some(ReadThree(Where(), op))
    {
      hide PopTop, Workable, TapesOf, Linked;
      op := NoOperation;
      var reg0, s0 := IsStackTopInRegister(0), GetStackTopSlot();
      :- Pop();
      var reg1, s1 := IsStackTopInRegister(0), GetStackTopSlot();
      :- Pop();
      op := SelectOperation(reg0, reg1, IsStackTopInRegister(0), s0, s1, GetStackTopSlot());
      :- Pop();
      result := Success;
    }

    method CompilePlainInstruction(p: Plain) returns (result: Status)
      requires Ready()
      modifies this, wasmStack, m3Slots, constants
      ensures var r := CompilePlain(old(Where()), p);
              && result.Success? == r.Some?
              && (result.Success? ==> StillReady() && Value() == EmitOut(old(Value()), r.value))
    {
      hide TapesOf, Linked;
      match p {
        case Const(v) => :- PushConst(v);
        case LocalGet(i) => :- GetLocal(i);
        case LocalSet(i) => :- SetLocal(i, false);
        case LocalTee(i) => :- SetLocal(i, true);
        case GlobalGet(g) => :- GetGlobal(g);
        case GlobalSet(g) => :- SetGlobal(g);
        case Drop => :- Drop();
        case Select => :- SelectOperator();
        case Unop(op) => :- UnaryOperator(op);
        case Binop(op) => :- BinaryOperator(op);
        case LoadOp(kind, offset) => :- LoadOperator(kind, offset);
        case StoreOp(kind, offset) => :- StoreOperator(kind, offset);
      }
      result := Success;
    }

    // -------------------------------------------------------------------------------
    // Blocks and branches (source lines 389-426, 683-735, 834-854, 1171-1257, 1525-1635, 2197-2265).

    method MoveStackTopToRegister() returns (result: Status)
      requires Ready()
      modifies this, wasmStack, m3Slots
      ensures result.Success? == MoveTopToRegister(old(Where())).Some?
      ensures result.Success? ==> StillReady()
      ensures result.Success? ==> Value() == EmitOut(old(Value()), MoveTopToRegister(old(Where())).value)
    {
      hide PreserveRegister, PopTop, Workable, TapesOf, Linked;
      ghost var o := Value();
      if !IsStackTopInRegister(0) {
        :- PreserveRegisterIfOccupied();
        ghost var p := Value();
        var slot := GetStackTopSlot();
        :- Pop();
        SinceMoved(o, PreserveRegister(o.a).value.ops, p, Where());
        :- EmitResult(o, Out(Where(), PreserveRegister(o.a).value.ops), SetRegister(slot));
      }
      result := Success;
    }

    // Gives operands that refer to locals slots of their own before a block.  The index of a local is
    // taken for its slot.
    method PreserveArgsAndLocals() returns (result: Status)
      requires Ready()
      modifies this, wasmStack, m3Slots
      ensures result.Success? == PreserveLocals(old(Where())).Some?
      ensures result.Success? ==> StillReady() && Value() == EmitOut(old(Value()), PreserveLocals(old(Where())).value)
    {
      hide Workable, FindReferenced, Preserving, Since, PreserveLocalsFrom, TapesOf, Linked;
      ghost var o := Value();
      if stackIndex > firstDynamicStackIndex {
        var i := 0;
        ghost var ops := [];
        SinceItself(o, o.a);
        PreservingStarts(o.a);
        while i < firstDynamicStackIndex
          invariant StillReady() && Since(o, ops, Value()) && Preserving(o.a, ops, Where(), i)
        {
          ops :- PreserveLocal(o, ops, i);
          i := i + 1;
        }
        PreservingEnds(o.a, ops, Where(), i);
        SinceMeans(o, ops, Value());
      }
      result := Success;
    }

    method PreserveLocal(ghost o: Comp, ghost ops0: seq<Straight>, i: nat)
      returns (result: Status, ghost ops: seq<Straight>)
      requires Ready() && i < firstDynamicStackIndex
      requires Since(o, ops0, Value()) && Preserving(o.a, ops0, Where(), i)
      modifies this, wasmStack, m3Slots
      ensures result.Failure? ==> PreserveLocalsFrom(o.a, 0).None?
      ensures result.Success? ==> StillReady() && Since(o, ops, Value()) && Preserving(o.a, ops, Where(), i + 1)
      ensures firstDynamicStackIndex == old(firstDynamicStackIndex)
    {
      hide Workable, FindReferenced, Preserving, Since, PreserveLocalsFrom, TapesOf, Linked;
      ghost var p := Value();
      LocalsLow();
      PreservingNext(o.a, ops0, p.a, i);
      ops := ops0;
      var preserved :- FindReferencedLocalWithinCurrentBlock(i);
      ghost var b := Where();
      SinceMoved(o, ops, p, b);
      if preserved != i {
        SinceOne(o, ops, p.(a := b), CopySlot(preserved, i), b);
        EmitOp(Do(CopySlot(preserved, i)));
        ops := ops + [CopySlot(preserved, i)];
      }
      assert ops0 + [] == ops0;
      result := Success;
    }

    // All pointers to the end of the innermost block get the next address.
    method PatchBranches() returns (didPatch: bool)
      requires Ready()
      modifies `code, `log, `scopes
      ensures Ready() && Value() == Aim(old(Value())) && didPatch == (old(scopes[0].patches) != [])
    {
      hide TapesOf, Linked;
      didPatch := scopes[0].patches != [];
      LinkedScope(code, used, scopes, duties.reserved, 0);
      FillIn(scopes[0].patches);
      LinkedScope(code, used, scopes, duties.reserved, 0);
      LinkedChanged(code, used, scopes, duties.reserved, 0, scopes[0].(patches := []));
      scopes := scopes[0 := scopes[0].(patches := [])];
    }

    method FillIn(locations: seq<Pc>)
      requires Fits() && Recorded() && forall loc :: loc in locations ==> Pointer(code, loc)
      modifies `code, `log
      ensures Fits() && Recorded() && code == PatchAll(old(code), locations, GetPC())
    {
      hide TapesOf, Linked;
      var pc, patches := GetPC(), locations;
      while patches != []
        invariant Fits() && Recorded() && forall loc :: loc in patches ==> Pointer(code, loc)
        invariant PatchAll(code, patches, pc) == PatchAll(old(code), locations, pc)
        decreases |patches|
      {
        FillInOne(patches[0], pc);
        patches := patches[1..];
      }
    }

    method FillInOne(place: Pc, target: Pc)
      requires Fits() && Recorded() && Pointer(code, place) && Within(used, target)
      modifies `code, `log
      ensures Fits() && Recorded() && code == Patch(old(code), place, target)
      ensures forall loc :: Pointer(old(code), loc) ==> Pointer(code, loc)
    {
      hide TapesOf, Linked;
      LinkedFilled(code, used, scopes, duties.reserved, place, target);
      TapesNext(log, FilledIn(place, target));
      code := Patch(code, place, target);
      log := log + [FilledIn(place, target)];
    }

    method ValidateBlockEnd() returns (result: Status)
      requires Ready()
      modifies this, wasmStack, m3Slots
      ensures result.Success? == ValidateEnd(old(Where())).Some?
      ensures result.Success? ==> StillReady() && Value() == EmitOut(old(Value()), ValidateEnd(old(Where())).value)
    {
      hide TapesOf, Linked;
      if scopes[0].typed {
        if scopes[0].polymorphic {
          UnwindBlockStack();
          :- PushRegister();
        } else if scopes[0].init != stackIndex {
          if stackIndex == scopes[0].init + 1 {
            :- MoveStackTopToRegister();
          } else {
            return Failure;
          }
        }
      } else {
        UnwindBlockStack();
      }
      result := Success;
    }

    method LeaveBlock() returns (result: Status)
      requires Ready() && |scopes| > 1
      modifies this, wasmStack, m3Slots
      ensures result.Success? == LeaveScope(old(Value())).Some?
      ensures result.Success? ==> StillReady() && Value() == LeaveScope(old(Value())).value
    {
      hide ValidateEnd, TapesOf, Linked;
      :- ValidateBlockEnd();
      var _ := PatchBranches();
      LinkedLeft(code, used, scopes, duties.reserved);
      scopes := scopes[1..];
      result := Success;
    }

    method EnterBlock(opcode: Opcode, typed: bool)
      requires Ready() && (opcode == LoopBody ==> Head(code, GetPC()))
      modifies `scopes
      ensures Ready() && Value() == EnterScope(old(Value()), opcode, typed)
    {
      hide TapesOf, Linked;
      LinkedEntered(code, used, scopes, duties.reserved,
                    Scope(opcode, typed, stackIndex, scopes[0].polymorphic, GetPC(), []));
      scopes := [Scope(opcode, typed, stackIndex, scopes[0].polymorphic, GetPC(), [])] + scopes;
    }

    method MarkBlockPolymorphic()
      requires Ready()
      modifies `scopes
      ensures Ready() && Where() == MarkPolymorphic(old(Where()))
    {
      hide TapesOf, Linked;
      LinkedScope(code, used, scopes, duties.reserved, 0);
      LinkedChanged(code, used, scopes, duties.reserved, 0, scopes[0].(polymorphic := true));
      scopes := scopes[0 := scopes[0].(polymorphic := true)];
    }

    // A branch whose target is filled in at the end of the block that many levels out.
    method EmitForwardBranch(depth: nat, op: Op)
      requires Ready() && depth < |scopes| && HasTarget(op) && Named(op) == {}
      modifies `code, `used, `log, `scopes
      ensures Ready() && Value() == EmitForward(old(Value()), depth, op)
    {
      hide Workable, TapesOf, Linked, HasTarget, Named, Writable;
      var location := GetPC();
      ForwardWritable(code, used, op);
      EmitOp(op);
      LinkedForward(code, used, scopes, duties.reserved, depth, location);
      PatchWorks(Where(), depth, [location] + scopes[depth].patches);
      scopes := scopes[depth := scopes[depth].(patches := [location] + scopes[depth].patches)];
    }

    method CompileBranch(depth: nat) returns (result: Status)
      requires Ready()
      modifies this, wasmStack, m3Slots
      ensures result.Success? == CompileBr(old(Value()), depth).Some?
      ensures result.Success? ==> StillReady() && Value() == CompileBr(old(Value()), depth).value
    {
      hide MoveTopToRegister, Workable, TapesOf, Linked;
      if depth >= |scopes| {
        return Failure;
      }
      var scope := scopes[depth];
      LinkedScope(code, used, scopes, duties.reserved, depth);
      if scope.opcode == LoopBody {
        MarkBlockPolymorphic();
        EmitOp(ContinueLoop(scope.pc));
      } else {
        if scope.typed && !scopes[0].polymorphic {
          :- MoveStackTopToRegister();
        }
        MarkBlockPolymorphic();
        EmitForwardBranch(depth, Jump(Open));
      }
      result := Success;
    }

    method CompileBranchIf(depth: nat) returns (result: Status)
      requires Ready()
      modifies this, wasmStack, m3Slots
      ensures result.Success? == CompileBrIf(old(Value()), depth).Some?
      ensures result.Success? ==> StillReady() && Value() == CompileBrIf(old(Value()), depth).value
    {
      hide MoveTopToRegister, Workable, PopTop, TapesOf, Linked;
      if depth >= |scopes| {
        return Failure;
      }
      var scope := scopes[depth];
      if scope.opcode == LoopBody {
        :- CompileContinueIf(depth);
      } else {
        var inRegister, condition := IsStackTopInRegister(0), GetStackTopSlot();
        :- Pop();
        var op :=
          if scope.typed && !IsStackTopInRegister(0) then
            if inRegister then BranchIfRS(GetStackTopSlot(), Open)
            else BranchIfSS(condition, GetStackTopSlot(), Open)
          else if inRegister then BranchIfR(Open) else BranchIfS(condition, Open);
        EmitForwardBranch(depth, op);
      }
      result := Success;
    }

    // Back to the start of a loop.
    method CompileContinueIf(depth: nat) returns (result: Status)
      requires Ready() && depth < |scopes| && scopes[depth].opcode == LoopBody
      modifies this, wasmStack, m3Slots
      ensures result.Success? == CompileBrIf(old(Value()), depth).Some?
      ensures result.Success? ==> StillReady() && Value() == CompileBrIf(old(Value()), depth).value
    {
      hide MoveTopToRegister, Workable, PopTop, TapesOf, Linked;
      ghost var o := Value();
      :- MoveStackTopToRegister();
      ghost var p := Value();
      :- Pop();
      SinceMoved(o, MoveTopToRegister(o.a).value.ops, p, Where());
      LinkedScope(code, used, scopes, duties.reserved, depth);
      EmitOp(ContinueLoopIf(scopes[depth].pc));
      result := Success;
    }

    method PrepareBlock() returns (result: Status)
      requires Ready()
      modifies this, wasmStack, m3Slots
      ensures result.Success? == Prepare(old(Value())).Some?
      ensures result.Success? ==> StillReady() && Value() == Prepare(old(Value())).value
    {
      hide PreserveRegister, PreserveLocals, Workable, TapesOf, Linked;
      :- PreserveRegisterIfOccupied();
      :- PreserveArgsAndLocals();
      result := Success;
    }

    // Up to the pointer to the other branch, whose place is returned.
    method StartIf() returns (result: Status, at: Pc)
      requires Ready()
      modifies this, wasmStack, m3Slots
      ensures result.Success? == EnterIf(old(Value())).Some?
      ensures result.Success? ==> StillReady() && Value() == EnterIf(old(Value())).value
      ensures result.Success? ==> used[page] > 0 && at == Pc(page, used[page] - 1) && Pointer(code, at)
    {
      hide PreserveNonTop, PreserveLocals, Workable, PopTop, TapesOf, Linked;
      at := GetPC();
      :- PreserveNonTopRegister();
      :- PreserveArgsAndLocals();
      at := GetPC();
      EmitOp(if IsStackTopInRegister(0) then IfR(Open) else IfS(GetStackTopSlot(), Open));
      :- Pop();
      result := Success;
    }

    method CompileStatements(statements: Code) returns (result: Status)
      requires Ready()
      modifies this, wasmStack, m3Slots, constants
      ensures result.Success? == CompileCode(old(Value()), statements).Some?
      ensures result.Success? ==> StillReady() && Value() == CompileCode(old(Value()), statements).value
      decreases statements, 0
    {
      hide CompileInstr, Workable, TapesOf, Linked;
      var rest := statements;
      while rest.Then?
        invariant rest == statements || rest < statements
        invariant StillReady() && CompileCode(Value(), rest) == CompileCode(old(Value()), statements)
        decreases rest
      {
        :- CompileInstruction(rest.head);
        rest := rest.rest;
      }
      result := Success;
    }

    method CompileWholeBlock(opcode: Opcode, typed: bool, body: Code) returns (result: Status)
      requires Ready() && (opcode == LoopBody ==> Head(code, GetPC()))
      modifies this, wasmStack, m3Slots, constants
      ensures result.Success? == CompileBlock(old(Value()), opcode, typed, body).Some?
      ensures result.Success? ==> StillReady() && Value() == CompileBlock(old(Value()), opcode, typed, body).value
      decreases body, 1
    {
      hide CompileCode, EnterScope, LeaveScope, Workable, TapesOf, Linked;
      EnterBlock(opcode, typed);
      :- CompileStatements(body);
      :- LeaveBlock();
      result := Success;
    }

    method CompileIfBlock(typed: bool, yes: Code, no: Option<Code>) returns (result: Status)
      requires Ready()
      modifies this, wasmStack, m3Slots, constants
      ensures result.Success? == CompileIf(old(Value()), typed, yes, no).Some?
      ensures result.Success? ==> StillReady() && Value() == CompileIf(old(Value()), typed, yes, no).value
      decreases If(typed, yes, no), 0
    {
      hide EnterIf, CompileBlock, CompileElse, Workable, Linked, TapesOf, Pointer, Head, Patch;
      var at :- StartIf();
      var height := stackIndex;
      :- CompileFirst(at, typed, yes);
      :- CompileOther(at, typed, height, no);
      result := Success;
    }

    // The pointer to the other branch stays reserved while the first one is compiled.
    method CompileFirst(at: Pc, typed: bool, yes: Code) returns (result: Status)
      requires Ready() && Pointer(code, at)
      modifies this, wasmStack, m3Slots, constants
      ensures result.Success? == CompileBlock(old(Value()), IfBody, typed, yes).Some?
      ensures result.Success? ==> StillReady() && Pointer(code, at)
      ensures result.Success? ==> Value() == CompileBlock(old(Value()), IfBody, typed, yes).value
      decreases yes, 2
    {
      hide CompileBlock, Workable, Linked, TapesOf, Pointer, Head;
      ghost var before := duties;
      Reserve(at);
      :- CompileWholeBlock(IfBody, typed, yes);
      Settle(at, before);
      result := Success;
    }

    // The pointer to the other branch leads past the first one if there is none.
    method CompileOther(at: Pc, typed: bool, height: nat, no: Option<Code>) returns (result: Status)
      requires Ready() && Pointer(code, at)
      modifies this, wasmStack, m3Slots, constants
      ensures result.Success? == (no.None? || CompileElse(old(Value()), at, typed, height, no.value).Some?)
      ensures result.Success? ==> StillReady()
      ensures result.Success? ==>
                var o := old(Value());
                Value() == if no.None? then o.(code := Patch(o.code, at, Here(o)))
                           else CompileElse(o, at, typed, height, no.value).value
      decreases no, 3
    {
      hide CompileElse, Workable, Linked, TapesOf, HasTarget, Patch;
      match no {
        case None => FillInOne(at, GetPC());
        case Some(other) => :- CompileElseBlock(at, typed, height, other);
      }
      result := Success;
    }

    ghost method Reserve(at: Pc)
      requires Ready() && Pointer(code, at)
      modifies `duties
      ensures Ready() && duties == old(duties).(reserved := old(duties).reserved + {at})
    {
      hide TapesOf, Linked;
      LinkedReserved(code, used, scopes, duties.reserved, at);
      duties := duties.(reserved := duties.reserved + {at});
    }

    ghost method Settle(at: Pc, before: Duties)
      requires Ready() && duties == before.(reserved := before.reserved + {at})
      modifies `duties
      ensures Ready() && duties == before && Pointer(code, at)
    {
      hide TapesOf, Linked;
      LinkedSettled(code, used, scopes, before.reserved, at);
      duties := before;
    }

    // The other branch has a page of its own, and comes back to where the first one ends.
    method CompileElseBlock(at: Pc, typed: bool, height: nat, other: Code) returns (result: Status)
      requires Ready() && Pointer(code, at)
      modifies this, wasmStack, m3Slots, constants
      ensures result.Success? == CompileElse(old(Value()), at, typed, height, other).Some?
      ensures result.Success? ==> StillReady()
      ensures result.Success? ==> Value() == CompileElse(old(Value()), at, typed, height, other).value
      decreases other, 2
    {
      hide CompileBlock, Workable, EnterElse, LeaveElse, TapesOf, Linked;
      var savedPage := page;
      :- StartElse(at, typed, height);
      :- CompileWholeBlock(ElseBody, typed, other);
      EndElse(savedPage);
      result := Success;
    }

    method StartElse(at: Pc, typed: bool, height: nat) returns (result: Status)
      requires Ready() && Pointer(code, at)
      modifies this, wasmStack, m3Slots
      ensures result.Success? == EnterElse(old(Value()), at, typed, height).Some?
      ensures result.Success? ==> Ready() && Value() == EnterElse(old(Value()), at, typed, height).value
      ensures result.Success? ==> duties == old(duties).(saved := old(duties).saved + [old(page)])
    {
      hide Workable, PopTop, Patch, TapesOf, Linked;
      if typed && stackIndex > height {
        :- Pop();
      }
      StartTape();
      FillInOne(at, GetPC());
      result := Success;
    }

    method StartTape()
      requires Ready()
      modifies `used, `page, `log, `duties
      ensures Ready() && used == old(used) + [0] && page == |old(used)|
      ensures duties == old(duties).(saved := old(duties).saved + [old(page)])
    {
      hide TapesOf, Linked;
      LinkedTape(code, used, scopes, duties.reserved);
      TapesNext(log, NewTape);
      duties := duties.(saved := duties.saved + [page]);
      used := used + [0];
      page := |used| - 1;
      log := log + [NewTape];
    }

    method EndElse(savedPage: nat)
      requires Ready() && savedPage < |used|
      requires |duties.saved| > 0 && duties.saved[|duties.saved| - 1] == savedPage
      modifies `code, `used, `page, `log, `duties
      ensures Ready() && Value() == LeaveElse(old(Value()), savedPage)
      ensures duties == old(duties).(saved := old(duties).saved[..|old(duties).saved| - 1])
    {
      hide TapesOf, Linked;
      EmitOp(Jump(To(Pc(savedPage, used[savedPage]))));
      TapesNext(log, BackTo(savedPage));
      duties := duties.(saved := duties.saved[..|duties.saved| - 1]);
      page := savedPage;
      log := log + [BackTo(savedPage)];
    }

    method CompileInstruction(i: Instr) returns (result: Status)
      requires Ready()
      modifies this, wasmStack, m3Slots, constants
      ensures result.Success? == CompileInstr(old(Value()), i).Some?
      ensures result.Success? ==> StillReady() && Value() == CompileInstr(old(Value()), i).value
      decreases i, 1
    {
      hide CompilePlain, Prepare, CompileBlock, CompileIf, CompileBr, CompileBrIf, Workable, TapesOf, Linked;
      match i {
        case Basic(p) => :- CompilePlainInstruction(p);
        case Block(typed, body) =>
          :- PrepareBlock();
          :- CompileWholeBlock(BlockOp, typed, body);
        case Loop(typed, body) =>
          :- PrepareBlock();
          EmitOp(LoopOp);
          :- CompileWholeBlock(LoopBody, typed, body);
        case If(typed, yes, no) => :- CompileIfBlock(typed, yes, no);
        case Br(depth) => :- CompileBranch(depth);
        case BrIf(depth) => :- CompileBranchIf(depth);
      }
      result := Success;
    }

    // -------------------------------------------------------------------------------
    // Whole functions (source lines 346-358, 834-854, 1014-1053, 2269-2410).

    method ReturnStackTop() returns (result: Status)
      requires Ready()
      modifies `code, `used, `log
      ensures result.Success? == ReturnTop(old(Where())).Some?
      ensures result.Success? ==> StillReady() && Value() == EmitAll(old(Value()), ReturnTop(old(Where())).value)
    {
      hide TapesOf, Linked;
      if stackIndex > 0 {
        if GetStackTopSlot() != 0 {
          SinceFirst(Value(), CopyTop(Where(), 0), Where());
          CopyTopSlot(0);
        }
      } else if !scopes[0].polymorphic {
        return Failure;
      }
      result := Success;
    }

    method CompileEnd() returns (result: Status)
      requires Ready() && |scopes| == 1
      modifies this, wasmStack, m3Slots
      ensures result.Success? == Finish(old(Value())).Some?
      ensures result.Success? ==> Fits() && Recorded() && duties == old(duties)
      ensures result.Success? ==> code == Finish(old(Value())).value.code
      ensures result.Success? ==> Where().consts == old(Where().consts)
      ensures result.Success? ==> firstConstSlotIndex == old(firstConstSlotIndex)
    {
      hide Workable, EmitAll, Aim, TapesOf, Linked;
      var typed := scopes[0].typed;
      :- ReturnNormally();
      ghost var o := Value();
      BottomStart();
      UnwindBlockStack();
      if typed {
        :- ReturnBranched(o);
      }
      result := Success;
    }

    // The block of the function begins above its locals.
    lemma BottomStart()
      requires Ready() && |scopes| == 1
      ensures scopes[0].init <= stackIndex
    {
    }

    method ReturnNormally() returns (result: Status)
      requires Ready() && |scopes| == 1
      modifies `code, `used, `log, `scopes
      ensures result.Success? == FinalOps(old(Where())).Some?
      ensures result.Success? ==> StillReady() && |scopes| == 1 && scopes[0].typed == old(scopes[0].typed)
      ensures result.Success? && !scopes[0].typed ==> scopes[0].patches == []
      ensures result.Success? ==>
                var o := old(Value());
                Value() == Emit(EmitAll(if Together(o.a) then Aim(o) else o, FinalOps(o.a).value), Return)
    {
      hide Workable, TapesOf, Linked;
      if !scopes[0].typed || IsStackTopInRegister(0) {
        var _ := PatchBranches();
      }
      if scopes[0].typed {
        :- ReturnStackTop();
      }
      EmitOp(Return);
      result := Success;
    }

    // Branches to the end of the function that have not been patched yet.
    method ReturnBranched(ghost o: Comp) returns (result: Status)
      requires Ready() && |scopes| == 1 && stackIndex == scopes[0].init && Value() == o.(a := Where())
      requires o.a.scopes == scopes && Formed(o)
      modifies this, wasmStack, m3Slots
      ensures result.Success? == (o.a.scopes[0].patches == [] || o.a.scopes[0].init < MAX_FUNCTION_STACK_HEIGHT)
      ensures result.Success? ==> Fits() && Recorded() && duties == old(duties)
      ensures result.Success? ==> Where().consts == old(Where().consts)
      ensures result.Success? ==> firstConstSlotIndex == old(firstConstSlotIndex)
      ensures result.Success? ==>
                code == if o.a.scopes[0].patches == [] then o.code
                        else Emit(Emit(Aim(o), Do(SetSlot(0))), Return).code
    {
      hide Workable, Linked, TapesOf;
      var didPatch := PatchBranches();
      if didPatch {
        :- ReturnRegister();
      }
      result := Success;
    }

    method ReturnRegister() returns (result: Status)
      requires Ready() && stackIndex == scopes[0].init
      modifies this, wasmStack, m3Slots
      ensures result.Success? == (old(stackIndex) < MAX_FUNCTION_STACK_HEIGHT)
      ensures result.Success? ==> Fits() && Recorded() && duties == old(duties)
      ensures result.Success? ==> Where().consts == old(Where().consts)
      ensures result.Success? ==> firstConstSlotIndex == old(firstConstSlotIndex)
      ensures result.Success? ==> code == Emit(Emit(old(Value()), Do(SetSlot(0))), Return).code
    {
      hide Workable, Linked, TapesOf;
      :- PushRegister();
      SinceFirst(Value(), SetSlot(0), Where());
      var _ := ReturnStackTop();
      EmitOp(Return);
      result := Success;
    }

    method PushParameters(params: nat) returns (result: Status)
      requires Fits()
      modifies `stackIndex, `regStackIndexPlusOne, `maxAllocatedSlotPlusOne, `firstDynamicSlotIndex, wasmStack, m3Slots
      ensures result.Success? == PushParams(old(Where()), params, 0).Some?
      ensures result.Success? ==> Fits() && PushParams(old(Where()), params, 0) == Some(Where())
    {
      hide PushAllocated, TapesOf, Linked;
      var i := 0;
      while i < params
        invariant i <= params && Fits()
        invariant PushParams(Where(), params, i) == PushParams(old(Where()), params, 0)
      {
        var slot :- PushAllocatedSlot();
        firstDynamicSlotIndex := firstDynamicSlotIndex + if i < params - 1 then 2 else 1;
        i := i + 1;
      }
      result := Success;
    }

    method CompileLocals(locals: nat) returns (result: Status)
      requires Fits()
      modifies `stackIndex, `regStackIndexPlusOne, `maxAllocatedSlotPlusOne, wasmStack, m3Slots
      ensures result.Success? == PushLocals(old(Where()), locals).Some?
      ensures result.Success? ==> Fits() && PushLocals(old(Where()), locals) == Some(Where())
    {
      hide PushAllocated, TapesOf, Linked;
      var n := locals;
      while n > 0
        invariant Fits() && PushLocals(Where(), n) == PushLocals(old(Where()), locals)
      {
        var slot :- PushAllocatedSlot();
        n := n - 1;
      }
      result := Success;
    }

    method GetMaxUsedSlotPlusOne() returns (top: nat)
      requires Fits()
      modifies `maxAllocatedSlotPlusOne
      ensures Fits() && top == UsedSlots(old(Where())) && Where() == old(Where()).(maxAllocated := top)
    {
      hide TapesOf, Linked;
      ghost var a := Where();
      while maxAllocatedSlotPlusOne > firstDynamicSlotIndex && m3Slots[maxAllocatedSlotPlusOne - 1] == 0
        invariant Fits() && Where() == a.(maxAllocated := maxAllocatedSlotPlusOne)
        invariant UsedSlots(Where()) == UsedSlots(a)
      {
        assert a.slots[maxAllocatedSlotPlusOne - 1] == 0;
        maxAllocatedSlotPlusOne := maxAllocatedSlotPlusOne - 1;
      }
      top := maxAllocatedSlotPlusOne;
      assert top > firstDynamicSlotIndex ==> a.slots[top - 1] != 0;
    }

    // Parameters, locals and room for constants.
    method SetUpFrame(fn: Function, estimate: nat) returns (result: Status)
      requires Fits() && Recorded() && Value() == Comp(Blank(mutables, fn.typed), map[], [0], 0)
      modifies this, wasmStack, m3Slots
      ensures result.Success? == SetUp(fn, mutables, estimate).Some?
      ensures result.Success? ==> StillReady() && Some(Where()) == SetUp(fn, mutables, estimate)
      ensures result.Success? ==> Value() == Comp(Where(), map[], [0], 0)
    {
      hide PushParams, PushLocals, UsedSlots, Workable, Sound, TapesOf, Linked;
      :- PushParameters(fn.params);
      :- CompileLocals(fn.locals);
      :- ReserveConstants(estimate);
      SetUpSound(fn, mutables, estimate);
      SoundWorks(Where());
      result := Success;
    }

    // The operands of the body begin after the locals, and their slots after those for constants.
    method ReserveConstants(estimate: nat) returns (result: Status)
      requires Fits() && Recorded() && |scopes| == 1 && firstConstSlotIndex == maxConstSlotIndex
      modifies `firstConstSlotIndex, `maxConstSlotIndex, `firstDynamicSlotIndex, `maxAllocatedSlotPlusOne,
               `firstDynamicStackIndex, `scopes
      ensures var a := old(Where());
              var first := UsedSlots(a) + Min(estimate, MAX_CONSTANT_TABLE_SIZE);
              && result.Success? == (first < MAX_FUNCTION_SLOTS)
              && (result.Success? ==>
                    && Fits()
                    && Where() == a.(firstConst := UsedSlots(a), firstDynamic := first, maxAllocated := first,
                                     numLocals := |a.stack|, scopes := [a.scopes[0].(init := |a.stack|)]))
      ensures result.Success? ==> Recorded()
    {
      hide UsedSlots, TapesOf, Linked;
      var maxSlot := GetMaxUsedSlotPlusOne();
      firstConstSlotIndex, maxConstSlotIndex := maxSlot, maxSlot;
      firstDynamicSlotIndex := maxSlot + Min(estimate, MAX_CONSTANT_TABLE_SIZE);
      if firstDynamicSlotIndex >= MAX_FUNCTION_SLOTS {
        return Failure;
      }
      maxAllocatedSlotPlusOne := firstDynamicSlotIndex;
      firstDynamicStackIndex := stackIndex;
      assert scopes == [scopes[0]];
      LinkedBegun(code, used, scopes[0], duties.reserved, stackIndex);
      scopes := [scopes[0].(init := stackIndex)];
      result := Success;
    }
  }

  // The steps in which the code was emitted.
  predicate Makes(log: seq<Emitted>, code: Memory) {
    TapesOf(log).Some? && TapesOf(log).value.code == code && TapesOf(log).value.saved == []
  }

  // A function is compiled with a cleared record.
  method CompileOne(fn: Function, mutables: seq<bool>, estimate: nat) returns (r: Option<Compiled>, log: seq<Emitted>)
    ensures r == Compile(fn, mutables, estimate)
    ensures r.Some? ==> Makes(log, r.value.final.code)
  {
    hide SetUp, CompileCode, Finish, Workable, Linked, TapesOf;
    var o := new Compilation(mutables, fn.typed);
    var result := o.SetUpFrame(fn, estimate);
    if result.Failure? {
      return None, [];
    }
    SetUpSound(fn, mutables, estimate);
    var firstConst := o.firstConstSlotIndex;
    result := o.CompileStatements(fn.body);
    if result.Failure? {
      return None, [];
    }
    result := o.CompileEnd();
    if result.Failure? {
      return None, [];
    }
    r := Some(Compiled(Final(o.code, o.constants[..o.maxConstSlotIndex - o.firstConstSlotIndex]), firstConst));
    log := o.log;
  }
}
