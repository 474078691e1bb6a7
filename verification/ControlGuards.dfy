// What code may do for the compiler to get it right.  Before a block it gives the operands that refer to
// locals slots of their own, but it looks for them under the indices of the locals and not under their
// slots (kernel/wasm3/source/m3_compile.c:1533-1553).  A reference that it misses does no harm as long as
// the local is not assigned to in the block.
module ControlGuards {
  import opened WasmSemantics
  import opened ThreadedMachine
  import opened SlotAllocator
  import opened PlainInvariants
  import opened ControlCompile

  // No operand refers to one of the first i slots.
  predicate NoneBelow(a: Alloc, i: nat) {
    forall k :: a.numLocals <= k < |a.stack| ==> a.stack[k] >= i
  }

  // No operand refers to a slot that is the index of a local.
  predicate NoReferences(a: Alloc) {
    NoneBelow(a, a.numLocals)
  }

  // Compiling the code never comes to an assignment to a local that an operand from outside the block
  // being compiled refers to.
  predicate Permits(o: Comp, code: Code)
    decreases code, 0
  {
    match code
    case End => true
    case Then(head, rest) =>
      && PermitsInstr(o, head)
      && (Formed(o) && CompileInstr(o, head).Some? ==> Permits(CompileInstr(o, head).value, rest))
  }

  predicate PermitsBlock(o: Comp, opcode: Opcode, typed: bool, body: Code)
    decreases body, 1
  {
    Formed(o) ==> Permits(EnterScope(o, opcode, typed), body)
  }

  // The other block of an if, after the first one.
  predicate PermitsElse(o: Comp, typed: bool, yes: Code, other: Code)
    decreases other, 2
  {
    Formed(o) && CompileBlock(o, IfBody, typed, yes).Some? ==>
      var q := CompileBlock(o, IfBody, typed, yes).value;
      var e := EnterElse(q, IfLine(o), typed, |o.a.stack|);
      e.Some? ==> PermitsBlock(e.value, ElseBody, typed, other)
  }

  predicate PermitsInstr(o: Comp, i: Instr)
    decreases i, 0
  {
    match i
    case Basic(p) => Shields(o.a, p)
    case Block(typed, body) => Formed(o) && Prepare(o).Some? ==> PermitsBlock(Prepare(o).value, BlockOp, typed, body)
    case Loop(typed, body) =>
      Formed(o) && Prepare(o).Some? ==> PermitsBlock(Emit(Prepare(o).value, LoopOp), LoopBody, typed, body)
    case If(typed, yes, no) =>
      Formed(o) && EnterIf(o).Some? ==>
        && PermitsBlock(EnterIf(o).value, IfBody, typed, yes)
        && (no.Some? ==> PermitsElse(EnterIf(o).value, typed, yes, no.value))
    case Br(_) => true
    case BrIf(_) => true
  }
}
