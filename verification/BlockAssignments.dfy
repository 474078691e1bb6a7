// Code that the compiler is sure to get right, told from the code alone: in blocks it assigns only to
// locals whose slots are indices of locals, so that the compiler finds the references to them
// (kernel/wasm3/source/m3_compile.c:1533-1553).
module BlockAssignments {
  import opened WasmSemantics
  import opened Wrappers
  import opened ThreadedMachine
  import opened SlotAllocator
  import opened PlainInvariants
  import opened ControlCompile
  import opened ControlGuards
  import opened ControlStructure

  // The slots of the locals.
  function Locals(a: Alloc): seq<nat> {
    if a.numLocals <= |a.stack| then a.stack[..a.numLocals] else []
  }

  // Code in the body of a function, or inside a block, that assigns within blocks only to locals whose
  // slots, given in `slots`, are indices of locals.
  predicate Apart(slots: seq<nat>, code: Code, inside: bool) {
    match code
    case End => true
    case Then(head, rest) => ApartInstr(slots, head, inside) && Apart(slots, rest, inside)
  }

  predicate ApartInstr(slots: seq<nat>, i: Instr, inside: bool) {
    match i
    case Basic(p) => inside && (p.LocalSet? || p.LocalTee?) && p.index < |slots| ==> slots[p.index] < |slots|
    case Block(_, body) => Apart(slots, body, true)
    case Loop(_, body) => Apart(slots, body, true)
    case If(_, yes, no) => Apart(slots, yes, true) && (no.Some? ==> Apart(slots, no.value, true))
    case Br(_) => true
    case BrIf(_) => true
  }

  predicate Inside(a: Alloc, inside: bool) {
    inside || (|a.scopes| > 0 && a.scopes[0].init == a.numLocals)
  }

  // Nothing that is compiled changes the slots of the locals or where the block began.
  lemma LocalsStay(o: Comp, p: Comp)
    requires Built(o) && Grew(o, p)
    ensures Locals(p.a) == Locals(o.a) && forall inside :: Inside(o.a, inside) ==> Inside(p.a, inside)
  {
    hide Placed, Counted, Pooled, Bounded, Patchable, Laid;
    var init, n := o.a.scopes[0].init, o.a.numLocals;
    assert ScopeGrew(o.code, o.a.scopes[0], p.a.scopes[0]);
    assert p.a.stack[..n] == p.a.stack[..init][..n] == o.a.stack[..init][..n] == o.a.stack[..n];
  }

  lemma ApartShields(a: Alloc, p: Plain, inside: bool)
    requires Sound(a) && ApartInstr(Locals(a), Basic(p), inside) && Inside(a, inside)
    ensures Shields(a, p)
  {
    hide Counted, Pooled, Bounded;
  }

  lemma {:induction false} ApartPermits(o: Comp, code: Code, inside: bool)
    requires Built(o) && Apart(Locals(o.a), code, inside) && Inside(o.a, inside)
    ensures Permits(o, code)
    decreases code, 0
  {
    hide Sound, Laid, Patchable, Grew, Locals, Inside, PermitsInstr, ApartInstr;
    match code
    case End =>
    case Then(head, rest) =>
      ApartPermitsInstr(o, head, inside);
      if Formed(o) && CompileInstr(o, head).Some? {
        InstrGrows(o, head);
        LocalsStay(o, CompileInstr(o, head).value);
        ApartPermits(CompileInstr(o, head).value, rest, inside);
      }
  }

  lemma {:induction false} ApartPermitsBlock(o: Comp, opcode: Opcode, typed: bool, body: Code)
    requires Built(o) && NoReferences(o.a) && o.a.regIndexPlusOne == 0 && Apart(Locals(o.a), body, true)
    ensures PermitsBlock(o, opcode, typed, body)
    decreases body, 1
  {
    hide Sound, Laid, Patchable, NoReferences, Permits, Apart;
    if Formed(o) {
      EnterBuilds(o, opcode, typed);
      ApartPermits(EnterScope(o, opcode, typed), body, true);
    }
  }

  lemma {:induction false} ApartPermitsInstr(o: Comp, i: Instr, inside: bool)
    requires Built(o) && ApartInstr(Locals(o.a), i, inside) && Inside(o.a, inside)
    ensures PermitsInstr(o, i)
    decreases i, 1
  {
    BuiltFormed(o);
    hide Sound, Laid, Patchable, Grew, Locals, Inside, Apart, PermitsBlock, NoReferences, Prepare, EnterIf, EnterElse;
    match i
    case Basic(p) => ApartShields(o.a, p, inside);
    case Block(typed, body) =>
      if Prepare(o).Some? {
        PrepareGrows(o);
        LocalsStay(o, Prepare(o).value);
        ApartPermitsBlock(Prepare(o).value, BlockOp, typed, body);
      }
    case Loop(typed, body) =>
      if Prepare(o).Some? {
        PrepareGrows(o);
        LocalsStay(o, Prepare(o).value);
        EmitGrows(Prepare(o).value, LoopOp);
        ApartPermitsBlock(Emit(Prepare(o).value, LoopOp), LoopBody, typed, body);
      }
    case If(typed, yes, no) =>
      if EnterIf(o).Some? {
        EnterIfGrows(o);
        LocalsStay(o, EnterIf(o).value);
        ApartPermitsBlock(EnterIf(o).value, IfBody, typed, yes);
        if no.Some? {
          ApartPermitsElse(o, EnterIf(o).value, typed, yes, no.value);
        }
      }
    case Br(_) =>
    case BrIf(_) =>
  }

  lemma {:induction false} ApartPermitsElse(o: Comp, o1: Comp, typed: bool, yes: Code, other: Code)
    requires Built(o) && Formed(o) && EnterIf(o) == Some(o1) && PermitsBlock(o1, IfBody, typed, yes)
    requires Apart(Locals(o.a), other, true)
    ensures PermitsElse(o1, typed, yes, other)
    decreases other, 2
  {
    hide *;
    EnterIfGrows(o);
    BuiltFormed(o1);
    if CompileBlock(o1, IfBody, typed, yes).Some? {
      var o2, at := CompileBlock(o1, IfBody, typed, yes).value, IfLine(o1);
      BlockGrows(o1, IfBody, typed, yes);
      BuiltFormed(o2);
      if EnterElse(o2, at, typed, |o1.a.stack|).Some? {
        var o3 := EnterElse(o2, at, typed, |o1.a.stack|).value;
        ReservedStays(o1, o2, at);
        ElseGrows(o, o1, o2, at, typed);
        LocalsStay(o, o3);
        ApartPermitsBlock(o3, ElseBody, typed, other);
      }
    }
    ElsePermitted(o1, typed, yes, other);
  }

  lemma ElsePermitted(o: Comp, typed: bool, yes: Code, other: Code)
    requires Formed(o) && (CompileBlock(o, IfBody, typed, yes).Some? ==>
               var q := CompileBlock(o, IfBody, typed, yes).value;
               var e := EnterElse(q, IfLine(o), typed, |o.a.stack|);
               e.Some? ==> PermitsBlock(e.value, ElseBody, typed, other))
    ensures PermitsElse(o, typed, yes, other)
  {
  }
}
