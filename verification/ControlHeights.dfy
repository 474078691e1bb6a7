// On reachable code the compiler's stack is as high as validation says
// (kernel/wasm3/source/m3_compile.c:428-510, 2200-2230).
module ControlHeights {
  import opened WasmSemantics
  import opened Wrappers
  import opened WasmValidation
  import opened ThreadedMachine
  import opened SlotAllocator
  import opened PlainCompile
  import opened PlainInvariants
  import opened ControlCompile
  import opened ControlGuards
  import opened ControlStructure

  predicate InContext(ctx: Context, a: Alloc) {
    && ctx.locals == a.numLocals && ctx.mutables == a.mutables && |ctx.labels| == |a.scopes|
    && forall j :: 0 <= j < |a.scopes| ==> ctx.labels[j] == (a.scopes[j].typed && a.scopes[j].opcode != LoopBody)
  }

  predicate Tracks(a: Alloc, c: Check) {
    && |a.scopes| > 0 && Polymorphic(a) == c.unreachable
    && (!c.unreachable ==> |a.stack| == a.scopes[0].init + c.height)
  }

  lemma ContextGrows(ctx: Context, o: Comp, p: Comp)
    requires InContext(ctx, o.a) && Grew(o, p)
    ensures InContext(ctx, p.a)
  {
    forall j | 0 <= j < |o.a.scopes| ensures p.a.scopes[j].typed == o.a.scopes[j].typed &&
        p.a.scopes[j].opcode == o.a.scopes[j].opcode {
      assert ScopeGrew(o.code, o.a.scopes[j], p.a.scopes[j]);
    }
  }

  lemma ContextEnters(ctx: Context, o: Comp, opcode: Opcode, typed: bool)
    requires InContext(ctx, o.a) && Formed(o)
    ensures InContext(Within(ctx, typed && opcode != LoopBody), EnterScope(o, opcode, typed).a)
  {
  }

  // ---------------------------------------------------------------------------------
  // Instructions without control flow.

  lemma FoundHeight(a: Alloc, local: nat)
    requires Shaped(a) && FindReferenced(a, local).Some?
    ensures |FindReferenced(a, local).value.alloc.stack| == |a.stack|
  {
  }

  lemma TakeOneHeight(a: Alloc)
    requires Shaped(a) && !Polymorphic(a) && TakeOne(a).Some?
    ensures |TakeOne(a).value.out.alloc.stack| == |a.stack| - 1
  {
  }

  lemma TakeTwoHeight(a: Alloc)
    requires Shaped(a) && !Polymorphic(a) && TakeTwo(a).Some?
    ensures |TakeTwo(a).value.out.alloc.stack| == |a.stack| - 2
  {
  }

  lemma SelectHeight(a: Alloc)
    requires Shaped(a) && !Polymorphic(a) && CompileSelect(a).Some?
    ensures |CompileSelect(a).value.alloc.stack| == |a.stack| - 2
  {
    hide FirstFree;
  }

  lemma PlainHeight(a: Alloc, p: Plain)
    requires Shaped(a) && !Polymorphic(a) && CompilePlain(a, p).Some?
    ensures |CompilePlain(a, p).value.alloc.stack| == |a.stack| + Gives(p) - Takes(p)
  {
    hide FindReferenced, TakeOne, TakeTwo, CompileSelect;
    match p
    case LocalSet(i) => FoundHeight(a, a.stack[i]);
    case LocalTee(i) => FoundHeight(a, a.stack[i]);
    case Select => SelectHeight(a);
    case Unop(_) => TakeOneHeight(a);
    case LoadOp(_, _) => TakeOneHeight(a);
    case Binop(_) => TakeTwoHeight(a);
    case StoreOp(_, _) => TakeTwoHeight(a);
    case _ =>
  }

  // ---------------------------------------------------------------------------------
  // Control.

  lemma MoveHeight(a: Alloc)
    requires Shaped(a) && !Polymorphic(a) && MoveTopToRegister(a).Some?
    ensures |MoveTopToRegister(a).value.alloc.stack| == |a.stack|
  {
  }

  lemma ValidateHeight(a: Alloc, c: Check)
    requires Sound(a) && Tracks(a, c) && Ends(c, a.scopes[0].typed) && ValidateEnd(a).Some?
    ensures |ValidateEnd(a).value.alloc.stack| == a.scopes[0].init + Arity(a.scopes[0].typed)
  {
    UnwindKeeps(a, a.scopes[0].init);
    if !Polymorphic(a) && a.scopes[0].typed {
      MoveHeight(a);
    }
  }

  lemma {:induction false} CodeTracks(ctx: Context, o: Comp, code: Code, c: Check)
    requires Built(o) && Permits(o, code) && InContext(ctx, o.a) && Tracks(o.a, c)
    requires CompileCode(o, code).Some? && CheckCode(ctx, code, c).Some?
    ensures Tracks(CompileCode(o, code).value.a, CheckCode(ctx, code, c).value)
    decreases code, 0
  {
    BuiltFormed(o);
    hide Built, InContext, Tracks, Grew, PermitsInstr;
    match code
    case End =>
    case Then(head, rest) =>
      InstrTracks(ctx, o, head, c);
      InstrGrows(o, head);
      var o1 := CompileInstr(o, head).value;
      ContextGrows(ctx, o, o1);
      CodeTracks(ctx, o1, rest, CheckInstr(ctx, head, c).value);
  }

  lemma {:induction false} BlockTracks(ctx: Context, o: Comp, opcode: Opcode, typed: bool, body: Code)
    requires Built(o) && InContext(ctx, o.a) && NoReferences(o.a) && o.a.regIndexPlusOne == 0 && !Polymorphic(o.a)
    requires PermitsBlock(o, opcode, typed, body)
    requires CompileBlock(o, opcode, typed, body).Some? && ValidBlock(ctx, typed && opcode != LoopBody, typed, body)
    ensures |CompileBlock(o, opcode, typed, body).value.a.stack| == |o.a.stack| + Arity(typed)
    decreases body, 1
  {
    BuiltFormed(o);
    hide Sound, InContext, Patchable, NoneBelow, Laid, Permits;
    var e, inner := EnterScope(o, opcode, typed), Within(ctx, typed && opcode != LoopBody);
    EnterBuilds(o, opcode, typed);
    ContextEnters(ctx, o, opcode, typed);
    CodeTracks(inner, e, body, Check(0, false));
    CodeGrows(e, body);
    var p := CompileCode(e, body).value;
    assert ScopeGrew(e.code, e.a.scopes[0], p.a.scopes[0]);
    ValidateHeight(p.a, CheckCode(inner, body, Check(0, false)).value);
  }

  lemma {:induction false} IfTracks(ctx: Context, o: Comp, typed: bool, yes: Code, no: Option<Code>)
    requires Built(o) && PermitsInstr(o, If(typed, yes, no)) && InContext(ctx, o.a) && !Polymorphic(o.a)
    requires |o.a.stack| > o.a.scopes[0].init
    requires CompileInstr(o, If(typed, yes, no)).Some? && ValidBlock(ctx, typed, typed, yes)
    requires if no.Some? then ValidBlock(ctx, typed, typed, no.value) else !typed
    ensures |CompileInstr(o, If(typed, yes, no)).value.a.stack| == |o.a.stack| - 1 + Arity(typed)
    decreases If(typed, yes, no), 0
  {
    BuiltFormed(o);
    hide *;
    var o1, o2 := YesParts(o, typed, yes, no);
    PermitsYes(o, typed, yes, no);
    EnterIfGrows(o);
    EnterIfSteady(o, o1);
    EnterIfHeight(o);
    ContextGrows(ctx, o, o1);
    LabelOf(ctx, typed);
    BlockTracks(ctx, o1, IfBody, typed, yes);
    if no.Some? {
      BlockGrows(o1, IfBody, typed, yes);
      ReservedStays(o1, o2, IfLine(o1));
      var o3, o4 := NoParts(o, typed, yes, no.value, o1, o2);
      ElseGrows(o, o1, o2, IfLine(o1), typed);
      ContextGrows(ctx, o, o3);
      PermitsNo(o, typed, yes, no.value, o1, o2, o3);
      BlockTracks(ctx, o3, ElseBody, typed, no.value);
      LeaveElseAlloc(o4, o2.page);
    }
  }

  lemma LabelOf(ctx: Context, typed: bool)
    ensures (typed && IfBody != LoopBody) == typed == (typed && ElseBody != LoopBody)
  {
  }

  lemma LeaveElseAlloc(o: Comp, page: nat)
    requires Formed(o) && page < |o.used|
    ensures LeaveElse(o, page).a == o.a
  {
  }

  lemma EnterIfHeight(o: Comp)
    requires Built(o) && !Polymorphic(o.a) && EnterIf(o).Some?
    ensures |EnterIf(o).value.a.stack| == |o.a.stack| - 1
  {
    hide Laid, Patchable, Placed, Counted, Pooled, Registered, Bounded, Settled, PreserveNonTop, PreserveLocals;
    NonTopKeeps(o.a);
    LocalsKeep(PreserveNonTop(o.a).value.alloc);
  }

  lemma {:induction false} InstrTracks(ctx: Context, o: Comp, i: Instr, c: Check)
    requires Built(o) && PermitsInstr(o, i) && InContext(ctx, o.a) && Tracks(o.a, c)
    requires CompileInstr(o, i).Some? && CheckInstr(ctx, i, c).Some?
    ensures Tracks(CompileInstr(o, i).value.a, CheckInstr(ctx, i, c).value)
    decreases i, 2
  {
    BuiltFormed(o);
    hide Sound, Laid, Patchable, InContext, CompileInstr;
    InstrGrows(o, i);
    assert ScopeGrew(o.code, o.a.scopes[0], CompileInstr(o, i).value.a.scopes[0]);
    if c.unreachable {
      if i.Br? {
        BrPolymorphic(o, i.depth);
      }
    } else {
      InstrHeight(ctx, o, i, c);
    }
  }

  // How much higher or lower an instruction leaves the stack.
  lemma {:induction false} InstrHeight(ctx: Context, o: Comp, i: Instr, c: Check)
    requires Built(o) && PermitsInstr(o, i) && InContext(ctx, o.a) && Tracks(o.a, c) && !c.unreachable
    requires CompileInstr(o, i).Some? && CheckInstr(ctx, i, c).Some?
    ensures var p, d := CompileInstr(o, i).value, CheckInstr(ctx, i, c).value;
            && Polymorphic(p.a) == d.unreachable && (!i.Br? ==> |p.a.stack| + c.height == |o.a.stack| + d.height)
    decreases i, 1
  {
    BuiltFormed(o);
    hide Sound, Laid, Patchable, InContext, Prepare, CompileBlock;
    InstrGrows(o, i);
    match i
    case Basic(q) => PlainHeight(o.a, q);
    case Block(typed, body) => EnterTracks(ctx, o, i, typed, body);
    case Loop(typed, body) => EnterTracks(ctx, o, i, typed, body);
    case If(typed, yes, no) => IfTracks(ctx, o, typed, yes, no);
    case Br(depth) => BrPolymorphic(o, depth);
    case BrIf(depth) => BrIfHeight(o, depth);
  }

  // Blocks and loops.
  lemma {:induction false} EnterTracks(ctx: Context, o: Comp, i: Instr, typed: bool, body: Code)
    requires Built(o) && PermitsInstr(o, i) && InContext(ctx, o.a) && !Polymorphic(o.a)
    requires (i == Block(typed, body) && ValidBlock(ctx, typed, typed, body)) ||
             (i == Loop(typed, body) && ValidBlock(ctx, false, typed, body))
    requires CompileInstr(o, i).Some?
    ensures |CompileInstr(o, i).value.a.stack| == |o.a.stack| + Arity(typed)
    decreases i, 0
  {
    BuiltFormed(o);
    hide Built, PermitsBlock, Prepare, InContext, CompileBlock, ValidBlock, NoReferences;
    PrepareTracks(ctx, o);
    var o1 := Prepare(o).value;
    if i.Block? {
      BlockTracks(ctx, o1, BlockOp, typed, body);
    } else {
      EmitTracks(ctx, o1, LoopOp);
      BlockTracks(ctx, Emit(o1, LoopOp), LoopBody, typed, body);
    }
  }

  lemma EmitTracks(ctx: Context, o: Comp, op: Op)
    requires Built(o) && InContext(ctx, o.a) && NoReferences(o.a) && Formed(o) && !Pending(op)
    ensures Built(Emit(o, op)) && InContext(ctx, Emit(o, op).a) && NoReferences(Emit(o, op).a) && Formed(Emit(o, op))
  {
    hide Sound, Patchable;
    EmitGrows(o, op);
  }

  lemma PrepareTracks(ctx: Context, o: Comp)
    requires Built(o) && InContext(ctx, o.a) && !Polymorphic(o.a) && Formed(o) && Prepare(o).Some?
    ensures var o1 := Prepare(o).value;
            && Built(o1) && Grew(o, o1) && InContext(ctx, o1.a) && NoReferences(o1.a) && o1.a.regIndexPlusOne == 0
            && !Polymorphic(o1.a) && |o1.a.stack| == |o.a.stack|
  {
    hide Sound, Patchable, NoneBelow, Laid, InContext, NoReferences;
    PrepareGrows(o);
    ContextGrows(ctx, o, Prepare(o).value);
  }

  lemma BrIfHeight(o: Comp, depth: nat)
    requires Formed(o) && !Polymorphic(o.a) && CompileBrIf(o, depth).Some?
    ensures |CompileBrIf(o, depth).value.a.stack| == |o.a.stack| - 1
  {
    if o.a.scopes[depth].opcode == LoopBody {
      MoveHeight(o.a);
    }
  }

  lemma BrPolymorphic(o: Comp, depth: nat)
    requires Formed(o) && CompileInstr(o, Br(depth)).Some?
    ensures Polymorphic(CompileInstr(o, Br(depth)).value.a)
  {
  }
}
