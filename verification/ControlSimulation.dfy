// Running compiled structured code does what the code means (section 4.4.5 of the WebAssembly Core
// Specification): every forward branch arrives at the end of its block with the block's value in
// the register, and a branch to a loop is the return of that loop's address through all the native
// calls of the loops inside it (kernel/wasm3/source/m3_compile.c:1171-1260, 1555-1635, 2235-2265;
// m3_exec.c:247-305).
module ControlSimulation {
  import opened WasmValues
  import opened WasmSemantics
  import opened Wrappers
  import opened WasmValidation
  import opened ThreadedMachine
  import opened MachineRuns
  import opened SlotAllocator
  import opened PlainInvariants
  import opened PlainSimulation
  import opened ControlCompile
  import opened ControlGuards
  import opened ControlStructure
  import opened ControlHeights
  import opened ControlOutcomes
  import opened BlockSimulation
  import opened BranchSimulation

  // ---------------------------------------------------------------------------------
  // Ifs.

  lemma NonTopRelated(a: Alloc, consts: seq<Word>, w: World, s: State)
    requires Related(a, consts, w, s) && Live(a) && PreserveNonTop(a).Some?
    ensures var p := PreserveNonTop(a).value;
            var r := PerformAll(p.ops, s);
            r.Next? && Related(p.alloc, consts, w, r.state) && Live(p.alloc)
  {
    hide Placed, Counted, Pooled, Settled, OneInRegister, Related;
    NonTopKeeps(a);
    if |a.stack| > 0 && a.regIndexPlusOne != |a.stack| {
      PreserveRelated(a, consts, w, s);
    }
  }

  // The condition decides, whichever way the operation reads it.
  lemma IfSteps(a: Alloc, pc: Pc, next: Pc, s: State, condition: Word)
    requires Readable(TopSlot(a), s) && Held(TopSlot(a), s) == condition && (InRegister(a, 0) <==> TopSlot(a) == REG0)
    ensures Step(Retarget(IfOperation(a), To(pc)), next, s) == if condition != 0 then Go(next, s) else Go(pc, s)
  {
  }

  // Where the two ways of an if start.
  ghost predicate Forks(op: Op, next: Pc, s: State, condition: Word) {
    Pending(op) && forall pc: Pc {:trigger To(pc)} ::
      Step(Retarget(op, To(pc)), next, s) == if condition != 0 then Go(next, s) else Go(pc, s)
  }

  lemma EnterIfLeads(f: Final, ends: seq<Pc>, o: Comp, w: World, s: State) returns (s1: State)
    requires LiveComp(o) && Related(o.a, f.consts, w, s) && EnterIf(o).Some?
    requires Fits(f, EnterIf(o).value, ends)
    ensures var o1 := EnterIf(o).value;
            && |w.stack| > 0 && Related(o1.a, f.consts, Pop(w, 1), s1)
            && Leads(f.code, o.used, At(Here(o)), s, At(IfLine(o1)), s1)
            && IfLine(o1) in o1.code && After(IfLine(o1)) == Here(o1)
            && Forks(o1.code[IfLine(o1)], Here(o1), s1, Operand(w, 0))
  {
    hide Placed, Counted, Pooled, Bounded, Settled, OneInRegister, Patchable, Related, Leads, Fits, NoneBelow, Kept;
    hide PreserveNonTop, PreserveLocals;
    var m := PreserveNonTop(o.a).value;
    NonTopKeeps(o.a);
    NonTopRelated(o.a, f.consts, w, s);
    var q := PreserveLocals(m.alloc).value;
    var o2, op, next := EmitOut(EmitOut(o, m), q), IfOperation(q.alloc), Here(EnterIf(o).value);
    IfFits(f, ends, o, m, q);
    s1 := SettleLeads(f, ends, o, m, w, s);
    PopRelated(q.alloc, f.consts, w, s1);
    forall pc: Pc ensures Step(Retarget(op, To(pc)), next, s1) == if Operand(w, 0) != 0 then Go(next, s1)
        else Go(pc, s1) {
      IfSteps(q.alloc, pc, next, s1, Operand(w, 0));
    }
  }

  lemma IfFits(f: Final, ends: seq<Pc>, o: Comp, m: Out, q: Out)
    requires Built(o) && PreserveNonTop(o.a) == Some(m) && PreserveLocals(m.alloc) == Some(q)
    requires EnterIf(o).Some? && Fits(f, EnterIf(o).value, ends)
    ensures Fits(f, EmitOut(EmitOut(o, m), q), ends)
  {
    hide Placed, Counted, Settled, OneInRegister, Patchable, Fits, NoneBelow, Kept;
    NonTopKeeps(o.a);
    OutGrows(o, m);
    AllocGrows(o, m.alloc);
    LocalsKeep(m.alloc);
    OutGrows(EmitOut(o, m), q);
    var o2, op := EmitOut(EmitOut(o, m), q), IfOperation(q.alloc);
    EmitGrows(o2, op);
    Pops(q.alloc);
    AllocGrows(Emit(o2, op), PopTop(q.alloc).value);
    GrewOn(o2, Emit(o2, op), EnterIf(o).value);
    FitsBefore(f, o2, EnterIf(o).value, ends);
  }

  // ---------------------------------------------------------------------------------
  // Whole pieces of code.

  // What is supposed of every piece: it is valid, reachable, and part of the finished function.
  predicate Supposed(f: Final, ctx: Context, o: Comp, w: World, s: State) {
    LiveComp(o) && InContext(ctx, o.a) && Related(o.a, f.consts, w, s)
  }

  lemma SupposedParts(f: Final, ctx: Context, o: Comp, w: World, s: State)
    requires Supposed(f, ctx, o, w, s)
    ensures LiveComp(o) && InContext(ctx, o.a) && Related(o.a, f.consts, w, s)
    ensures Built(o) && Sound(o.a) && Formed(o) && o.page < |o.used| && |o.a.scopes| > 0
    ensures OneInRegister(o.a) && !Polymorphic(o.a) && Steady(o.a) && o.a.numLocals + |w.stack| == |o.a.stack|
    ensures o.a.consts <= f.consts
  {
  }

  lemma SupposedMade(f: Final, ctx: Context, o: Comp, w: World, s: State)
    requires Built(o) && OneInRegister(o.a) && |o.a.scopes| > 0 && !Polymorphic(o.a) && InContext(ctx, o.a)
    requires Related(o.a, f.consts, w, s)
    ensures Supposed(f, ctx, o, w, s)
  {
  }

  lemma StepsTo(o: Comp, o1: Comp, ctx: Context)
    requires LiveComp(o) && InContext(ctx, o.a) && Grew(o, o1) && Built(o1) && Steady(o1.a)
    ensures InContext(ctx, o1.a) && LoopsOld(o.used, o1.a.scopes) && Grown(o.used, o1.used) && |o1.a.scopes| > 0
    ensures !Polymorphic(o1.a) ==> LiveComp(o1)
  {
    ContextGrows(ctx, o, o1);
    forall j | 0 <= j < |o1.a.scopes| ensures Old(o.used, o1.a.scopes[j].pc) {
      assert ScopeGrew(o.code, o.a.scopes[j], o1.a.scopes[j]);
    }
  }

  lemma StepsLive(o: Comp)
    requires Built(o) && Steady(o.a) && |o.a.scopes| > 0 && !Polymorphic(o.a)
    ensures OneInRegister(o.a)
  {
  }

  lemma RunThen(head: Instr, rest: Code, w: World, fuel: nat)
    ensures var r := RunInstr(head, w, fuel);
            RunCode(Then(head, rest), w, fuel) == if r.Normal? then RunCode(rest, r.world, fuel) else r
  {
  }

  lemma PermitsParts(o: Comp, o1: Comp, head: Instr, rest: Code)
    requires Formed(o) && Permits(o, Then(head, rest)) && CompileInstr(o, head) == Some(o1)
    ensures PermitsInstr(o, head) && Permits(o1, rest)
  {
    hide PermitsInstr;
  }

  lemma FirstOf(ctx: Context, o: Comp, head: Instr, rest: Code, c: Check) returns (o1: Comp, p: Comp, c1: Check)
    requires Built(o) && CompileCode(o, Then(head, rest)).Some? && CheckCode(ctx, Then(head, rest), c).Some?
    ensures Formed(o) && CompileInstr(o, head) == Some(o1) && Formed(o1) && CompileCode(o1, rest) == Some(p)
    ensures o.page < |o.used| && o1.page < |o1.used| && p.page < |p.used|
    ensures CompileCode(o, Then(head, rest)) == Some(p)
    ensures CheckInstr(ctx, head, c) == Some(c1) && CheckCode(ctx, rest, c1) == CheckCode(ctx, Then(head, rest), c)
  {
    hide CompileInstr, CheckInstr;
    o1 := CompileInstr(o, head).value;
    p := CompileCode(o1, rest).value;
    c1 := CheckInstr(ctx, head, c).value;
  }

  // Running compiled code does what running the code does.
  lemma {:induction false} CodeDoes(f: Final, ends: seq<Pc>, ctx: Context, o: Comp, code: Code, c: Check, w: World,
      s: State, fuel: nat)
    requires Supposed(f, ctx, o, w, s) && Permits(o, code) && Tracks(o.a, c)
    requires CompileCode(o, code).Some? && CheckCode(ctx, code, c).Some? && Fits(f, CompileCode(o, code).value, ends)
    ensures Does(f, ends, o.used, CompileCode(o, code).value, At(Here(o)), s, RunCode(code, w, fuel), fuel)
    decreases fuel, code, 1
  {
    match code
    case End =>
      hide Sound, OneInRegister, Patchable, Related, Fits, Leads, InContext, Tracks;
      Stays(f.code, o.used, At(Here(o)), s);
      NormalMade(f, ends, o.used, o, At(Here(o)), s, w, s, fuel);
    case Then(head, rest) => ThenDoes(f, ends, ctx, o, head, rest, c, w, s, fuel);
  }

  lemma {:induction false} ThenDoes(f: Final, ends: seq<Pc>, ctx: Context, o: Comp, head: Instr, rest: Code, c: Check,
      w: World, s: State, fuel: nat)
    requires Supposed(f, ctx, o, w, s) && Permits(o, Then(head, rest)) && Tracks(o.a, c)
    requires CompileCode(o, Then(head, rest)).Some?
    requires CheckCode(ctx, Then(head, rest), c).Some? && Fits(f, CompileCode(o, Then(head, rest)).value, ends)
    ensures Does(f, ends, o.used, CompileCode(o, Then(head, rest)).value, At(Here(o)), s,
            RunCode(Then(head, rest), w, fuel), fuel)
    decreases fuel, Then(head, rest), 0
  {
    hide *;
    SupposedParts(f, ctx, o, w, s);
    var o1, p, c1 := FirstOf(ctx, o, head, rest, c);
    PermitsParts(o, o1, head, rest);
    InstrGrows(o, head);
    CodeGrows(o1, rest);
    FitsBefore(f, o1, p, ends);
    InstrDoes(f, ends, ctx, o, head, c, w, s, fuel);
    InstrTracks(ctx, o, head, c);
    StepsTo(o, o1, ctx);
    GrewOn(o, o1, p);
    StepsTo(o, p, ctx);
    FitsParts(f, p, ends);
    RunThen(head, rest, w, fuel);
    var r := RunInstr(head, w, fuel);
    match r {
      case Normal(w1) =>
        var s1 := NormalParts(f, ends, o.used, o1, At(Here(o)), s, w1, fuel);
        StepsLive(o1);
        SupposedMade(f, ctx, o1, w1, s1);
        CodeDoes(f, ends, ctx, o1, rest, c1, w1, s1, fuel);
        DoesOn(f, ends, o.used, o1.used, p, At(Here(o)), s, At(Here(o1)), s1, RunCode(rest, w1, fuel), fuel);
      case r => DoesLater(f, ends, o.used, o1, p, At(Here(o)), s, r, fuel);
    }
  }

  lemma EnterSupposed(f: Final, ctx: Context, o: Comp, opcode: Opcode, typed: bool, w: World, s: State)
    requires Supposed(f, ctx, o, w, s) && NoReferences(o.a) && o.a.regIndexPlusOne == 0
    ensures var e := EnterScope(o, opcode, typed);
            Supposed(f, Within(ctx, typed && opcode != LoopBody), e, w, s) && Tracks(e.a, Check(0, false)) &&
                Here(e) == Here(o) && e.used == o.used
  {
    hide Sound, OneInRegister, Patchable, NoneBelow;
    BuiltFormed(o);
    EnterBuilds(o, opcode, typed);
    ContextEnters(ctx, o, opcode, typed);
  }

  lemma EnterPermits(o: Comp, opcode: Opcode, typed: bool, body: Code)
    requires Formed(o) && PermitsBlock(o, opcode, typed, body)
    ensures Permits(EnterScope(o, opcode, typed), body)
  {
  }

  // The block is entered at o.
  lemma {:induction false} BlockDoes(f: Final, ends: seq<Pc>, ctx: Context, o: Comp, opcode: Opcode, typed: bool,
      body: Code, w: World, s: State, fuel: nat)
    requires Supposed(f, ctx, o, w, s) && NoReferences(o.a) && o.a.regIndexPlusOne == 0 && opcode != LoopBody
    requires CompileBlock(o, opcode, typed, body).Some? && ValidBlock(ctx, typed, typed, body)
    requires PermitsBlock(o, opcode, typed, body) && Fits(f, CompileBlock(o, opcode, typed, body).value, ends)
    ensures Does(f, ends, o.used, CompileBlock(o, opcode, typed, body).value, At(Here(o)), s,
            LeaveBlock(RunCode(body, w, fuel), |w.stack|, typed), fuel)
    decreases fuel, body, 3
  {
    hide *;
    SupposedParts(f, ctx, o, w, s);
    LabelIs(opcode, typed);
    AroundBlock(f, ends, ctx, o, opcode, typed, body);
    var e, q := EnterScope(o, opcode, typed), CompileBlock(o, opcode, typed, body).value;
    var p := CompileCode(e, body).value;
    AroundParts(f, ends, o, opcode, typed, p, q);
    AroundPages(f, ends, o, opcode, typed, p, q);
    EnterSupposed(f, ctx, o, opcode, typed, w, s);
    EnterPermits(o, opcode, typed, body);
    BlockChecks(ctx, typed, typed, body);
    CodeDoes(f, [Here(q)] + ends, Within(ctx, typed), e, body, Check(0, false), w, s, fuel);
    GrewParts(e, p);
    EndDoes(f, ends, o, opcode, typed, p, q, o.used, At(Here(o)), s, RunCode(body, w, fuel), |w.stack|, fuel);
  }

  lemma LabelIs(opcode: Opcode, typed: bool)
    ensures opcode != LoopBody ==> (typed && opcode != LoopBody) == typed
    ensures (typed && LoopBody != LoopBody) == false
  {
  }

  lemma BlockChecks(ctx: Context, carries: bool, typed: bool, body: Code)
    requires ValidBlock(ctx, carries, typed, body)
    ensures CheckCode(Within(ctx, carries), body, Check(0, false)).Some?
  {
  }

  lemma AroundBlock(f: Final, ends: seq<Pc>, ctx: Context, o: Comp, opcode: Opcode, typed: bool, body: Code)
    requires LiveComp(o) && InContext(ctx, o.a) && NoReferences(o.a) && o.a.regIndexPlusOne == 0
    requires CompileBlock(o, opcode, typed, body).Some? && ValidBlock(ctx, typed && opcode != LoopBody, typed, body)
    requires PermitsBlock(o, opcode, typed, body) && Fits(f, CompileBlock(o, opcode, typed, body).value, ends)
    ensures Formed(o) && o.page < |o.used| && CompileCode(EnterScope(o, opcode, typed), body).Some?
    ensures Around(f, ends, o, opcode, typed, CompileCode(EnterScope(o, opcode, typed), body).value,
            CompileBlock(o, opcode, typed, body).value)
    ensures Grew(EnterScope(o, opcode, typed), CompileCode(EnterScope(o, opcode, typed), body).value)
  {
    BuiltFormed(o);
    hide Sound, Patchable, Laid, Fits, Grew, InContext, NoneBelow, OneInRegister, Permits;
    EnterBuilds(o, opcode, typed);
    CodeGrows(EnterScope(o, opcode, typed), body);
    BlockTracks(ctx, o, opcode, typed, body);
  }

  lemma ClearedRelated(a: Alloc, consts: seq<Word>, w: World, s: State)
    requires Related(a, consts, w, s) && OneInRegister(a) && a.regIndexPlusOne == 0
    ensures Related(a, consts, w, s.(r0 := 0))
  {
    FreeRegister(a);
    forall i | 0 <= i < |a.stack| ensures Held(a.stack[i], s.(r0 := 0)) == Held(a.stack[i], s) {
      assert a.stack[i] in a.stack;
    }
  }

  // At a branch back to the loop entered at o the operands are as they were at its start.
  lemma BackRelated(o: Comp, p: Comp, consts: seq<Word>, w: World, s: State, height: nat)
    requires OneInRegister(o.a) && o.a.regIndexPlusOne == 0 && o.a.consts <= consts && SameFrame(o.a, p.a)
    requires |o.a.stack| <= |p.a.stack| && p.a.stack[..|o.a.stack|] == o.a.stack &&
             o.a.numLocals + height == |o.a.stack|
    requires Unwound(p.a, |o.a.stack|, consts, w, s) && height <= |w.stack|
    ensures Related(o.a, consts, w.(stack := w.stack[..height]), s.(r0 := 0))
  {
    var w1 := w.(stack := w.stack[..height]);
    assert w1.locals + w1.stack == (w.locals + w.stack)[..|o.a.stack|];
    assert Related(o.a, consts, w1, s);
    ClearedRelated(o.a, consts, w1, s);
  }

  lemma LoopTurn(typed: bool, body: Code, w: World, fuel: nat)
    ensures var r := RunCode(body, w, fuel);
            RunLoop(typed, body, w, fuel) ==
            if !(r.Branch? && r.depth == 0) then LeaveBlock(r, |w.stack|, typed)
            else if |r.world.stack| < |w.stack| then Stuck
            else if fuel == 0 then OutOfFuel
            else RunLoop(typed, body, r.world.(stack := r.world.stack[..|w.stack|]), fuel - 1)
  {
  }

  // The turns of the loop whose address is Here(o).
  lemma {:induction false} TurnsDo(f: Final, ends: seq<Pc>, ctx: Context, used: seq<nat>, o: Comp, typed: bool,
      body: Code, w: World, s: State, fuel: nat)
    requires Supposed(f, ctx, o, w, s) && NoReferences(o.a) && o.a.regIndexPlusOne == 0
    requires !Old(used, Here(o)) && Grown(used, o.used) && LoopsOld(used, o.a.scopes)
    requires CompileBlock(o, LoopBody, typed, body).Some? && ValidBlock(ctx, false, typed, body)
    requires PermitsBlock(o, LoopBody, typed, body) && Fits(f, CompileBlock(o, LoopBody, typed, body).value, ends)
    ensures Does(f, ends, used, CompileBlock(o, LoopBody, typed, body).value, Turn(Here(o)), s,
            RunLoop(typed, body, w, fuel), fuel)
    decreases fuel, body, 3
  {
    hide *;
    SupposedParts(f, ctx, o, w, s);
    LabelIs(LoopBody, typed);
    AroundBlock(f, ends, ctx, o, LoopBody, typed, body);
    var e, q, id := EnterScope(o, LoopBody, typed), CompileBlock(o, LoopBody, typed, body).value, Here(o);
    var p, r := CompileCode(e, body).value, RunCode(body, w, fuel);
    AroundParts(f, ends, o, LoopBody, typed, p, q);
    AroundPages(f, ends, o, LoopBody, typed, p, q);
    EnterSupposed(f, ctx, o, LoopBody, typed, w, s);
    EnterPermits(o, LoopBody, typed, body);
    BlockChecks(ctx, false, typed, body);
    CodeDoes(f, [Here(q)] + ends, Within(ctx, false), e, body, Check(0, false), w, s, fuel);
    LoopsStay(used, o, q);
    LoopTurn(typed, body, w, fuel);
    GrewParts(e, p);
    GrewParts(o, q);
    if r.Branch? && r.depth == 0 {
      BranchIs(f, [Here(q)] + ends, o.used, p, At(id), s, 0, r.world, fuel);
      if |w.stack| <= |r.world.stack| && fuel > 0 {
        AgainDoes(f, ends, ctx, used, o, typed, body, p, q, w, r.world, s, fuel);
      } else {
        NoFuel(f.code, id, s);
        FuelIs(f, ends, used, q, Turn(id), s, RunLoop(typed, body, w, fuel), fuel, fuel);
      }
    } else {
      EndDoes(f, ends, o, LoopBody, typed, p, q, o.used, At(id), s, r, |w.stack|, fuel);
      OneTurn(f.code, used, id, s);
      DoesOn(f, ends, used, o.used, q, Turn(id), s, At(id), s, LeaveBlock(r, |w.stack|, typed), fuel);
    }
  }

  lemma NoFuel(code: Memory, id: Pc, s: State)
    ensures Run(code, Turn(id), s, 0) == Unfinished
  {
  }

  lemma LoopsStay(used: seq<nat>, o: Comp, q: Comp)
    requires LoopsOld(used, o.a.scopes) && Grew(o, q)
    ensures LoopsOld(used, q.a.scopes)
  {
    forall j | 0 <= j < |q.a.scopes| ensures Old(used, q.a.scopes[j].pc) {
      assert ScopeGrew(o.code, o.a.scopes[j], q.a.scopes[j]);
    }
  }

  lemma GrownItself(used: seq<nat>)
    ensures Grown(used, used)
  {
  }

  // A branch to a loop comes back with the loop's address.
  lemma LoopExit(f: Final, ends: seq<Pc>, used: seq<nat>, a: Alloc, from: Start, s: State, depth: nat, w: World)
    returns (s1: State)
    requires Exits(f, ends, used, a, from, s, depth, w) && a.scopes[depth].opcode == LoopBody
    requires a.numLocals + |w.stack| >= a.scopes[depth].init
    ensures Unwound(a, a.scopes[depth].init, f.consts, w, s1) && Returns(f.code, from, s, Again(a.scopes[depth].pc, s1))
  {
    hide Unwound, Returns, Leads;
    s1 :| ToLoop(f, a, depth, w, from, s, s1);
  }

  lemma {:induction false} AgainDoes(f: Final, ends: seq<Pc>, ctx: Context, used: seq<nat>, o: Comp, typed: bool,
      body: Code, p: Comp, q: Comp, w: World, w1: World, s: State, fuel: nat)
    requires Supposed(f, ctx, o, w, s) && NoReferences(o.a) && o.a.regIndexPlusOne == 0
    requires !Old(used, Here(o)) && Grown(used, o.used) && LoopsOld(used, o.a.scopes)
    requires CompileBlock(o, LoopBody, typed, body).Some? && ValidBlock(ctx, false, typed, body)
    requires q == CompileBlock(o, LoopBody, typed, body).value && Fits(f, q, ends) && q.page < |q.used|
    requires PermitsBlock(o, LoopBody, typed, body)
    requires Around(f, ends, o, LoopBody, typed, p, q) && LoopsOld(used, q.a.scopes) &&
             o.a.numLocals + |w.stack| == |o.a.stack|
    requires Exits(f, [Here(q)] + ends, o.used, p.a, At(Here(o)), s, 0, w1) && |w.stack| <= |w1.stack| && fuel > 0
    ensures |q.a.scopes| > 0
    ensures Does(f, ends, used, q, Turn(Here(o)), s,
            RunLoop(typed, body, w1.(stack := w1.stack[..|w.stack|]), fuel - 1), fuel)
    decreases fuel, body, 2
  {
    hide *;
    SupposedParts(f, ctx, o, w, s);
    AroundParts(f, ends, o, LoopBody, typed, p, q);
    AroundPages(f, ends, o, LoopBody, typed, p, q);
    var id, w2 := Here(o), w1.(stack := w1.stack[..|w.stack|]);
    var s1 := LoopExit(f, [Here(q)] + ends, o.used, p.a, At(id), s, 0, w1);
    BackRelated(o, p, f.consts, w1, s1, |w.stack|);
    var s2, r := s1.(r0 := 0), RunLoop(typed, body, w2, fuel - 1);
    SupposedMade(f, ctx, o, w2, s2);
    TurnsDo(f, ends, ctx, used, o, typed, body, w2, s2, fuel - 1);
    NextTurn(f.code, used, id, s, s1);
    GrewParts(o, q);
    FuelIs(f, ends, used, q, Turn(id), s2, r, fuel - 1, fuel);
    FuelIs(f, ends, used, q, Turn(id), s, r, fuel, fuel);
    if r.OutOfFuel? {
      NextTurnStarves(f.code, id, s, s1, fuel - 1);
    } else {
      GrownItself(used);
      DoesOn(f, ends, used, used, q, Turn(id), s, Turn(id), s2, r, fuel);
    }
  }

  // ---------------------------------------------------------------------------------
  // Both ways of an if.

  // Filling in the other pointer leaves everything else as it was.
  lemma FitsUnfilled(f: Final, o: Comp, ends: seq<Pc>, at: Pc, pc: Pc)
    requires at in o.code && Pending(o.code[at]) && Fits(f, o.(code := Patch(o.code, at, pc)), ends)
    ensures Fits(f, o, ends) && at in f.code && f.code[at] == Retarget(o.code[at], To(pc))
  {
    var code := Patch(o.code, at, pc);
    forall l | l in o.code ensures l in f.code && Fills(o.code[l], f.code[l]) {
      assert l in code && Fills(code[l], f.code[l]);
    }
  }

  lemma ForkSteps(code: Memory, at: Pc, op: Op, yes: Pc, no: Pc, s: State, condition: Word)
    requires Forks(op, yes, s, condition) && at in code && code[at] == Retarget(op, To(no)) && After(at) == yes
    ensures StepAt(code, at, s) == Go(if condition != 0 then yes else no, s)
  {
  }

  lemma IfAlone(o: Comp, yes: Code, o1: Comp, o2: Comp)
    requires Formed(o) && CompileInstr(o, If(false, yes, None)).Some? && EnterIf(o) == Some(o1) &&
             CompileBlock(o1, IfBody, false, yes) == Some(o2)
    ensures CompileInstr(o, If(false, yes, None)).value == o2.(code := Patch(o2.code, IfLine(o1), Here(o2)))
    ensures o1.page < |o1.used| && o2.page < |o2.used|
  {
    hide EnterIf, CompileBlock, Patch, CompileInstr;
    var q, r := YesParts(o, false, yes, None);
  }

  lemma AloneGrow(ctx: Context, o: Comp, yes: Code, o1: Comp, o2: Comp)
    requires LiveComp(o) && InContext(ctx, o.a) && PermitsBlock(o1, IfBody, false, yes)
    requires EnterIf(o) == Some(o1) && CompileBlock(o1, IfBody, false, yes) == Some(o2)
    ensures Built(o1) && Grew(o, o1) && NoReferences(o1.a) && o1.a.regIndexPlusOne == 0 && OneInRegister(o1.a) &&
            !Polymorphic(o1.a)
    ensures Reserved(o1, IfLine(o1)) && Built(o2) && Grew(o1, o2) && Reserved(o2, IfLine(o1)) && Steady(o2.a) &&
            !Polymorphic(o2.a)
    ensures BlockLeaves(o1.a, o2.a, false, |o1.a.stack|) && Steady(o1.a) && InContext(ctx, o1.a)
    ensures |o1.a.scopes| > 0 && |o2.a.scopes| > 0
  {
    BuiltFormed(o);
    hide Sound, OneInRegister, Laid, Patchable, NoneBelow, Grew, BlockLeaves, Reserved, LeaveScope, Patch, InContext;
    hide SamePages, Permits;
    EnterIfGrows(o);
    BlockGrows(o1, IfBody, false, yes);
    ReservedStays(o1, o2, IfLine(o1));
    ContextGrows(ctx, o, o1);
    GrewParts(o, o1);
    GrewParts(o1, o2);
  }

  lemma {:induction false} IfWithoutElse(f: Final, ends: seq<Pc>, ctx: Context, o: Comp, yes: Code, o1: Comp, o2: Comp,
      w: World, s: State, fuel: nat)
    requires Supposed(f, ctx, o, w, s) && PermitsBlock(o1, IfBody, false, yes) && ValidBlock(ctx, false, false, yes)
    requires CompileInstr(o, If(false, yes, None)).Some? && Fits(f, CompileInstr(o, If(false, yes, None)).value, ends)
    requires EnterIf(o) == Some(o1) && CompileBlock(o1, IfBody, false, yes) == Some(o2)
    ensures Does(f, ends, o.used, CompileInstr(o, If(false, yes, None)).value, At(Here(o)), s,
            RunInstr(If(false, yes, None), w, fuel), fuel)
    decreases fuel, If(false, yes, None), 0
  {
    hide *;
    SupposedParts(f, ctx, o, w, s);
    IfAlone(o, yes, o1, o2);
    AloneGrow(ctx, o, yes, o1, o2);
    var p, at := CompileInstr(o, If(false, yes, None)).value, IfLine(o1);
    ReservedLine(o1, o2, at);
    FitsUnfilled(f, o2, ends, at, Here(o2));
    FitsBefore(f, o1, o2, ends);
    GrewOn(o, o1, o2);
    StepsTo(o, o1, ctx);
    StepsTo(o, o2, ctx);
    var s1 := EnterIfLeads(f, ends, o, w, s);
    var w1, next := Pop(w, 1), if Operand(w, 0) != 0 then o1 else o2;
    ForkSteps(f.code, at, o1.code[at], Here(o1), Here(o2), s1, Operand(w, 0));
    Goes(f.code, o1.used, at, s1, Here(next), s1);
    LeadsOn(f.code, o.used, o1.used, At(Here(o)), s, At(at), s1, At(Here(next)), s1);
    IfAloneOutcome(yes, w, fuel);
    SameHere(o2, p);
    if Operand(w, 0) != 0 {
      var r := LeaveBlock(RunCode(yes, w1, fuel), |w1.stack|, false);
      SupposedMade(f, ctx, o1, w1, s1);
      BlockDoes(f, ends, ctx, o1, IfBody, false, yes, w1, s1, fuel);
      DoesOn(f, ends, o.used, o1.used, o2, At(Here(o)), s, At(Here(o1)), s1, r, fuel);
      SameDoes(f, ends, o.used, o2, p, At(Here(o)), s, r, fuel);
    } else {
      SkippedRelated(o1, o2, f, ends, w1, s1);
      NormalMade(f, ends, o.used, p, At(Here(o)), s, w1, s1, fuel);
    }
  }

  lemma IfAloneOutcome(yes: Code, w: World, fuel: nat)
    requires |w.stack| > 0
    ensures var w1 := Pop(w, 1);
            RunInstr(If(false, yes, None), w, fuel) ==
            if Operand(w, 0) != 0 then LeaveBlock(RunCode(yes, w1, fuel), |w1.stack|, false) else Normal(w1)
  {
  }

  lemma SkippedRelated(o: Comp, q: Comp, f: Final, ends: seq<Pc>, w: World, s: State)
    requires Related(o.a, f.consts, w, s) && Grew(o, q) && BlockLeaves(o.a, q.a, false, |o.a.stack|) && Fits(f, q, ends)
    ensures Related(q.a, f.consts, w, s)
  {
    assert q.a.stack == q.a.stack[..|o.a.stack|] == o.a.stack;
  }

  // The stages of compiling an if with both blocks.
  predicate Stages(ctx: Context, o: Comp, typed: bool, yes: Code, other: Code, o1: Comp, o2: Comp, o3: Comp, o4: Comp) {
    && Formed(o) && EnterIf(o) == Some(o1)
    && CompileBlock(o1, IfBody, typed, yes) == Some(o2)
    && EnterElse(o2, IfLine(o1), typed, |o1.a.stack|) == Some(o3)
    && CompileBlock(o3, ElseBody, typed, other) == Some(o4)
    && o2.page < |o4.used|
    && ValidBlock(ctx, typed, typed, yes) && ValidBlock(ctx, typed, typed, other)
    && PermitsBlock(o1, IfBody, typed, yes) && PermitsBlock(o3, ElseBody, typed, other)
  }

  lemma StagesGrow(ctx: Context, o: Comp, typed: bool, yes: Code, other: Code, o1: Comp, o2: Comp, o3: Comp, o4: Comp)
    requires Stages(ctx, o, typed, yes, other, o1, o2, o3, o4) && LiveComp(o) && InContext(ctx, o.a)
    ensures Built(o1) && Grew(o, o1) && NoReferences(o1.a) && o1.a.regIndexPlusOne == 0 && OneInRegister(o1.a) &&
            !Polymorphic(o1.a)
    ensures Reserved(o1, IfLine(o1)) && IfLine(o1) !in o.code && Built(o2) && Grew(o1, o2) &&
            Reserved(o2, IfLine(o1)) && Steady(o2.a) && !Polymorphic(o2.a)
    ensures Built(o3) && Grew(o, o3) && NoReferences(o3.a) && o3.a.regIndexPlusOne == 0 && o3.a.stack == o1.a.stack
    ensures Steady(o3.a) && !Polymorphic(o3.a) && Built(o4) && Grew(o3, o4) && Steady(o4.a) && !Polymorphic(o4.a)
    ensures InContext(ctx, o1.a) && InContext(ctx, o3.a) && Built(Filled(o2, IfLine(o1))) &&
            Grew(Filled(o2, IfLine(o1)), o3)
    ensures OneInRegister(o3.a) && Steady(o1.a)
    ensures |o1.a.scopes| > 0 && |o2.a.scopes| > 0 && |o3.a.scopes| > 0 && |o4.a.scopes| > 0
  {
    StagesPages(ctx, o, typed, yes, other, o1, o2, o3, o4);
    hide *;
    LiveParts(o);
    EnterIfGrows(o);
    EnterIfSteady(o, o1);
    BlockGrows(o1, IfBody, typed, yes);
    ReservedStays(o1, o2, IfLine(o1));
    ElseGrows(o, o1, o2, IfLine(o1), typed);
    BlockGrows(o3, ElseBody, typed, other);
    ContextGrows(ctx, o, o1);
    ContextGrows(ctx, o, o3);
    GrewParts(o1, o2);
    GrewParts(o, o3);
    GrewParts(o3, o4);
    StepsLive(o3);
  }

  lemma StagesPages(ctx: Context, o: Comp, typed: bool, yes: Code, other: Code, o1: Comp, o2: Comp, o3: Comp, o4: Comp)
    requires Stages(ctx, o, typed, yes, other, o1, o2, o3, o4)
    ensures Formed(o) && Formed(o1) && Formed(o2) && Formed(o3) && Formed(o4) && EnterIf(o) == Some(o1)
    ensures CompileBlock(o1, IfBody, typed, yes) == Some(o2) && CompileBlock(o3, ElseBody, typed, other) == Some(o4)
    ensures o.page < |o.used| && o1.page < |o1.used| && o2.page < |o2.used| && o3.page < |o3.used| &&
            o4.page < |o4.used|
    ensures o2.page < |o4.used| && o2.page == o1.page && o2.page != o4.page && o4.used[o2.page] == o2.used[o2.page]
    ensures EnterElse(o2, IfLine(o1), typed, |o1.a.stack|) == Some(o3)
    ensures PermitsBlock(o1, IfBody, typed, yes) && PermitsBlock(o3, ElseBody, typed, other)
    ensures Here(o3) == Pc(|o2.used|, 0) && ValidBlock(ctx, typed, typed, yes) && ValidBlock(ctx, typed, typed, other)
  {
  }

  // The line that ends the other block.
  lemma JumpLine(o: Comp, page: nat)
    requires Formed(o) && page < |o.used| && page != o.page
    ensures var p := LeaveElse(o, page);
            && p.page < |p.used| && p.page == page && p.a == o.a && p.used[page] == o.used[page]
            && Here(o) in p.code && p.code[Here(o)] == Jump(To(Here(p))) && !Pending(p.code[Here(o)])
  {
  }

  lemma StagesFit(f: Final, ends: seq<Pc>, ctx: Context, o: Comp, typed: bool, yes: Code, other: Code, o1: Comp,
      o2: Comp, o3: Comp, o4: Comp)
    requires Stages(ctx, o, typed, yes, other, o1, o2, o3, o4) && LiveComp(o) && InContext(ctx, o.a)
    requires Fits(f, LeaveElse(o4, o2.page), ends)
    ensures var p, at := LeaveElse(o4, o2.page), IfLine(o1);
            && Fits(f, o1, ends) && Fits(f, o2, ends) && Fits(f, o3, ends) && Fits(f, o4, ends)
            && Built(p) && Grew(o4, p) && Grew(Filled(o2, at), p) && Grew(o, p)
            && at in o1.code && at in f.code && f.code[at] == Retarget(o1.code[at], To(Here(o3)))
            && p.page < |p.used| && Here(o4) in f.code && f.code[Here(o4)] == Jump(To(Here(p)))
  {
    hide *;
    StagesPages(ctx, o, typed, yes, other, o1, o2, o3, o4);
    StagesGrow(ctx, o, typed, yes, other, o1, o2, o3, o4);
    var p, at := LeaveElse(o4, o2.page), IfLine(o1);
    GrewItself(o4);
    LeaveElseGrows(o4, o4, o2.page);
    GrewOn(o3, o4, p);
    GrewOn(o, o3, p);
    GrewOn(Filled(o2, at), o3, p);
    FitsBefore(f, o4, p, ends);
    FitsBefore(f, o3, p, ends);
    FitsBefore(f, Filled(o2, at), p, ends);
    FilledIs(o2, at);
    ReservedLine(o1, o2, at);
    FitsUnfilled(f, o2, ends, at, Pc(|o2.used|, 0));
    FitsBefore(f, o1, o2, ends);
    JumpLine(o4, o2.page);
    LineFits(f, p, ends, Here(o4));
  }

  lemma FilledIs(o: Comp, at: Pc)
    ensures Filled(o, at) == o.(code := Patch(o.code, at, Pc(|o.used|, 0)))
  {
  }

  lemma GrewItself(o: Comp)
    requires Built(o)
    ensures Grew(o, o)
  {
    EmitAllGrows(o, []);
  }

  lemma ReservedLine(o: Comp, p: Comp, at: Pc)
    requires Reserved(o, at) && Reserved(p, at) && Grew(o, p)
    ensures at in o.code && at in p.code && p.code[at] == o.code[at] && Pending(p.code[at])
  {
  }

  lemma {:induction false} IfWithElse(f: Final, ends: seq<Pc>, ctx: Context, o: Comp, typed: bool, yes: Code,
      other: Code, o1: Comp, o2: Comp, o3: Comp, o4: Comp, w: World, s: State, fuel: nat)
    requires Stages(ctx, o, typed, yes, other, o1, o2, o3, o4) && Supposed(f, ctx, o, w, s)
    requires Fits(f, LeaveElse(o4, o2.page), ends)
    ensures Does(f, ends, o.used, LeaveElse(o4, o2.page), At(Here(o)), s,
            RunInstr(If(typed, yes, Some(other)), w, fuel), fuel)
    decreases fuel, If(typed, yes, Some(other)), 0
  {
    hide *;
    SupposedParts(f, ctx, o, w, s);
    StagesPages(ctx, o, typed, yes, other, o1, o2, o3, o4);
    StagesGrow(ctx, o, typed, yes, other, o1, o2, o3, o4);
    StagesFit(f, ends, ctx, o, typed, yes, other, o1, o2, o3, o4);
    var at := IfLine(o1);
    var s1 := EnterIfLeads(f, ends, o, w, s);
    var w1, no := Pop(w, 1), if Operand(w, 0) != 0 then o1 else o3;
    ForkSteps(f.code, at, o1.code[at], Here(o1), Here(o3), s1, Operand(w, 0));
    GrewParts(o, o1);
    Goes(f.code, o1.used, at, s1, Here(no), s1);
    LeadsOn(f.code, o.used, o1.used, At(Here(o)), s, At(at), s1, At(Here(no)), s1);
    IfOutcome(typed, yes, other, w, fuel);
    if Operand(w, 0) != 0 {
      YesDoes(f, ends, ctx, o, typed, yes, other, o1, o2, o3, o4, w1, s, s1, fuel);
    } else {
      NoDoes(f, ends, ctx, o, typed, yes, other, o1, o2, o3, o4, w1, s, s1, fuel);
    }
  }

  lemma IfOutcome(typed: bool, yes: Code, other: Code, w: World, fuel: nat)
    requires |w.stack| > 0
    ensures var w1 := Pop(w, 1);
            RunInstr(If(typed, yes, Some(other)), w, fuel) ==
            LeaveBlock(RunCode(if Operand(w, 0) != 0 then yes else other, w1, fuel), |w1.stack|, typed)
  {
  }

  // The first block ends where the code after the if begins.
  lemma {:induction false} YesDoes(f: Final, ends: seq<Pc>, ctx: Context, o: Comp, typed: bool, yes: Code, other: Code,
      o1: Comp, o2: Comp, o3: Comp, o4: Comp, w: World, s: State, s1: State, fuel: nat)
    requires Stages(ctx, o, typed, yes, other, o1, o2, o3, o4) && LiveComp(o) && InContext(ctx, o.a)
    requires Fits(f, LeaveElse(o4, o2.page), ends) && Related(o1.a, f.consts, w, s1)
    requires Leads(f.code, o.used, At(Here(o)), s, At(Here(o1)), s1)
    ensures Does(f, ends, o.used, LeaveElse(o4, o2.page), At(Here(o)), s,
            LeaveBlock(RunCode(yes, w, fuel), |w.stack|, typed), fuel)
    decreases fuel, yes, 4
  {
    hide *;
    StagesPages(ctx, o, typed, yes, other, o1, o2, o3, o4);
    StagesGrow(ctx, o, typed, yes, other, o1, o2, o3, o4);
    StagesFit(f, ends, ctx, o, typed, yes, other, o1, o2, o3, o4);
    StagesStacks(ctx, o, typed, yes, other, o1, o2, o3, o4);
    var p, q, r := LeaveElse(o4, o2.page), Filled(o2, IfLine(o1)), LeaveBlock(RunCode(yes, w, fuel), |w.stack|, typed);
    JumpLine(o4, o2.page);
    FilledIs(o2, IfLine(o1));
    FitsParts(f, o4, ends);
    GrewOn(o, o1, o2);
    StepsTo(o, o1, ctx);
    StepsTo(o, o2, ctx);
    SameHere(o2, q);
    SupposedMade(f, ctx, o1, w, s1);
    BlockDoes(f, ends, ctx, o1, IfBody, typed, yes, w, s1, fuel);
    DoesOn(f, ends, o.used, o1.used, o2, At(Here(o)), s, At(Here(o1)), s1, r, fuel);
    match r {
      case Normal(w1) =>
        var s2 := NormalParts(f, ends, o.used, o2, At(Here(o)), s, w1, fuel);
        SameRelated(o2.a, p.a, f.consts, w1, s2);
        NormalMade(f, ends, o.used, p, At(Here(o)), s, w1, s2, fuel);
      case _ =>
        SameDoes(f, ends, o.used, o2, q, At(Here(o)), s, r, fuel);
        DoesLater(f, ends, o.used, q, p, At(Here(o)), s, r, fuel);
    }
  }

  // Both blocks leave their value in the same place, and the first one ends where the other one
  // comes back to.
  lemma StagesStacks(ctx: Context, o: Comp, typed: bool, yes: Code, other: Code, o1: Comp, o2: Comp, o3: Comp, o4: Comp)
    requires Stages(ctx, o, typed, yes, other, o1, o2, o3, o4) && LiveComp(o) && InContext(ctx, o.a)
    ensures o4.a.stack == o2.a.stack && SameFrame(o2.a, o4.a) && SameFrame(o1.a, o3.a) &&
            Here(LeaveElse(o4, o2.page)) == Here(o2)
  {
    StagesPages(ctx, o, typed, yes, other, o1, o2, o3, o4);
    hide Sound, OneInRegister, Patchable, InContext, NoneBelow, Laid, ScopesGrew, Stages, Reserved, CompileBlock;
    hide EnterIf, EnterElse, LiveComp, PermitsBlock;
    StagesGrow(ctx, o, typed, yes, other, o1, o2, o3, o4);
    LabelIs(IfBody, typed);
    LabelIs(ElseBody, typed);
    BlockTracks(ctx, o1, IfBody, typed, yes);
    BlockTracks(ctx, o3, ElseBody, typed, other);
    BlockGrows(o1, IfBody, typed, yes);
    BlockGrows(o3, ElseBody, typed, other);
    BlockStack(o1.a, o2.a, typed);
    BlockStack(o3.a, o4.a, typed);
  }

  lemma BlockStack(a: Alloc, b: Alloc, typed: bool)
    requires BlockLeaves(a, b, typed, |a.stack|) && |b.stack| == |a.stack| + Arity(typed)
    ensures b.stack == a.stack + (if typed then [REG0] else [])
  {
    assert b.stack == b.stack[..|a.stack|] + b.stack[|a.stack|..];
  }

  // The other block runs on its own page and jumps back.
  lemma {:induction false} NoDoes(f: Final, ends: seq<Pc>, ctx: Context, o: Comp, typed: bool, yes: Code, other: Code,
      o1: Comp, o2: Comp, o3: Comp, o4: Comp, w: World, s: State, s1: State, fuel: nat)
    requires Stages(ctx, o, typed, yes, other, o1, o2, o3, o4) && LiveComp(o) && InContext(ctx, o.a)
    requires Fits(f, LeaveElse(o4, o2.page), ends) && Related(o1.a, f.consts, w, s1)
    requires Leads(f.code, o.used, At(Here(o)), s, At(Here(o3)), s1)
    ensures Does(f, ends, o.used, LeaveElse(o4, o2.page), At(Here(o)), s,
            LeaveBlock(RunCode(other, w, fuel), |w.stack|, typed), fuel)
    decreases fuel, other, 4
  {
    hide *;
    StagesPages(ctx, o, typed, yes, other, o1, o2, o3, o4);
    StagesGrow(ctx, o, typed, yes, other, o1, o2, o3, o4);
    StagesFit(f, ends, ctx, o, typed, yes, other, o1, o2, o3, o4);
    StagesStacks(ctx, o, typed, yes, other, o1, o2, o3, o4);
    var p, r := LeaveElse(o4, o2.page), LeaveBlock(RunCode(other, w, fuel), |w.stack|, typed);
    JumpLine(o4, o2.page);
    FitsParts(f, o3, ends);
    FitsParts(f, o4, ends);
    StepsTo(o, o3, ctx);
    SameRelated(o1.a, o3.a, f.consts, w, s1);
    SupposedMade(f, ctx, o3, w, s1);
    BlockDoes(f, ends, ctx, o3, ElseBody, typed, other, w, s1, fuel);
    match r {
      case Normal(w1) =>
        var s2 := NormalParts(f, ends, o3.used, o4, At(Here(o3)), s1, w1, fuel);
        JumpSteps(f.code, Here(o4), Here(p), s2);
        Goes(f.code, o3.used, Here(o4), s2, Here(p), s2);
        GrownItself(o3.used);
        LeadsOn(f.code, o3.used, o3.used, At(Here(o3)), s1, At(Here(o4)), s2, At(Here(p)), s2);
        NormalMade(f, ends, o3.used, p, At(Here(o3)), s1, w1, s2, fuel);
      case _ => DoesLater(f, ends, o3.used, o4, p, At(Here(o3)), s1, r, fuel);
    }
    StepsTo(o, p, ctx);
    DoesOn(f, ends, o.used, o3.used, p, At(Here(o)), s, At(Here(o3)), s1, r, fuel);
  }

  lemma JumpSteps(code: Memory, at: Pc, pc: Pc, s: State)
    requires at in code && code[at] == Jump(To(pc))
    ensures StepAt(code, at, s) == Go(pc, s)
  {
  }

  lemma ElseStages(ctx: Context, o: Comp, typed: bool, yes: Code, other: Code, c: Check)
    returns (o1: Comp, o2: Comp, o3: Comp, o4: Comp)
    requires Formed(o) && PermitsInstr(o, If(typed, yes, Some(other))) &&
             CompileInstr(o, If(typed, yes, Some(other))).Some?
    requires CheckInstr(ctx, If(typed, yes, Some(other)), c).Some?
    ensures Stages(ctx, o, typed, yes, other, o1, o2, o3, o4)
    ensures CompileInstr(o, If(typed, yes, Some(other))).value == LeaveElse(o4, o2.page)
  {
    hide EnterIf, CompileBlock, EnterElse, LeaveElse, PermitsBlock, PermitsInstr, CompileInstr;
    o1, o2 := YesParts(o, typed, yes, Some(other));
    o3, o4 := NoParts(o, typed, yes, other, o1, o2);
    PermitsYes(o, typed, yes, Some(other));
    PermitsNo(o, typed, yes, other, o1, o2, o3);
  }

  lemma AloneStages(ctx: Context, o: Comp, typed: bool, yes: Code, c: Check) returns (o1: Comp, o2: Comp)
    requires Formed(o) && CompileInstr(o, If(typed, yes, None)).Some? && CheckInstr(ctx, If(typed, yes, None), c).Some?
    ensures EnterIf(o) == Some(o1) && CompileBlock(o1, IfBody, typed, yes) == Some(o2) && !typed &&
            ValidBlock(ctx, typed, typed, yes)
  {
    hide EnterIf, CompileBlock, CompileInstr;
    o1, o2 := YesParts(o, typed, yes, None);
  }

  lemma {:induction false} IfDoes(f: Final, ends: seq<Pc>, ctx: Context, o: Comp, typed: bool, yes: Code,
      no: Option<Code>, c: Check, w: World, s: State, fuel: nat)
    requires Supposed(f, ctx, o, w, s) && PermitsInstr(o, If(typed, yes, no)) && Tracks(o.a, c)
    requires CheckInstr(ctx, If(typed, yes, no), c).Some?
    requires CompileInstr(o, If(typed, yes, no)).Some? && Fits(f, CompileInstr(o, If(typed, yes, no)).value, ends)
    ensures Does(f, ends, o.used, CompileInstr(o, If(typed, yes, no)).value, At(Here(o)), s,
            RunInstr(If(typed, yes, no), w, fuel), fuel)
    decreases fuel, If(typed, yes, no), 1
  {
    hide *;
    SupposedParts(f, ctx, o, w, s);
    match no
    case None =>
      var o1, o2 := AloneStages(ctx, o, typed, yes, c);
      PermitsYes(o, typed, yes, None);
      IfWithoutElse(f, ends, ctx, o, yes, o1, o2, w, s, fuel);
    case Some(other) =>
      var o1, o2, o3, o4 := ElseStages(ctx, o, typed, yes, other, c);
      IfWithElse(f, ends, ctx, o, typed, yes, other, o1, o2, o3, o4, w, s, fuel);
  }

  lemma LoopParts(ctx: Context, o: Comp, typed: bool, body: Code, c: Check)
    requires Formed(o) && CompileInstr(o, Loop(typed, body)).Some? && CheckInstr(ctx, Loop(typed, body), c).Some?
    ensures Prepare(o).Some? && Formed(Prepare(o).value) && ValidBlock(ctx, false, typed, body)
    ensures var o2 := Emit(Prepare(o).value, LoopOp);
            Formed(o2) && CompileInstr(o, Loop(typed, body)) == CompileBlock(o2, LoopBody, typed, body)
    ensures Polymorphic(Prepare(o).value.a) == Polymorphic(o.a) && Prepare(o).value.page < |Prepare(o).value.used| &&
            o.page < |o.used|
    ensures CompileInstr(o, Loop(typed, body)).value.page < |CompileInstr(o, Loop(typed, body)).value.used|
  {
    hide Prepare, CompileBlock;
  }

  // The loop's address is the line after its operation, younger than everything before.
  lemma LoopEntered(o: Comp)
    requires Formed(o)
    ensures var p := Emit(o, LoopOp);
            && p.page < |p.used| && Here(o) in p.code && p.code[Here(o)] == LoopOp && !Pending(p.code[Here(o)])
            && Here(p) == After(Here(o)) && !Old(o.used, Here(p)) && p.a == o.a
  {
  }

  lemma PermitsBody(o: Comp, i: Instr)
    requires Formed(o) && Prepare(o).Some? && Formed(Prepare(o).value) && PermitsInstr(o, i)
    ensures i.Loop? ==> PermitsBlock(Emit(Prepare(o).value, LoopOp), LoopBody, i.typed, i.body)
    ensures i.Block? ==> PermitsBlock(Prepare(o).value, BlockOp, i.typed, i.body)
  {
    hide PermitsBlock, Prepare;
  }

  lemma SteadyOnes(o: Comp, o1: Comp)
    requires Built(o) && Built(o1) && OneInRegister(o.a) && OneInRegister(o1.a)
    ensures Steady(o.a) && Steady(o1.a) && |o.a.scopes| > 0 && |o1.a.scopes| > 0
  {
  }

  lemma {:induction false} LoopDoes(f: Final, ends: seq<Pc>, ctx: Context, o: Comp, typed: bool, body: Code, c: Check,
      w: World, s: State, fuel: nat)
    requires Supposed(f, ctx, o, w, s) && PermitsInstr(o, Loop(typed, body)) && Tracks(o.a, c)
    requires CheckInstr(ctx, Loop(typed, body), c).Some?
    requires CompileInstr(o, Loop(typed, body)).Some? && Fits(f, CompileInstr(o, Loop(typed, body)).value, ends)
    ensures Does(f, ends, o.used, CompileInstr(o, Loop(typed, body)).value, At(Here(o)), s,
            RunLoop(typed, body, w, fuel), fuel)
    decreases fuel, body, 4
  {
    hide *;
    SupposedParts(f, ctx, o, w, s);
    LoopParts(ctx, o, typed, body, c);
    PermitsBody(o, Loop(typed, body));
    PrepareGrows(o);
    var o1, q := Prepare(o).value, CompileInstr(o, Loop(typed, body)).value;
    var o2, r := Emit(o1, LoopOp), RunLoop(typed, body, w, fuel);
    EmitGrows(o1, LoopOp);
    LoopEntered(o1);
    SteadyOnes(o, o1);
    BlockGrows(o2, LoopBody, typed, body);
    FitsBefore(f, o2, q, ends);
    FitsBefore(f, o1, o2, ends);
    var s1 := PrepareLeads(f, ends, o, w, s);
    LineFits(f, o2, ends, Here(o1));
    ClearedRelated(o2.a, f.consts, w, s1);
    GrewOn(o1, o2, q);
    GrewOn(o, o1, q);
    StepsTo(o, o1, ctx);
    StepsTo(o1, o2, ctx);
    StepsTo(o1, q, ctx);
    StepsTo(o, q, ctx);
    Enters(f.code, o1.used, Here(o1), s1);
    SupposedMade(f, ctx, o2, w, s1.(r0 := 0));
    TurnsDo(f, ends, ctx, o1.used, o2, typed, body, w, s1.(r0 := 0), fuel);
    GrownItself(o1.used);
    DoesOn(f, ends, o1.used, o1.used, q, At(Here(o1)), s1, Turn(Here(o2)), s1.(r0 := 0), r, fuel);
    DoesOn(f, ends, o.used, o1.used, q, At(Here(o)), s, At(Here(o1)), s1, r, fuel);
  }

  lemma BlockParts(ctx: Context, o: Comp, typed: bool, body: Code, c: Check)
    requires Formed(o) && CompileInstr(o, Block(typed, body)).Some? && CheckInstr(ctx, Block(typed, body), c).Some?
    ensures Prepare(o).Some? && Formed(Prepare(o).value) && ValidBlock(ctx, typed, typed, body)
    ensures CompileInstr(o, Block(typed, body)) == CompileBlock(Prepare(o).value, BlockOp, typed, body)
    ensures |Prepare(o).value.a.scopes| > 0 && Polymorphic(Prepare(o).value.a) == Polymorphic(o.a)
    ensures Prepare(o).value.page < |Prepare(o).value.used|
    ensures CompileInstr(o, Block(typed, body)).value.page < |CompileInstr(o, Block(typed, body)).value.used|
  {
    hide Prepare, CompileBlock;
  }

  lemma {:induction false} EnteredDoes(f: Final, ends: seq<Pc>, ctx: Context, o: Comp, typed: bool, body: Code,
      c: Check, w: World, s: State, fuel: nat)
    requires Supposed(f, ctx, o, w, s) && PermitsInstr(o, Block(typed, body)) && Tracks(o.a, c)
    requires CheckInstr(ctx, Block(typed, body), c).Some?
    requires CompileInstr(o, Block(typed, body)).Some? && Fits(f, CompileInstr(o, Block(typed, body)).value, ends)
    ensures Does(f, ends, o.used, CompileInstr(o, Block(typed, body)).value, At(Here(o)), s,
            LeaveBlock(RunCode(body, w, fuel), |w.stack|, typed), fuel)
    decreases fuel, body, 4
  {
    hide *;
    SupposedParts(f, ctx, o, w, s);
    BlockParts(ctx, o, typed, body, c);
    PermitsBody(o, Block(typed, body));
    PrepareGrows(o);
    var o1, q, r := Prepare(o).value, CompileInstr(o, Block(typed, body)).value,
        LeaveBlock(RunCode(body, w, fuel), |w.stack|, typed);
    BlockGrows(o1, BlockOp, typed, body);
    FitsBefore(f, o1, q, ends);
    var s1 := PrepareLeads(f, ends, o, w, s);
    SteadyOnes(o, o1);
    StepsTo(o, o1, ctx);
    SupposedMade(f, ctx, o1, w, s1);
    BlockDoes(f, ends, ctx, o1, BlockOp, typed, body, w, s1, fuel);
    GrewOn(o, o1, q);
    StepsTo(o, q, ctx);
    DoesOn(f, ends, o.used, o1.used, q, At(Here(o)), s, At(Here(o1)), s1, r, fuel);
  }

  lemma BrIfDoes(f: Final, ends: seq<Pc>, ctx: Context, o: Comp, depth: nat, c: Check, w: World, s: State, fuel: nat)
    requires Supposed(f, ctx, o, w, s) && Tracks(o.a, c) && CheckInstr(ctx, BrIf(depth), c).Some?
    requires CompileBrIf(o, depth).Some? && Fits(f, CompileBrIf(o, depth).value, ends)
    ensures Does(f, ends, o.used, CompileBrIf(o, depth).value, At(Here(o)), s, RunInstr(BrIf(depth), w, fuel), fuel)
  {
    hide Placed, Counted, Pooled, Bounded, OneInRegister, Patchable, Exits, Fits, Furnished;
    if o.a.scopes[depth].opcode == LoopBody {
      BrIfToLoop(f, ends, o, depth, w, s, fuel);
    } else {
      assert ctx.labels[depth] == o.a.scopes[depth].typed;
      BrIfToEnd(f, ends, o, depth, w, s, fuel);
    }
  }

  lemma {:induction false} InstrDoes(f: Final, ends: seq<Pc>, ctx: Context, o: Comp, i: Instr, c: Check, w: World,
      s: State, fuel: nat)
    requires Supposed(f, ctx, o, w, s) && PermitsInstr(o, i) && Tracks(o.a, c)
    requires CompileInstr(o, i).Some? && CheckInstr(ctx, i, c).Some? && Fits(f, CompileInstr(o, i).value, ends)
    ensures Does(f, ends, o.used, CompileInstr(o, i).value, At(Here(o)), s, RunInstr(i, w, fuel), fuel)
    decreases fuel, i, 2
  {
    SupposedParts(f, ctx, o, w, s);
    hide Sound, OneInRegister, Patchable, Leads, Exits, Grew, InContext, LoopsOld, NoneBelow, Fits, Agree, Furnished;
    hide Tracks, PermitsBlock, Does;
    match i
    case Basic(p) => BasicDoes(f, ends, o, p, w, s, fuel);
    case Block(typed, body) => EnteredDoes(f, ends, ctx, o, typed, body, c, w, s, fuel);
    case Loop(typed, body) => LoopDoes(f, ends, ctx, o, typed, body, c, w, s, fuel);
    case If(typed, yes, no) => IfDoes(f, ends, ctx, o, typed, yes, no, c, w, s, fuel);
    case Br(depth) => BrDoes(f, ends, o, depth, w, s, fuel);
    case BrIf(depth) => BrIfDoes(f, ends, ctx, o, depth, c, w, s, fuel);
  }
}
