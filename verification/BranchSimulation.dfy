// Running compiled branches: to the end of a block, with the block's value in the register, and back
// to a loop (kernel/wasm3/source/m3_compile.c:1171-1260; m3_exec.h:540-600).
module BranchSimulation {
  import opened WasmValues
  import opened WasmSemantics
  import opened Wrappers
  import opened ThreadedMachine
  import opened MachineRuns
  import opened SlotAllocator
  import opened PlainInvariants
  import opened PlainSimulation
  import opened ControlCompile
  import opened ControlStructure
  import opened ControlHeights
  import opened ControlOutcomes
  import opened BlockSimulation

  lemma RelatedUnwound(a: Alloc, b: Alloc, height: nat, consts: seq<Word>, w: World, s: State)
    requires Related(a, consts, w, s) && SameFrame(a, b) && b.stack == a.stack && b.consts <= consts
    requires a.numLocals <= height <= |a.stack|
    ensures Unwound(b, height, consts, w, s)
  {
  }

  // Within the block being compiled, in reachable code.
  lemma ScopeHeight(a: Alloc, depth: nat)
    requires Sound(a) && depth < |a.scopes|
    ensures a.numLocals <= a.scopes[depth].init <= a.scopes[0].init <= |a.stack|
  {
  }

  lemma MoveTop(a: Alloc, consts: seq<Word>, w: World, s: State)
    requires Live(a) && MoveTopToRegister(a).Some? && Related(MoveTopToRegister(a).value.alloc, consts, w, s)
    ensures |a.stack| > a.scopes[0].init && |w.stack| > 0 && Register(s) == Operand(w, 0)
    ensures InRegister(MoveTopToRegister(a).value.alloc, 0)
  {
    hide Counted;
    if InRegister(a, 0) {
      assert a.stack[|a.stack| - 1] == REG0;
    }
    MoveLeaves(a);
    MoveKeeps(a);
    var b := MoveTopToRegister(a).value.alloc;
    MoveHeight(a);
    assert Held(b.stack[|b.stack| - 1], s) == (w.locals + w.stack)[|b.stack| - 1];
    assert a.numLocals <= a.scopes[0].init;
    assert (w.locals + w.stack)[|b.stack| - 1] == Operand(w, 0);
  }

  lemma Aims(f: Final, o: Comp, ends: seq<Pc>, depth: nat, loc: Pc)
    requires Fits(f, o, ends) && depth < |o.a.scopes| && loc in o.a.scopes[depth].patches && loc in o.code &&
             Pending(o.code[loc])
    ensures |ends| == |o.a.scopes| && loc in f.code && f.code[loc] == Retarget(o.code[loc], To(ends[depth]))
  {
  }

  lemma BrToLoop(f: Final, ends: seq<Pc>, o: Comp, depth: nat, w: World, s: State)
    requires LiveComp(o) && Related(o.a, f.consts, w, s) && CompileBr(o, depth).Some? &&
             o.a.scopes[depth].opcode == LoopBody
    requires Fits(f, CompileBr(o, depth).value, ends)
    ensures Exits(f, ends, o.used, CompileBr(o, depth).value.a, At(Here(o)), s, depth, w)
  {
    hide Placed, Counted, Pooled, Bounded, Settled, OneInRegister, Patchable, Related;
    var p := CompileBr(o, depth).value;
    ScopeHeight(o.a, depth);
    LineFits(f, p, ends, Here(o));
    Leaves(f.code, Here(o), s, Again(o.a.scopes[depth].pc, s));
    RelatedUnwound(o.a, p.a, o.a.scopes[depth].init, f.consts, w, s);
    assert ToLoop(f, p.a, depth, w, At(Here(o)), s, s);
  }

  lemma BrParts(o: Comp, depth: nat) returns (m: Out, o1: Comp, o2: Comp)
    requires Formed(o) && CompileBr(o, depth).Some? && o.a.scopes[depth].opcode != LoopBody && !Polymorphic(o.a)
    ensures o.page < |o.used| && depth < |o.a.scopes|
    ensures if o.a.scopes[depth].typed then MoveTopToRegister(o.a) == Some(m) else m == Out(o.a, [])
    ensures o1 == EmitOut(o, m) && Formed(o1) && o1.page < |o1.used| && o1.a == m.alloc && m.alloc.scopes == o.a.scopes
    ensures o2 == o1.(a := MarkPolymorphic(o1.a)) && Formed(o2) && Here(o2) == Here(o1) && |o2.a.scopes| == |o.a.scopes|
    ensures var p := CompileBr(o, depth).value;
            && p == EmitForward(o2, depth, Jump(Open)) && p.a.stack == m.alloc.stack && SameFrame(m.alloc, p.a)
            && depth < |p.a.scopes| && p.a.scopes[depth].patches != [] && Here(o1) in p.a.scopes[depth].patches
            && Here(o1) in p.code && p.code[Here(o1)] == Jump(Open) && Pending(p.code[Here(o1)])
            && p.a.scopes[depth].(patches := [], polymorphic := true) ==
              o.a.scopes[depth].(patches := [], polymorphic := true)
  {
    hide MoveTopToRegister, EmitAll, Place;
    m := if o.a.scopes[depth].typed then MoveTopToRegister(o.a).value else Out(o.a, []);
    o1 := EmitOut(o, m);
    o2 := o1.(a := MarkPolymorphic(o1.a));
  }

  // The value that goes with the branch is in the register.
  lemma BrValue(consts: seq<Word>, o: Comp, depth: nat, m: Out, w: World, s: State)
    requires Live(o.a) && Related(o.a, consts, w, s) && depth < |o.a.scopes|
    requires if o.a.scopes[depth].typed then MoveTopToRegister(o.a) == Some(m) else m == Out(o.a, [])
    ensures Sound(m.alloc) && Kept(o.a, m.alloc) && |m.alloc.stack| == |o.a.stack| && PerformAll(m.ops, s).Next?
    ensures Related(m.alloc, consts, w, PerformAll(m.ops, s).state) && m.alloc.numLocals == o.a.numLocals
    ensures o.a.scopes[depth].typed ==> |w.stack| > 0 && Register(PerformAll(m.ops, s).state) == Operand(w, 0)
  {
    hide Placed, Counted, Settled, OneInRegister, Related;
    if o.a.scopes[depth].typed {
      MoveKeeps(o.a);
      MoveRelated(o.a, consts, w, s);
      MoveHeight(o.a);
      MoveTop(o.a, consts, w, PerformAll(m.ops, s).state);
    }
  }

  lemma MarkFits(f: Final, o: Comp, ends: seq<Pc>)
    requires |o.a.scopes| > 0 && Fits(f, o.(a := MarkPolymorphic(o.a)), ends)
    ensures Fits(f, o, ends)
  {
    hide Completes;
    assert forall j :: 0 <= j < |o.a.scopes| ==> MarkPolymorphic(o.a).scopes[j].patches == o.a.scopes[j].patches;
  }

  lemma BrToEnd(f: Final, ends: seq<Pc>, o: Comp, depth: nat, w: World, s: State)
    requires LiveComp(o) && Related(o.a, f.consts, w, s) && CompileBr(o, depth).Some? &&
             o.a.scopes[depth].opcode != LoopBody
    requires Fits(f, CompileBr(o, depth).value, ends)
    ensures Exits(f, ends, o.used, CompileBr(o, depth).value.a, At(Here(o)), s, depth, w)
  {
    hide *;
    LiveParts(o);
    var m, o1, o2 := BrParts(o, depth);
    var p, scope := CompileBr(o, depth).value, o.a.scopes[depth];
    ScopeHeight(o.a, depth);
    BrValue(f.consts, o, depth, m, w, s);
    var s1 := PerformAll(m.ops, s).state;
    OutGrows(o, m);
    MarkGrows(o1);
    JumpPends();
    ForwardGrows(o2, depth, Jump(Open));
    FitsBefore(f, o2, p, ends);
    MarkFits(f, o1, ends);
    OutLeads(f, ends, o, m, s);
    Aims(f, p, ends, depth, Here(o1));
    JumpGoes(f.code, Here(o1), ends[depth], s1);
    Goes(f.code, o1.used, Here(o1), s1, ends[depth], s1);
    GrewParts(o, o1);
    FitsParts(f, p, ends);
    LeadsOn(f.code, o.used, o1.used, At(Here(o)), s, At(Here(o1)), s1, At(ends[depth]), s1);
    RelatedUnwound(m.alloc, p.a, scope.init, f.consts, w, s1);
    EndExits(f, ends, o.used, p.a, At(Here(o)), s, depth, w, s1);
  }

  lemma JumpPends()
    ensures Pending(Jump(Open))
  {
  }

  lemma JumpGoes(code: Memory, at: Pc, pc: Pc, s: State)
    requires at in code && code[at] == Retarget(Jump(Open), To(pc))
    ensures StepAt(code, at, s) == Go(pc, s)
  {
  }

  // The exit to a block that a state reached makes.
  lemma EndExits(f: Final, ends: seq<Pc>, used: seq<nat>, a: Alloc, from: Start, s: State, depth: nat, w: World,
                 s1: State)
    requires depth < |a.scopes| && depth < |ends| && a.scopes[depth].opcode != LoopBody && a.scopes[depth].patches != []
    requires Unwound(a, a.scopes[depth].init, f.consts, w, s1)
    requires a.scopes[depth].typed && |w.stack| > 0 ==> Register(s1) == Operand(w, 0)
    requires Leads(f.code, used, from, s, At(ends[depth]), s1)
    ensures Exits(f, ends, used, a, from, s, depth, w)
  {
    hide Unwound, Leads;
    assert ToEnd(f, ends[depth], used, a, depth, w, from, s, s1);
  }

  lemma BrDoes(f: Final, ends: seq<Pc>, o: Comp, depth: nat, w: World, s: State, fuel: nat)
    requires LiveComp(o) && Related(o.a, f.consts, w, s) && CompileBr(o, depth).Some?
    requires Fits(f, CompileBr(o, depth).value, ends)
    ensures Does(f, ends, o.used, CompileBr(o, depth).value, At(Here(o)), s, Branch(depth, w), fuel)
  {
    hide Exits, Related, Fits, Sound, OneInRegister, Laid, Patchable;
    if o.a.scopes[depth].opcode == LoopBody {
      BrToLoop(f, ends, o, depth, w, s);
    } else {
      BrToEnd(f, ends, o, depth, w, s);
    }
  }

  lemma ReturnsVia(code: Memory, used: seq<nat>, from: Start, s: State, to: Start, s1: State, r: Returned)
    requires Leads(code, used, from, s, to, s1) && Returns(code, to, s1, r) && Outside(used, r)
    ensures Returns(code, from, s, r)
  {
  }

  lemma BrIfToLoop(f: Final, ends: seq<Pc>, o: Comp, depth: nat, w: World, s: State, fuel: nat)
    requires LiveComp(o) && Related(o.a, f.consts, w, s) && CompileBrIf(o, depth).Some? &&
             o.a.scopes[depth].opcode == LoopBody
    requires Fits(f, CompileBrIf(o, depth).value, ends)
    ensures Does(f, ends, o.used, CompileBrIf(o, depth).value, At(Here(o)), s, RunInstr(BrIf(depth), w, fuel), fuel)
  {
    hide Placed, Counted, Settled, OneInRegister, Patchable, Related, Kept, Leads, Fits;
    var p, scope, m := CompileBrIf(o, depth).value, o.a.scopes[depth], MoveTopToRegister(o.a).value;
    var b := PopTop(m.alloc).value;
    ScopeHeight(o.a, depth);
    MoveKeeps(o.a);
    MoveRelated(o.a, f.consts, w, s);
    var s1 := PerformAll(m.ops, s).state;
    MoveTop(o.a, f.consts, w, s1);
    PopRelated(m.alloc, f.consts, w, s1);
    Pops(m.alloc);
    KeptOn(o.a, m.alloc, b);
    OutGrows(o, Out(b, m.ops));
    var o1 := EmitOut(o, Out(b, m.ops));
    EmitGrows(o1, ContinueLoopIf(scope.pc));
    FitsBefore(f, o1, p, ends);
    OutLeads(f, ends, o, Out(b, m.ops), s);
    LineFits(f, p, ends, Here(o1));
    FitsParts(f, p, ends);
    if Operand(w, 0) != 0 {
      Leaves(f.code, Here(o1), s1, Again(scope.pc, s1));
      ReturnsVia(f.code, o.used, At(Here(o)), s, At(Here(o1)), s1, Again(scope.pc, s1));
      BelowTop(o.a, m.alloc, b, depth, f.consts, w, s1);
      assert ToLoop(f, p.a, depth, Pop(w, 1), At(Here(o)), s, s1);
    } else {
      Goes(f.code, o1.used, Here(o1), s1, Here(p), s1);
      LeadsOn(f.code, o.used, o1.used, At(Here(o)), s, At(Here(o1)), s1, At(Here(p)), s1);
      assert Arrives(f, o.used, p, At(Here(o)), s, Pop(w, 1), s1);
    }
  }

  // After the condition is popped the operands below the branch's block are still where they were.
  lemma BelowTop(a: Alloc, m: Alloc, b: Alloc, depth: nat, consts: seq<Word>, w: World, s: State)
    requires Sound(a) && depth < |a.scopes| && Kept(a, m) && Sound(m) && PopTop(m) == Some(b)
    requires |w.stack| > 0 && Related(b, consts, Pop(w, 1), s) && Kept(m, b)
    ensures Unwound(b, a.scopes[depth].init, consts, Pop(w, 1), s)
  {
    hide Placed, Counted, Pooled, Bounded;
    ScopeHeight(a, depth);
    RelatedUnwound(b, b, a.scopes[depth].init, consts, Pop(w, 1), s);
  }

  // The register does not hold an operand below the block.
  lemma UnwoundSet(a: Alloc, height: nat, consts: seq<Word>, w: World, s: State, v: Word)
    requires Unwound(a, height, consts, w, s) && OneInRegister(a) && Registered(a) && height <= a.scopes[0].init
    ensures Unwound(a, height, consts, w, SetR0(s, true, v)) && Register(SetR0(s, true, v)) == v
  {
    WrapSigned(v);
    forall i | 0 <= i < height ensures Held(a.stack[..height][i], SetR0(s, true, v)) == Held(a.stack[..height][i], s) {
      assert a.stack[..height][i] == a.stack[i];
    }
  }

  // What the branch operation does in the machine.
  lemma BranchSteps(a: Alloc, b: Alloc, typed: bool, pc: Pc, next: Pc, s: State, condition: Word, value: Word)
    requires Readable(TopSlot(a), s) && Held(TopSlot(a), s) == condition && (InRegister(a, 0) <==> TopSlot(a) == REG0)
    requires typed ==>
               Readable(TopSlot(b), s) && Held(TopSlot(b), s) == value && (InRegister(b, 0) <==> TopSlot(b) == REG0)
    requires !(InRegister(a, 0) && InRegister(b, 0))
    ensures var m := Step(Retarget(BranchOperation(a, b, typed), To(pc)), next, s);
            if condition == 0 then m == Go(next, s)
            else m == Go(pc, if typed && !InRegister(b, 0) then SetR0(s, true, value) else s)
  {
  }

  lemma BrIfLine(f: Final, ends: seq<Pc>, o: Comp, depth: nat, w: World, s: State)
    requires LiveComp(o) && Related(o.a, f.consts, w, s) && CompileBrIf(o, depth).Some? &&
             o.a.scopes[depth].opcode != LoopBody
    requires Fits(f, CompileBrIf(o, depth).value, ends)
    requires o.a.scopes[depth].typed ==> |w.stack| > 1 && |o.a.stack| > o.a.scopes[0].init + 1
    ensures |w.stack| > 0 && depth < |ends| && Sound(PopTop(o.a).value) && Kept(o.a, PopTop(o.a).value)
    ensures OneInRegister(PopTop(o.a).value) && Related(PopTop(o.a).value, f.consts, Pop(w, 1), s)
    ensures var b, typed := PopTop(o.a).value, o.a.scopes[depth].typed;
            var m := StepAt(f.code, Here(o), s);
            if Operand(w, 0) == 0 then m == Go(After(Here(o)), s)
            else m == Go(ends[depth], if typed && !InRegister(b, 0) then SetR0(s, true, Operand(w, 1)) else s)
    ensures o.a.scopes[depth].typed && InRegister(PopTop(o.a).value, 0) ==> Register(s) == Operand(w, 1)
  {
    hide Placed, Counted, Settled, OneInRegister, Patchable, Related, Kept, Fits;
    var p, scope := CompileBrIf(o, depth).value, o.a.scopes[depth];
    var b, op := PopTop(o.a).value, BranchOperation(o.a, PopTop(o.a).value, o.a.scopes[depth].typed);
    PopRelated(o.a, f.consts, w, s);
    Pops(o.a);
    AllocGrows(o, b);
    ForwardGrows(o.(a := b), depth, op);
    Aims(f, p, ends, depth, Here(o));
    if scope.typed {
      SecondOperand(o.a, b, f.consts, w, s);
      assert Operand(Pop(w, 1), 0) == Operand(w, 1);
    }
    NotBoth(o.a, b);
    BranchSteps(o.a, b, scope.typed, ends[depth], After(Here(o)), s, Operand(w, 0),
        if scope.typed then Operand(w, 1) else 0);
  }

  lemma BrIfToEnd(f: Final, ends: seq<Pc>, o: Comp, depth: nat, w: World, s: State, fuel: nat)
    requires LiveComp(o) && Related(o.a, f.consts, w, s) && CompileBrIf(o, depth).Some? &&
             o.a.scopes[depth].opcode != LoopBody
    requires Fits(f, CompileBrIf(o, depth).value, ends)
    requires o.a.scopes[depth].typed ==> |w.stack| > 1 && |o.a.stack| > o.a.scopes[0].init + 1
    ensures Does(f, ends, o.used, CompileBrIf(o, depth).value, At(Here(o)), s, RunInstr(BrIf(depth), w, fuel), fuel)
  {
    hide *;
    LiveParts(o);
    BrIfLine(f, ends, o, depth, w, s);
    BrIfShape(o, depth);
    BrIfOutcome(depth, w, fuel);
    var p, scope, b, w1 := CompileBrIf(o, depth).value, o.a.scopes[depth], PopTop(o.a).value, Pop(w, 1);
    FitsParts(f, p, ends);
    if Operand(w, 0) != 0 {
      var s1 := if scope.typed && !InRegister(b, 0) then SetR0(s, true, Operand(w, 1)) else s;
      Goes(f.code, o.used, Here(o), s, ends[depth], s1);
      KeptItself(o.a);
      BelowTop(o.a, o.a, b, depth, f.consts, w, s);
      ScopeHeight(o.a, depth);
      ValidPartsOf(b);
      if scope.typed && !InRegister(b, 0) {
        UnwoundSet(b, scope.init, f.consts, w1, s, Operand(w, 1));
      }
      SameUnwound(b, p.a, scope.init, f.consts, w1, s1);
      SecondIs(w);
      EndExits(f, ends, o.used, p.a, At(Here(o)), s, depth, w1, s1);
      BranchIs(f, ends, o.used, p, At(Here(o)), s, depth, w1, fuel);
    } else {
      Goes(f.code, o.used, Here(o), s, Here(p), s);
      SameRelated(b, p.a, f.consts, w1, s);
      NormalMade(f, ends, o.used, p, At(Here(o)), s, w1, s, fuel);
    }
  }

  lemma BrIfShape(o: Comp, depth: nat)
    requires Formed(o) && CompileBrIf(o, depth).Some? && o.a.scopes[depth].opcode != LoopBody
    ensures PopTop(o.a).Some? && o.page < |o.used|
    ensures var p, b := CompileBrIf(o, depth).value, PopTop(o.a).value;
            && p.page < |p.used| && Here(p) == After(Here(o)) && SameFrame(b, p.a) && p.a.stack == b.stack
            && p.a.consts == b.consts && b.scopes == o.a.scopes && |p.a.scopes| == |o.a.scopes| > 0 &&
              depth < |o.a.scopes|
            && p.a.scopes[depth].(patches := []) == o.a.scopes[depth].(patches := [])
            && p.a.scopes[depth].patches != [] && Polymorphic(p.a) == Polymorphic(o.a)
  {
  }

  lemma BrIfOutcome(depth: nat, w: World, fuel: nat)
    requires |w.stack| > 0
    ensures RunInstr(BrIf(depth), w, fuel) == if Operand(w, 0) != 0 then Branch(depth, Pop(w, 1)) else Normal(Pop(w, 1))
  {
  }

  lemma SecondIs(w: World)
    requires |w.stack| > 0
    ensures |Pop(w, 1).stack| == |w.stack| - 1 && (|w.stack| > 1 ==> Operand(Pop(w, 1), 0) == Operand(w, 1))
  {
  }

  lemma ValidPartsOf(a: Alloc)
    requires Sound(a)
    ensures Registered(a) && Valid(a)
  {
  }

  lemma SameUnwound(a: Alloc, b: Alloc, height: nat, consts: seq<Word>, w: World, s: State)
    requires Unwound(a, height, consts, w, s) && SameFrame(a, b) && b.stack == a.stack && b.consts == a.consts
    ensures Unwound(b, height, consts, w, s)
  {
  }

  lemma SecondOperand(a: Alloc, b: Alloc, consts: seq<Word>, w: World, s: State)
    requires Live(a) && PopTop(a) == Some(b) && |w.stack| > 1 && |a.stack| > a.scopes[0].init + 1
    requires Related(b, consts, Pop(w, 1), s)
    ensures Held(TopSlot(b), s) == Operand(Pop(w, 1), 0) && Readable(TopSlot(b), s) &&
            (InRegister(b, 0) <==> TopSlot(b) == REG0)
  {
    Pops(a);
    assert PopTop(b).Some?;
    PopRelated(b, consts, Pop(w, 1), s);
  }

  lemma NotBoth(a: Alloc, b: Alloc)
    requires Sound(a) && OneInRegister(a) && PopTop(a) == Some(b) && !Polymorphic(a)
    ensures !(InRegister(a, 0) && InRegister(b, 0))
  {
    OnlyOne(a);
  }
}
