// Running what is compiled for instructions without control flow, and for the beginning and the end
// of blocks (kernel/wasm3/source/m3_compile.c:386-426, 1533-1570, 2200-2265).
module BlockSimulation {
  import opened WasmValues
  import opened WasmSemantics
  import opened Wrappers
  import opened WasmValidation
  import opened ThreadedMachine
  import opened MachineRuns
  import opened SlotAllocator
  import opened PlainCompile
  import opened PlainInvariants
  import opened PlainSimulation
  import opened ControlCompile
  import opened ControlGuards
  import opened ControlStructure
  import opened ControlOutcomes

  // ---------------------------------------------------------------------------------
  // Operations without control flow.

  lemma OutLeads(f: Final, ends: seq<Pc>, o: Comp, out: Out, s: State)
    requires Built(o) && Sound(out.alloc) && Kept(o.a, out.alloc) && Fits(f, EmitOut(o, out), ends)
    ensures var r := PerformAll(out.ops, s);
            && (r.Next? ==> Leads(f.code, o.used, At(Here(o)), s, At(Here(EmitOut(o, out))), r.state))
            && (r.Fault? ==> Returns(f.code, At(Here(o)), s, Died(r.trap, r.at)))
  {
    hide Sound, Patchable, Grew, Fits, Leads;
    OutGrows(o, out);
    HoldsFinally(f, EmitOut(o, out), ends, Here(o), out.ops);
    PerformLeads(f.code, o.used, Here(o), out.ops, s);
  }

  lemma BasicDoes(f: Final, ends: seq<Pc>, o: Comp, p: Plain, w: World, s: State, fuel: nat)
    requires LiveComp(o) && Related(o.a, f.consts, w, s) && CompileInstr(o, Basic(p)).Some? && Shields(o.a, p)
    requires Fits(f, CompileInstr(o, Basic(p)).value, ends)
    ensures Does(f, ends, o.used, CompileInstr(o, Basic(p)).value, At(Here(o)), s, RunPlain(p, w), fuel)
  {
    hide Placed, Counted, Pooled, Settled, OneInRegister, Laid, Patchable, Related, Leads, Completes, Aimed;
    var q, out := CompileInstr(o, Basic(p)).value, CompilePlain(o.a, p).value;
    PlainKeeps(o.a, p);
    PlainRelated(o.a, p, f.consts, w, s);
    OutLeads(f, ends, o, out, s);
    match RunPlain(p, w)
    case Normal(w1) => assert Arrives(f, o.used, q, At(Here(o)), s, w1, PerformAll(out.ops, s).state);
    case Trapping(t, w1) => assert Dies(f, At(Here(o)), s, t, w1, PerformAll(out.ops, s).at);
    case _ => PlainOutcomes(p, w);
  }

  lemma PlainOutcomes(p: Plain, w: World)
    ensures var r := RunPlain(p, w); r.Normal? || r.Trapping? || r.Stuck?
  {
  }

  lemma MoveRelated(a: Alloc, consts: seq<Word>, w: World, s: State)
    requires Related(a, consts, w, s) && Live(a) && MoveTopToRegister(a).Some?
    ensures var m := MoveTopToRegister(a).value;
            var r := PerformAll(m.ops, s);
            r.Next? && Related(m.alloc, consts, w, r.state) && Live(m.alloc)
  {
    hide Placed, Counted, Pooled, Settled, OneInRegister, Related;
    if !InRegister(a, 0) {
      Preserves(a);
      PreserveRelated(a, consts, w, s);
      var p := PreserveRegister(a).value;
      var s1 := PerformAll(p.ops, s).state;
      PopRelated(p.alloc, consts, w, s1);
      Pops(p.alloc);
      var b, v := PopTop(p.alloc).value, Operand(w, 0);
      FreeRegister(p.alloc);
      ResultRelated(Out(b, p.ops), SetRegister(TopSlot(p.alloc)), consts, Pop(w, 1), s, true, Value(v));
      assert Push(Pop(w, 1), v) == w;
    }
  }

  // Copying a slot for the operands that refer to it.
  lemma CopyRelated(a: Alloc, slot: nat, consts: seq<Word>, w: World, s: State)
    requires Related(a, consts, w, s) && Live(a) && slot < a.firstConst
    requires Shielded(a, slot) && FindReferenced(a, slot).Some?
    ensures var c := FindReferenced(a, slot).value;
            var ops := if c.slot != slot then [CopySlot(c.slot, slot)] else [];
            var r := PerformAll(ops, s);
            r.Next? && Related(c.alloc, consts, w, r.state) && Live(c.alloc)
  {
    hide Placed, Counted, Bounded, Settled, OneInRegister, SearchStart, Uses, SameShape;
    FindKeeps(a, slot);
    var c := FindReferenced(a, slot).value;
    if c.slot != slot {
      FreeSlot(a);
      PerformOne(CopySlot(c.slot, slot), s);
      var s1, vals := Put(s, c.slot, s.slots[slot]), w.locals + w.stack;
      forall i | 0 <= i < |a.stack| ensures Held(c.alloc.stack[i], s1) == vals[i] {
        assert Held(a.stack[i], s) == vals[i] && a.stack[i] in a.stack;
      }
    }
  }

  lemma {:induction false} LocalsFromRelated(a: Alloc, i: nat, consts: seq<Word>, w: World, s: State)
    requires Related(a, consts, w, s) && Live(a) && PreserveLocalsFrom(a, i).Some?
    requires NoneBelow(a, i) && i <= a.numLocals
    ensures var p := PreserveLocalsFrom(a, i).value;
            var r := PerformAll(p.ops, s);
            r.Next? && Related(p.alloc, consts, w, r.state)
    decreases a.numLocals - i
  {
    hide Counted, OneInRegister, FindReferenced, NoneBelow, Related;
    if i < a.numLocals {
      CopyRelated(a, i, consts, w, s);
      LocalKeeps(a, i);
      var c := FindReferenced(a, i).value;
      var ops := if c.slot != i then [CopySlot(c.slot, i)] else [];
      LocalsFromRelated(c.alloc, i + 1, consts, w, PerformAll(ops, s).state);
      PerformAppend(ops, PreserveLocalsFrom(c.alloc, i + 1).value.ops, s);
    }
  }

  lemma LocalsRelated(a: Alloc, consts: seq<Word>, w: World, s: State)
    requires Related(a, consts, w, s) && Live(a) && PreserveLocals(a).Some?
    ensures var p := PreserveLocals(a).value;
            var r := PerformAll(p.ops, s);
            r.Next? && Related(p.alloc, consts, w, r.state)
  {
    if |a.stack| > a.numLocals {
      LocalsFromRelated(a, 0, consts, w, s);
    }
  }

  // ---------------------------------------------------------------------------------
  // Before and after a block.

  // Emptying the register in some way and then giving the references to locals slots.
  lemma SettleLeads(f: Final, ends: seq<Pc>, o: Comp, m: Out, w: World, s: State) returns (s1: State)
    requires LiveComp(o) && Keeps(o.a, m.alloc) && Live(m.alloc) && PerformAll(m.ops, s).Next?
    requires Related(m.alloc, f.consts, w, PerformAll(m.ops, s).state) && PreserveLocals(m.alloc).Some?
    requires Fits(f, EmitOut(EmitOut(o, m), PreserveLocals(m.alloc).value), ends)
    ensures var o2 := EmitOut(EmitOut(o, m), PreserveLocals(m.alloc).value);
            && Built(o2) && Keeps(o.a, o2.a) && Related(o2.a, f.consts, w, s1) && |o2.a.stack| == |m.alloc.stack|
            && Leads(f.code, o.used, At(Here(o)), s, At(Here(o2)), s1)
  {
    hide Placed, Counted, Settled, OneInRegister, Patchable, Related, Leads, Fits, NoneBelow, Kept;
    OutGrows(o, m);
    AllocGrows(o, m.alloc);
    LocalsKeep(m.alloc);
    var q, o1 := PreserveLocals(m.alloc).value, EmitOut(o, m);
    KeptOn(o.a, m.alloc, q.alloc);
    var o2 := EmitOut(o1, q);
    OutGrows(o1, q);
    FitsBefore(f, o1, o2, ends);
    OutLeads(f, ends, o, m, s);
    var s0 := PerformAll(m.ops, s).state;
    LocalsRelated(m.alloc, f.consts, w, s0);
    OutLeads(f, ends, o1, q, s0);
    s1 := PerformAll(q.ops, s0).state;
    LeadsOn(f.code, o.used, o1.used, At(Here(o)), s, At(Here(o1)), s0, At(Here(o2)), s1);
  }

  lemma PrepareLeads(f: Final, ends: seq<Pc>, o: Comp, w: World, s: State) returns (s1: State)
    requires LiveComp(o) && Related(o.a, f.consts, w, s) && Prepare(o).Some?
    requires Fits(f, Prepare(o).value, ends)
    ensures Related(Prepare(o).value.a, f.consts, w, s1)
    ensures Leads(f.code, o.used, At(Here(o)), s, At(Here(Prepare(o).value)), s1)
  {
    hide Placed, Counted, Settled, OneInRegister, Patchable, Related, Leads, Fits, NoneBelow;
    Preserves(o.a);
    PreserveRelated(o.a, f.consts, w, s);
    s1 := SettleLeads(f, ends, o, PreserveRegister(o.a).value, w, s);
  }

  lemma FilledTwice(op: Op, mid: Op, filled: Op, pc: Pc)
    requires Pending(op) && mid == Retarget(op, To(pc)) && Fills(mid, filled)
    ensures filled == mid && Fills(op, filled) && HasTarget(filled) && TargetOf(filled) == To(pc)
  {
  }

  // Inside a block, branches to it are to be filled in with its end.
  lemma FitsInside(f: Final, ends: seq<Pc>, p: Comp)
    requires Built(p) && |p.a.scopes| > 1
    requires var q := p.(code := PatchAll(p.code, p.a.scopes[0].patches, Here(p)),
             a := p.a.(scopes := p.a.scopes[1..]));
             Fits(f, q, ends)
    ensures Fits(f, p, [Here(p)] + ends)
  {
    hide Sound, Fills, Pending, HasTarget, TargetOf, Retarget;
    var patches := p.a.scopes[0].patches;
    var code := PatchAll(p.code, patches, Here(p));
    PatchAllDoes(p.code, patches, Here(p));
    forall pc | pc in p.code ensures pc in f.code && Fills(p.code[pc], f.code[pc]) {
      assert pc in code && Fills(code[pc], f.code[pc]);
      if pc in patches {
        FilledTwice(p.code[pc], code[pc], f.code[pc], Here(p));
      }
    }
    forall j, loc | 0 <= j < |p.a.scopes| && loc in p.a.scopes[j].patches
      ensures loc in f.code && HasTarget(f.code[loc]) && TargetOf(f.code[loc]) == To(([Here(p)] + ends)[j])
    {
      if j > 0 {
        assert p.a.scopes[1..][j - 1] == p.a.scopes[j];
      } else {
        assert loc in code && Fills(code[loc], f.code[loc]);
        FilledTwice(p.code[loc], code[loc], f.code[loc], Here(p));
      }
    }
  }

  // The state of compilation at the end of a block that is entered at o and left at q.
  predicate Around(f: Final, ends: seq<Pc>, o: Comp, opcode: Opcode, typed: bool, p: Comp, q: Comp) {
    && Built(o) && NoReferences(o.a) && o.a.regIndexPlusOne == 0 && OneInRegister(o.a) && !Polymorphic(o.a)
    && Built(p) && Grew(EnterScope(o, opcode, typed), p) && p.page == o.page && Steady(p.a)
    && LeaveScope(p) == Some(q) && Fits(f, q, ends) && |q.a.stack| == |o.a.stack| + Arity(typed)
  }

  predicate SameFrame(a: Alloc, b: Alloc) {
    && b.numLocals == a.numLocals && b.firstConst == a.firstConst && b.firstDynamic == a.firstDynamic
    && b.mutables == a.mutables
  }

  lemma FrameOn(a: Alloc, b: Alloc, c: Alloc)
    requires SameFrame(a, b) && SameFrame(a, c)
    ensures SameFrame(b, c) && b.numLocals == a.numLocals && c.numLocals == a.numLocals
  {
  }

  lemma SameRelated(a: Alloc, b: Alloc, consts: seq<Word>, w: World, s: State)
    requires Related(a, consts, w, s) && SameFrame(a, b) && b.stack == a.stack && b.consts <= consts
    ensures Related(b, consts, w, s)
  {
  }

  lemma AroundParts(f: Final, ends: seq<Pc>, o: Comp, opcode: Opcode, typed: bool, p: Comp, q: Comp)
    requires Around(f, ends, o, opcode, typed, p, q)
    ensures Built(q) && Grew(o, q) && !Polymorphic(q.a) && OneInRegister(q.a) && q.page < |q.used|
    ensures Fits(f, p, [Here(q)] + ends) && Fits(f, EmitOut(p, ValidateEnd(p.a).value), [Here(q)] + ends)
    ensures Sound(ValidateEnd(p.a).value.alloc) && Kept(p.a, ValidateEnd(p.a).value.alloc)
    ensures |p.a.scopes| == |o.a.scopes| + 1 && p.a.scopes[0].init == |o.a.stack| && p.a.scopes[0].opcode == opcode
    ensures p.a.numLocals == o.a.numLocals
    ensures p.a.scopes[0].typed == typed && p.a.scopes[0].pc == Here(o)
    ensures |o.a.stack| <= |p.a.stack| && |o.a.stack| <= |q.a.stack|
    ensures p.a.stack[..|o.a.stack|] == o.a.stack == q.a.stack[..|o.a.stack|]
    ensures typed ==> q.a.stack == o.a.stack + [REG0]
    ensures !typed ==> q.a.stack == o.a.stack
    ensures q.a.consts <= f.consts && SameFrame(o.a, p.a) && SameFrame(o.a, q.a) &&
            |ends| == |q.a.scopes| == |o.a.scopes|
  {
    hide Placed, Counted, Pooled, Bounded, Settled, Patchable, NoneBelow, Completes, Aimed;
    LeaveGrows(o, opcode, typed, p);
    ValidateKeeps(p.a);
    var v := ValidateEnd(p.a).value;
    OutGrows(p, v);
    FitsInside(f, ends, EmitOut(p, v));
    FitsBefore(f, p, EmitOut(p, v), [Here(q)] + ends);
    var e := EnterScope(o, opcode, typed);
    assert ScopeGrew(e.code, e.a.scopes[0], p.a.scopes[0]);
    FitsParts(f, q, ends);
    var h := |o.a.stack|;
    assert q.a.stack[..h] == o.a.stack[..h] == o.a.stack;
    assert q.a.stack == q.a.stack[..h] + q.a.stack[h..];
  }

  lemma AroundPages(f: Final, ends: seq<Pc>, o: Comp, opcode: Opcode, typed: bool, p: Comp, q: Comp)
    requires Around(f, ends, o, opcode, typed, p, q)
    ensures Formed(o) && Formed(p) && Formed(q) && Shaped(p.a) && Sound(p.a) && o.page < |o.used| &&
            p.page < |p.used| && q.page < |q.used|
    ensures ValidateEnd(p.a).Some? && Here(q) == Here(EmitOut(p, ValidateEnd(p.a).value)) && Steady(p.a) && Built(p)
    ensures var v := ValidateEnd(p.a).value;
            SameFrame(v.alloc, q.a) && q.a.stack == v.alloc.stack && q.a.consts == v.alloc.consts
  {
    hide Sound, Patchable, NoneBelow, Grew, Fits, OneInRegister;
    BuiltFormed(o);
    BuiltFormed(p);
  }

  // The value left at the end of the block goes to the register.
  lemma ValueMoved(a: Alloc, typed: bool, consts: seq<Word>, w: World, s: State)
    requires Sound(a) && Steady(a) && !Polymorphic(a) && a.scopes[0].typed == typed && ValidateEnd(a).Some?
    requires Related(a, consts, w, s) && a.numLocals + |w.stack| == a.scopes[0].init + Arity(typed)
    ensures var v := ValidateEnd(a).value;
            PerformAll(v.ops, s).Next? && Related(v.alloc, consts, w, PerformAll(v.ops, s).state)
  {
    hide Placed, Counted, Pooled, Bounded, Settled, OneInRegister;
    if typed {
      MoveRelated(a, consts, w, s);
    }
  }

  lemma EndNormal(f: Final, ends: seq<Pc>, o: Comp, opcode: Opcode, typed: bool, p: Comp, q: Comp, used: seq<nat>,
      from: Start, s: State, w: World, s1: State)
    requires Around(f, ends, o, opcode, typed, p, q) && Grown(used, p.used) && !Polymorphic(p.a)
    requires Arrives(f, used, p, from, s, w, s1) && o.a.numLocals + |w.stack| == |o.a.stack| + Arity(typed)
    ensures exists s2 :: Arrives(f, used, q, from, s, w, s2)
  {
    hide *;
    AroundParts(f, ends, o, opcode, typed, p, q);
    AroundPages(f, ends, o, opcode, typed, p, q);
    var v := ValidateEnd(p.a).value;
    ArrivesParts(f, used, p, from, s, w, s1);
    OutLeads(f, [Here(q)] + ends, p, v, s1);
    ValueMoved(p.a, typed, f.consts, w, s1);
    var s2 := PerformAll(v.ops, s1).state;
    LeadsOn(f.code, used, p.used, from, s, At(Here(p)), s1, At(Here(q)), s2);
    SameRelated(v.alloc, q.a, f.consts, w, s2);
    ArrivesMade(f, used, q, from, s, w, s2);
  }

  lemma ExitRelated(a: Alloc, b: Alloc, below: seq<nat>, consts: seq<Word>, w: World, s: State, height: nat,
      typed: bool)
    requires Unwound(a, |below|, consts, w, s) && a.stack[..|below|] == below && SameFrame(a, b) && b.consts <= consts
    requires b.stack == below + (if typed then [REG0] else []) && a.numLocals + height == |below|
    requires height + Arity(typed) <= |w.stack| && (typed ==> Register(s) == Operand(w, 0))
    ensures Related(b, consts, Exit(w, height, typed), s)
  {
    var w1 := Exit(w, height, typed);
    assert w1.locals + w1.stack == (w.locals + w.stack)[..|below|] + (if typed then [Operand(w, 0)] else []);
  }

  // A branch to the end of the block arrives with the block's value in the register.
  lemma EndBranch(f: Final, ends: seq<Pc>, o: Comp, opcode: Opcode, typed: bool, p: Comp, q: Comp, used: seq<nat>,
      from: Start, s: State, w: World, height: nat)
    requires Around(f, ends, o, opcode, typed, p, q) && opcode != LoopBody && q.page < |q.used|
    requires Exits(f, [Here(q)] + ends, used, p.a, from, s, 0, w) && o.a.numLocals + height == |o.a.stack|
    requires height + Arity(typed) <= |w.stack|
    ensures exists s1 :: Arrives(f, used, q, from, s, Exit(w, height, typed), s1)
  {
    hide Around, Leads, Built, OneInRegister, Grew, NoReferences, Fits, Kept, ValidateEnd, Sound, Unwound, SameFrame;
    hide Related, EmitOut;
    AroundParts(f, ends, o, opcode, typed, p, q);
    FrameOn(o.a, p.a, q.a);
    var s1 :| ToEnd(f, Here(q), used, p.a, 0, w, from, s, s1);
    ExitRelated(p.a, q.a, o.a.stack, f.consts, w, s1, height, typed);
    assert Arrives(f, used, q, from, s, Exit(w, height, typed), s1);
  }

  lemma EndDoes(f: Final, ends: seq<Pc>, o: Comp, opcode: Opcode, typed: bool, p: Comp, q: Comp, used: seq<nat>,
      from: Start, s: State, r: Outcome, height: nat, fuel: nat)
    requires Around(f, ends, o, opcode, typed, p, q) && Grown(used, p.used) && o.a.numLocals + height == |o.a.stack|
    requires Does(f, [Here(q)] + ends, used, p, from, s, r, fuel)
    requires opcode == LoopBody ==> !(r.Branch? && r.depth == 0)
    ensures q.page < |q.used| && |q.a.scopes| > 0
    ensures Does(f, ends, used, q, from, s, LeaveBlock(r, height, typed), fuel)
  {
    hide Leads, OneInRegister, Grew, NoReferences, Fits, Kept, ValidateEnd, Sound, Unwound, SameFrame, Related, Laid,
         Patchable, ToLoop, ToEnd;
    AroundParts(f, ends, o, opcode, typed, p, q);
    AroundPages(f, ends, o, opcode, typed, p, q);
    match r
    case Normal(w) =>
      if |w.stack| == height + Arity(typed) {
        var s1 :| Arrives(f, used, p, from, s, w, s1);
        EndNormal(f, ends, o, opcode, typed, p, q, used, from, s, w, s1);
      }
    case Branch(depth, w) =>
      if depth > 0 {
        OuterExit(f, ends, o, opcode, typed, p, q, depth);
        ExitsSame(f, [Here(q)] + ends, ends, used, p.a, q.a, from, s, depth, depth - 1, w);
      } else if height + Arity(typed) <= |w.stack| {
        EndBranch(f, ends, o, opcode, typed, p, q, used, from, s, w, height);
      }
    case _ =>
  }

  lemma OuterScope(f: Final, ends: seq<Pc>, o: Comp, opcode: Opcode, typed: bool, p: Comp, q: Comp, depth: nat)
    requires Around(f, ends, o, opcode, typed, p, q) && 0 < depth < |p.a.scopes|
    ensures |q.a.scopes| == |p.a.scopes| - 1 && q.a.scopes[depth - 1] == p.a.scopes[depth] &&
            p.a.scopes[depth].init <= |o.a.stack|
  {
    hide Placed, Counted, Pooled, Bounded, Patchable, NoneBelow, Fits, OneInRegister, Laid, Kept, SamePages;
    var e := EnterScope(o, opcode, typed);
    assert ScopeGrew(e.code, e.a.scopes[depth], p.a.scopes[depth]);
    assert e.a.scopes[depth] == o.a.scopes[depth - 1];
  }

  lemma OuterExit(f: Final, ends: seq<Pc>, o: Comp, opcode: Opcode, typed: bool, p: Comp, q: Comp, depth: nat)
    requires Around(f, ends, o, opcode, typed, p, q) && 0 < depth < |p.a.scopes|
    ensures SameExit(p.a, depth, q.a, depth - 1, f.consts) && |q.a.scopes| == |p.a.scopes| - 1 == |ends|
  {
    hide *;
    AroundParts(f, ends, o, opcode, typed, p, q);
    OuterScope(f, ends, o, opcode, typed, p, q, depth);
    FrameOn(o.a, p.a, q.a);
    SameExits(o.a.stack, p.a, q.a, depth, f.consts);
  }

  lemma SameExits(below: seq<nat>, a: Alloc, b: Alloc, depth: nat, consts: seq<Word>)
    requires 0 < depth < |a.scopes| && |b.scopes| == |a.scopes| - 1 && b.scopes[depth - 1] == a.scopes[depth]
    requires SameFrame(a, b) && b.consts <= consts && a.scopes[depth].init <= |below| <= |a.stack| &&
             |below| <= |b.stack|
    requires a.stack[..|below|] == below == b.stack[..|below|]
    ensures SameExit(a, depth, b, depth - 1, consts)
  {
    var init := a.scopes[depth].init;
    assert a.stack[..init] == a.stack[..|below|][..init];
    assert b.stack[..init] == b.stack[..|below|][..init];
  }
}
