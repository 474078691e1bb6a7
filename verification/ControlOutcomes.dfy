// What running compiled code comes to: an outcome of the code it was compiled from, found where the
// compiler says its values are (section 4.4.5 of the WebAssembly Core Specification).
module ControlOutcomes {
  import opened WasmValues
  import opened WasmSemantics
  import opened WasmValidation
  import opened ThreadedMachine
  import opened MachineRuns
  import opened SlotAllocator
  import opened PlainInvariants
  import opened PlainSimulation
  import opened ControlCompile
  import opened ControlStructure

  // The finished function.
  datatype Final = Final(code: Memory, consts: seq<Word>)

  // A line as it was emitted and as it finally is.
  predicate Fills(op: Op, filled: Op) {
    filled == op || (Pending(op) && HasTarget(filled) && filled == Retarget(op, TargetOf(filled)))
  }

  predicate Completes(final: Memory, code: Memory) {
    forall pc :: pc in code ==> pc in final && Fills(code[pc], final[pc])
  }

  // Branches to the scopes around the code end up at these addresses.
  predicate Aimed(final: Memory, scopes: seq<Scope>, ends: seq<Pc>) {
    && |ends| == |scopes|
    && forall j, loc :: 0 <= j < |scopes| && loc in scopes[j].patches ==>
         loc in final && HasTarget(final[loc]) && TargetOf(final[loc]) == To(ends[j])
  }

  predicate Fits(f: Final, o: Comp, ends: seq<Pc>) {
    Completes(f.code, o.code) && o.a.consts <= f.consts && Aimed(f.code, o.a.scopes, ends)
  }

  predicate LiveComp(o: Comp) {
    Built(o) && OneInRegister(o.a) && !Polymorphic(o.a)
  }

  lemma LiveParts(o: Comp)
    requires LiveComp(o)
    ensures Built(o) && Sound(o.a) && Formed(o) && o.page < |o.used| && |o.a.scopes| > 0
    ensures OneInRegister(o.a) && !Polymorphic(o.a) && Steady(o.a) && Live(o.a)
  {
  }

  lemma FitsParts(f: Final, o: Comp, ends: seq<Pc>)
    requires Fits(f, o, ends)
    ensures o.a.consts <= f.consts && |ends| == |o.a.scopes|
  {
  }

  lemma FitsBefore(f: Final, o: Comp, p: Comp, ends: seq<Pc>)
    requires Fits(f, p, ends) && Grew(o, p)
    ensures Fits(f, o, ends)
  {
    forall j, loc | 0 <= j < |o.a.scopes| && loc in o.a.scopes[j].patches
      ensures loc in f.code && HasTarget(f.code[loc]) && TargetOf(f.code[loc]) == To(ends[j])
    {
      assert ScopeGrew(o.code, o.a.scopes[j], p.a.scopes[j]);
    }
  }

  lemma LineFits(f: Final, o: Comp, ends: seq<Pc>, pc: Pc)
    requires Fits(f, o, ends) && pc in o.code && !Pending(o.code[pc])
    ensures pc in f.code && f.code[pc] == o.code[pc]
  {
  }

  lemma {:induction false} HoldsFinally(f: Final, o: Comp, ends: seq<Pc>, pc: Pc, ops: seq<Straight>)
    requires Fits(f, o, ends) && Holds(o.code, pc, ops)
    ensures Holds(f.code, pc, ops)
    decreases |ops|
  {
    if ops != [] {
      LineFits(f, o, ends, pc);
      HoldsFinally(f, o, ends, After(pc), ops[1..]);
    }
  }

  // ---------------------------------------------------------------------------------
  // What running compiled code comes to.

  // The operands below the height are where the compiler says.
  predicate Unwound(a: Alloc, height: nat, consts: seq<Word>, w: World, s: State) {
    && |w.locals| == a.numLocals <= height <= |a.stack| && height <= a.numLocals + |w.stack|
    && Agree(a.stack[..height], (w.locals + w.stack)[..height], s)
    && Furnished(a, consts, s)
    && w.globals == s.globals && w.mem == s.mem && |a.mutables| == |w.globals|
  }

  // A branch to a loop returns its address.
  ghost predicate ToLoop(f: Final, a: Alloc, depth: nat, w: World, from: Start, s: State, s1: State)
    requires depth < |a.scopes|
  {
    && Unwound(a, a.scopes[depth].init, f.consts, w, s1)
    && Returns(f.code, from, s, Again(a.scopes[depth].pc, s1))
  }

  // A branch to a block goes to its end.
  ghost predicate ToEnd(f: Final, end: Pc, used: seq<nat>, a: Alloc, depth: nat, w: World, from: Start, s: State,
      s1: State)
    requires depth < |a.scopes|
  {
    && Unwound(a, a.scopes[depth].init, f.consts, w, s1) && a.scopes[depth].patches != []
    && (a.scopes[depth].typed && |w.stack| > 0 ==> Register(s1) == Operand(w, 0))
    && Leads(f.code, used, from, s, At(end), s1)
  }

  ghost predicate Exits(f: Final, ends: seq<Pc>, used: seq<nat>, a: Alloc, from: Start, s: State, depth: nat,
      w: World) {
    && depth < |a.scopes| && depth < |ends|
    && (a.numLocals + |w.stack|
          >= a.scopes[depth].init + Arity(a.scopes[depth].typed && a.scopes[depth].opcode != LoopBody) ==>
          if a.scopes[depth].opcode == LoopBody
          then exists s1 :: ToLoop(f, a, depth, w, from, s, s1)
          else exists s1 :: ToEnd(f, ends[depth], used, a, depth, w, from, s, s1))
  }

  ghost predicate Arrives(f: Final, used: seq<nat>, p: Comp, from: Start, s: State, w: World, s1: State)
    requires p.page < |p.used|
  {
    Related(p.a, f.consts, w, s1) && Leads(f.code, used, from, s, At(Here(p)), s1)
  }

  ghost predicate Dies(f: Final, from: Start, s: State, t: Trap, w: World, s1: State) {
    Returns(f.code, from, s, Died(t, s1)) && s1.globals == w.globals && s1.mem == w.mem
  }

  // p is the compilation after the code.
  ghost predicate Does(f: Final, ends: seq<Pc>, used: seq<nat>, p: Comp, from: Start, s: State, r: Outcome, fuel: nat)
    requires p.page < |p.used| && |p.a.scopes| > 0
  {
    match r
    case Normal(w) => !Polymorphic(p.a) && exists s1 :: Arrives(f, used, p, from, s, w, s1)
    case Branch(depth, w) => Exits(f, ends, used, p.a, from, s, depth, w)
    case Trapping(t, w) => exists s1 :: Dies(f, from, s, t, w, s1)
    case OutOfFuel => Run(f.code, from, s, fuel) == Unfinished
    case Stuck => true
  }

  predicate LoopsOld(used: seq<nat>, scopes: seq<Scope>) {
    forall j :: 0 <= j < |scopes| ==> Old(used, scopes[j].pc)
  }

  // What comes before does not matter.
  lemma DoesOn(f: Final, ends: seq<Pc>, used: seq<nat>, later: seq<nat>, p: Comp, from: Start, s: State, to: Start,
      s1: State, r: Outcome, fuel: nat)
    requires p.page < |p.used| && |p.a.scopes| > 0 && LoopsOld(used, p.a.scopes)
    requires Leads(f.code, used, from, s, to, s1) && Does(f, ends, later, p, to, s1, r, fuel) && Grown(used, later)
    ensures Does(f, ends, used, p, from, s, r, fuel)
  {
    hide Related, Unwound;
    match r
    case Normal(w) =>
      var s2 :| Arrives(f, later, p, to, s1, w, s2);
      LeadsOn(f.code, used, later, from, s, to, s1, At(Here(p)), s2);
      assert Arrives(f, used, p, from, s, w, s2);
    case Branch(depth, w) =>
      ExitsOn(f, ends, used, later, p.a, from, s, to, s1, depth, w);
    case Trapping(t, w) =>
      var s2 :| Dies(f, to, s1, t, w, s2);
      assert Dies(f, from, s, t, w, s2);
    case _ =>
  }

  lemma ExitsOn(f: Final, ends: seq<Pc>, used: seq<nat>, later: seq<nat>, a: Alloc, from: Start, s: State, to: Start,
      s1: State, depth: nat, w: World)
    requires LoopsOld(used, a.scopes) && Exits(f, ends, later, a, to, s1, depth, w)
    requires Leads(f.code, used, from, s, to, s1) && Grown(used, later)
    ensures Exits(f, ends, used, a, from, s, depth, w)
  {
    hide Unwound;
    if a.numLocals + |w.stack| >= a.scopes[depth].init
        + Arity(a.scopes[depth].typed && a.scopes[depth].opcode != LoopBody) {
      if a.scopes[depth].opcode == LoopBody {
        var s2 :| ToLoop(f, a, depth, w, to, s1, s2);
        assert ToLoop(f, a, depth, w, from, s, s2);
      } else {
        var s2 :| ToEnd(f, ends[depth], later, a, depth, w, to, s1, s2);
        LeadsOn(f.code, used, later, from, s, to, s1, At(ends[depth]), s2);
        assert ToEnd(f, ends[depth], used, a, depth, w, from, s, s2);
      }
    }
  }

  // The same scope seen from later in the code or from outside a block.
  predicate SameExit(a: Alloc, depth: nat, b: Alloc, depth1: nat, consts: seq<Word>) {
    && depth < |a.scopes| && depth1 < |b.scopes|
    && var s, t := a.scopes[depth], b.scopes[depth1];
    && s.init == t.init && s.typed == t.typed && s.opcode == t.opcode && s.pc == t.pc &&
      (s.patches != [] ==> t.patches != [])
    && b.numLocals == a.numLocals && b.firstConst == a.firstConst && b.firstDynamic == a.firstDynamic &&
      b.mutables == a.mutables
    && b.consts <= consts
    && s.init <= |a.stack| && s.init <= |b.stack| && a.stack[..s.init] == b.stack[..s.init]
  }

  lemma ExitsSame(f: Final, ends: seq<Pc>, ends1: seq<Pc>, used: seq<nat>, a: Alloc, b: Alloc, from: Start, s: State,
      depth: nat, depth1: nat, w: World)
    requires Exits(f, ends, used, a, from, s, depth, w) && SameExit(a, depth, b, depth1, f.consts)
    requires depth1 < |ends1| && ends1[depth1] == ends[depth]
    ensures Exits(f, ends1, used, b, from, s, depth1, w)
  {
    hide Agree, Leads;
    if a.numLocals + |w.stack| >= a.scopes[depth].init
        + Arity(a.scopes[depth].typed && a.scopes[depth].opcode != LoopBody) {
      if a.scopes[depth].opcode == LoopBody {
        var s2 :| ToLoop(f, a, depth, w, from, s, s2);
        assert ToLoop(f, b, depth1, w, from, s, s2);
      } else {
        var s2 :| ToEnd(f, ends[depth], used, a, depth, w, from, s, s2);
        assert ToEnd(f, ends1[depth1], used, b, depth1, w, from, s, s2);
      }
    }
  }

  lemma GrewExit(o: Comp, p: Comp, depth: nat, consts: seq<Word>)
    requires Grew(o, p) && Sound(o.a) && depth < |o.a.scopes| && p.a.consts <= consts
    ensures SameExit(o.a, depth, p.a, depth, consts)
  {
    hide Valid;
    var init, at := o.a.scopes[0].init, o.a.scopes[depth].init;
    assert ScopeGrew(o.code, o.a.scopes[depth], p.a.scopes[depth]);
    assert o.a.scopes[depth].patches != [] ==> o.a.scopes[depth].patches[0] in p.a.scopes[depth].patches;
    assert o.a.stack[..at] == o.a.stack[..init][..at];
    assert p.a.stack[..at] == p.a.stack[..init][..at];
  }

  // An outcome that leaves the code before it ends is the outcome of the longer code.
  lemma DoesLater(f: Final, ends: seq<Pc>, used: seq<nat>, p: Comp, q: Comp, from: Start, s: State, r: Outcome,
                  fuel: nat)
    requires Built(p) && Built(q) && Grew(p, q) && q.a.consts <= f.consts
    requires Does(f, ends, used, p, from, s, r, fuel) && !r.Normal?
    ensures Does(f, ends, used, q, from, s, r, fuel)
  {
    hide Laid, Patchable, Leads, Unwound, SameExit, ToLoop, ToEnd;
    match r
    case Branch(depth, w) =>
      GrewExit(p, q, depth, f.consts);
      ExitsSame(f, ends, ends, used, p.a, q.a, from, s, depth, depth, w);
    case _ =>
  }

  lemma SameHere(o: Comp, p: Comp)
    requires o.page < |o.used| && p.page == o.page && p.used == o.used
    ensures p.page < |p.used| && Here(p) == Here(o)
  {
  }

  // Only where code goes on, and where operands are, matters to an outcome.
  lemma SameDoes(f: Final, ends: seq<Pc>, used: seq<nat>, p: Comp, q: Comp, from: Start, s: State, r: Outcome,
      fuel: nat)
    requires p.page < |p.used| && |p.a.scopes| > 0 && q.page < |q.used| && q.a == p.a && Here(q) == Here(p)
    requires Does(f, ends, used, p, from, s, r, fuel)
    ensures Does(f, ends, used, q, from, s, r, fuel)
  {
    hide Related, Exits, Leads;
    match r
    case Normal(w) =>
      var s1 :| Arrives(f, used, p, from, s, w, s1);
      assert Arrives(f, used, q, from, s, w, s1);
    case _ =>
  }

  // ---------------------------------------------------------------------------------
  // Single outcomes.

  lemma ArrivesParts(f: Final, used: seq<nat>, p: Comp, from: Start, s: State, w: World, s1: State)
    requires p.page < |p.used| && Arrives(f, used, p, from, s, w, s1)
    ensures Related(p.a, f.consts, w, s1) && Leads(f.code, used, from, s, At(Here(p)), s1)
  {
  }

  lemma ArrivesMade(f: Final, used: seq<nat>, p: Comp, from: Start, s: State, w: World, s1: State)
    requires p.page < |p.used| && Related(p.a, f.consts, w, s1) && Leads(f.code, used, from, s, At(Here(p)), s1)
    ensures Arrives(f, used, p, from, s, w, s1)
  {
  }

  lemma NormalParts(f: Final, ends: seq<Pc>, used: seq<nat>, p: Comp, from: Start, s: State, w: World, fuel: nat)
    returns (s1: State)
    requires p.page < |p.used| && |p.a.scopes| > 0 && Does(f, ends, used, p, from, s, Normal(w), fuel)
    ensures !Polymorphic(p.a) && Arrives(f, used, p, from, s, w, s1)
    ensures Related(p.a, f.consts, w, s1) && Leads(f.code, used, from, s, At(Here(p)), s1)
  {
    hide Related, Leads;
    s1 :| Arrives(f, used, p, from, s, w, s1);
    ArrivesParts(f, used, p, from, s, w, s1);
  }

  lemma NormalMade(f: Final, ends: seq<Pc>, used: seq<nat>, p: Comp, from: Start, s: State, w: World, s1: State,
      fuel: nat)
    requires p.page < |p.used| && |p.a.scopes| > 0 && !Polymorphic(p.a)
    requires Related(p.a, f.consts, w, s1) && Leads(f.code, used, from, s, At(Here(p)), s1)
    ensures Arrives(f, used, p, from, s, w, s1) && Does(f, ends, used, p, from, s, Normal(w), fuel)
  {
    hide Related, Leads;
    assert Arrives(f, used, p, from, s, w, s1);
  }

  lemma BranchIs(f: Final, ends: seq<Pc>, used: seq<nat>, p: Comp, from: Start, s: State, depth: nat, w: World,
      fuel: nat)
    requires p.page < |p.used| && |p.a.scopes| > 0
    ensures Does(f, ends, used, p, from, s, Branch(depth, w), fuel) == Exits(f, ends, used, p.a, from, s, depth, w)
  {
    hide Exits;
  }

  // Fuel matters only where it runs out.
  lemma FuelIs(f: Final, ends: seq<Pc>, used: seq<nat>, p: Comp, from: Start, s: State, r: Outcome, fuel: nat,
      fuel1: nat)
    requires p.page < |p.used| && |p.a.scopes| > 0
    ensures r.OutOfFuel? ==> Does(f, ends, used, p, from, s, r, fuel) == (Run(f.code, from, s, fuel) == Unfinished)
    ensures r.Stuck? ==> Does(f, ends, used, p, from, s, r, fuel)
    ensures !r.OutOfFuel? ==> Does(f, ends, used, p, from, s, r, fuel) == Does(f, ends, used, p, from, s, r, fuel1)
  {
    hide Exits, Arrives, Run;
  }
}
