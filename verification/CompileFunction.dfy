// Whole functions: the end of the body, and what running the compiled function comes to
// (kernel/wasm3/source/m3_compile.c:834-854, 896-912, 1014-1053, 2333-2410; m3_exec.c:198-240).
module CompileFunction {
  import opened WasmValues
  import opened WasmSemantics
  import opened Wrappers
  import opened WasmValidation
  import opened ThreadedMachine
  import opened MachineRuns
  import opened SlotAllocator
  import opened PlainCompile
  import opened PlainInvariants
  import opened PlainSimulation
  import opened ControlCompile
  import opened ControlStructure
  import opened BlockAssignments
  import opened ControlHeights
  import opened ControlGuards
  import opened ControlOutcomes
  import opened BlockSimulation
  import opened BranchSimulation
  import opened ControlSimulation
  import opened FunctionFrame

  // ---------------------------------------------------------------------------------
  // The end of the body.

  // The result goes to slot 0.
  function ReturnTop(a: Alloc): Option<seq<Straight>>
    requires |a.scopes| > 0
  {
    if |a.stack| > 0 then Some(if TopSlot(a) != 0 then [CopyTop(a, 0)] else [])
    else if Polymorphic(a) then Some([]) else None
  }

  function Aim(o: Comp): (r: Comp)
    requires Formed(o)
    ensures Formed(r) && r.used == o.used && r.page == o.page
  {
    o.(code := PatchAll(o.code, o.a.scopes[0].patches, Here(o)),
       a := o.a.(scopes := o.a.scopes[0 := o.a.scopes[0].(patches := [])]))
  }

  function FinalOps(a: Alloc): Option<seq<Straight>>
    requires |a.scopes| > 0
  {
    if a.scopes[0].typed then ReturnTop(a) else Some([])
  }

  // A branch to the end of the function brings its result in the register: it goes to the code that
  // returns the result if that finds it there too, and to code of its own if not.
  predicate Together(a: Alloc)
    requires |a.scopes| > 0
  {
    !a.scopes[0].typed || InRegister(a, 0)
  }

  function Finish(o: Comp): Option<Comp>
    requires Formed(o)
  {
    var ops :- FinalOps(o.a);
    var o1 := if Together(o.a) then Aim(o) else o;
    var o2 := Emit(EmitAll(o1, ops), Return);
    if o2.a.scopes[0].patches == [] then Some(o2)
    else if o2.a.scopes[0].init >= MAX_FUNCTION_STACK_HEIGHT then None
    else Some(Emit(Emit(Aim(o2), Do(SetSlot(0))), Return))
  }

  // Where branches to the end of the function go.
  function EndOf(o: Comp): Pc
    requires Formed(o)
  {
    if Together(o.a) || FinalOps(o.a).None? then Here(o)
    else Here(Emit(EmitAll(o, FinalOps(o.a).value), Return))
  }

  datatype Compiled = Compiled(final: Final, firstConst: nat)

  // The code begins after the operation that sets up the frame.
  function Compile(fn: Function, mutables: seq<bool>, estimate: nat): Option<Compiled> {
    var a :- SetUp(fn, mutables, estimate);
    SetUpSound(fn, mutables, estimate);
    var o :- CompileCode(Comp(a, map[], [0], 0), fn.body);
    var p :- Finish(o);
    Some(Compiled(Final(p.code, o.a.consts), a.firstConst))
  }

  const START := Pc(0, 0)

  // The frame as op_Entry leaves it: arguments, cleared locals, constants, and a cleared register.
  function EnterFrame(s: State, c: Compiled, argSlots: nat): State
    requires argSlots <= c.firstConst && c.firstConst + |c.final.consts| <= |s.slots|
  {
    s.(slots := s.slots[..argSlots] + Zeros(c.firstConst - argSlots) + c.final.consts
                + s.slots[c.firstConst + |c.final.consts|..],
       r0 := 0)
  }

  function Zeros(n: nat): (r: seq<Word>)
    ensures |r| == n && forall i :: 0 <= i < n ==> r[i] == 0
  {
    if n == 0 then [] else Zeros(n - 1) + [0]
  }

  // ---------------------------------------------------------------------------------
  // What the finished function is to the code of its body.

  lemma AimBuilds(o: Comp)
    requires Built(o) && |o.a.scopes| == 1
    ensures Built(Aim(o)) && |Aim(o).a.scopes| == 1 && Aim(o).a.scopes[0].patches == [] && Here(Aim(o)) == Here(o)
  {
    AimLaid(o);
    hide Laid, Patchable;
    ScopesSound(o.a, Aim(o).a.scopes);
  }

  lemma AimLaid(o: Comp)
    requires Built(o) && |o.a.scopes| == 1
    ensures Laid(Aim(o)) && Patchable(Aim(o).code, Aim(o).a.scopes)
  {
    PatchAllDoes(o.code, o.a.scopes[0].patches, Here(o));
  }

  lemma AimFits(f: Final, o: Comp, ends: seq<Pc>)
    requires Built(o) && |o.a.scopes| == 1 && Fits(f, Aim(o), ends)
    ensures Fits(f, o, [Here(o)])
  {
    hide Sound, Laid, Fills, Pending, HasTarget, TargetOf, Retarget;
    var patches, code := o.a.scopes[0].patches, Aim(o).code;
    PatchAllDoes(o.code, patches, Here(o));
    forall pc | pc in o.code ensures pc in f.code && Fills(o.code[pc], f.code[pc]) {
      assert pc in code && Fills(code[pc], f.code[pc]);
      if pc in patches {
        FilledTwice(o.code[pc], code[pc], f.code[pc], Here(o));
      }
    }
    forall loc | loc in patches ensures loc in f.code && HasTarget(f.code[loc]) &&
        TargetOf(f.code[loc]) == To(Here(o)) {
      assert loc in code && Fills(code[loc], f.code[loc]);
      FilledTwice(o.code[loc], code[loc], f.code[loc], Here(o));
    }
  }

  // The lines of straight code and the return after them.
  predicate Returning(code: Memory, pc: Pc, ops: seq<Straight>) {
    Holds(code, pc, ops) && Skip(pc, |ops|) in code && code[Skip(pc, |ops|)] == Return
  }

  lemma ReturnEmitted(o: Comp, ops: seq<Straight>)
    requires Built(o)
    ensures var p := Emit(EmitAll(o, ops), Return);
            Built(p) && Grew(o, p) && Returning(p.code, Here(o), ops) && p.a == o.a
  {
    hide Sound, Patchable, Kept, ScopesGrew;
    EmitAllGrows(o, ops);
    EmitAllHolds(o, ops);
    var o1 := EmitAll(o, ops);
    EmitGrows(o1, Return);
    GrewOn(o, o1, Emit(o1, Return));
    HoldsLater(o1.code, Emit(o1, Return).code, Here(o), ops);
  }

  lemma {:induction false} HoldsLater(code: Memory, later: Memory, pc: Pc, ops: seq<Straight>)
    requires Holds(code, pc, ops) && Contains(code, later)
    ensures Holds(later, pc, ops)
    decreases |ops|
  {
    if ops != [] {
      HoldsLater(code, later, After(pc), ops[1..]);
    }
  }

  lemma ReturningFits(f: Final, o: Comp, ends: seq<Pc>, pc: Pc, ops: seq<Straight>)
    requires Fits(f, o, ends) && Returning(o.code, pc, ops)
    ensures Returning(f.code, pc, ops)
  {
    HoldsFinally(f, o, ends, pc, ops);
    LineFits(f, o, ends, Skip(pc, |ops|));
  }

  lemma FitsItself(o: Comp, end: Pc)
    requires |o.a.scopes| == 1 && o.a.scopes[0].patches == []
    ensures Fits(Final(o.code, o.a.consts), o, [end])
  {
  }

  // The body is part of the finished function, and its end returns the result.
  lemma Finishes(o: Comp, f: Final)
    requires Built(o) && |o.a.scopes| == 1 && Finish(o).Some? && f == Final(Finish(o).value.code, o.a.consts)
    ensures Fits(f, o, [EndOf(o)]) && FinalOps(o.a).Some? && Returning(f.code, Here(o), FinalOps(o.a).value)
    ensures Together(o.a) ==> EndOf(o) == Here(o)
    ensures !Together(o.a) && o.a.scopes[0].patches != [] ==> Returning(f.code, EndOf(o), [SetSlot(0)])
  {
    BuiltFormed(o);
    hide Built, Grew, Fits, Returning;
    if Together(o.a) {
      FinishesTogether(o, f);
    } else {
      FinishesApart(o, f);
    }
  }

  lemma FinishesTogether(o: Comp, f: Final)
    requires Built(o) && |o.a.scopes| == 1 && Finish(o).Some? && f == Final(Finish(o).value.code, o.a.consts)
    requires Together(o.a) && Formed(o)
    ensures Fits(f, o, [EndOf(o)]) && FinalOps(o.a).Some? && Returning(f.code, Here(o), FinalOps(o.a).value)
  {
    hide Built, Grew, Fits, Returning;
    var ops, end := FinalOps(o.a).value, EndOf(o);
    AimBuilds(o);
    var o1 := Aim(o);
    ReturnEmitted(o1, ops);
    var p := Emit(EmitAll(o1, ops), Return);
    FitsItself(p, end);
    FitsBefore(f, o1, p, [end]);
    AimFits(f, o, [end]);
    ReturningFits(f, p, [end], Here(o), ops);
  }

  // Branches to the end of the function get operations of their own.
  lemma FinishesApart(o: Comp, f: Final)
    requires Built(o) && |o.a.scopes| == 1 && Finish(o).Some? && f == Final(Finish(o).value.code, o.a.consts)
    requires !Together(o.a) && Formed(o)
    ensures Fits(f, o, [EndOf(o)]) && FinalOps(o.a).Some? && Returning(f.code, Here(o), FinalOps(o.a).value)
    ensures o.a.scopes[0].patches != [] ==> Returning(f.code, EndOf(o), [SetSlot(0)])
  {
    hide Built, Grew, Fits, Returning;
    var ops, end := FinalOps(o.a).value, EndOf(o);
    ReturnEmitted(o, ops);
    var o2 := Emit(EmitAll(o, ops), Return);
    if o.a.scopes[0].patches == [] {
      FitsItself(o2, end);
    } else {
      AimBuilds(o2);
      var o3 := Aim(o2);
      ReturnEmitted(o3, [SetSlot(0)]);
      var p := Emit(EmitAll(o3, [SetSlot(0)]), Return);
      assert [SetSlot(0)][1..] == [];
      FitsItself(p, end);
      FitsBefore(f, o3, p, [end]);
      AimFits(f, o2, [end]);
      ReturningFits(f, p, [end], Here(o3), [SetSlot(0)]);
    }
    FitsBefore(f, o, o2, [end]);
    ReturningFits(f, o2, [end], Here(o), ops);
  }

  // ---------------------------------------------------------------------------------
  // The theorem.

  function FunctionContext(fn: Function, mutables: seq<bool>): Context {
    Context(fn.params + fn.locals, mutables, [fn.typed])
  }

  predicate ValidFunction(fn: Function, mutables: seq<bool>) {
    var r := CheckCode(FunctionContext(fn, mutables), fn.body, Check(0, false));
    r.Some? && Ends(r.value, fn.typed)
  }

  // Calling the function: a branch to its end returns.
  function Invoke(fn: Function, args: seq<Word>, globals: seq<Word>, mem: seq<Octet>, fuel: nat): Outcome {
    LeaveBlock(RunCode(fn.body, World(args + Zeros(fn.locals), [], globals, mem), fuel), 0, fn.typed)
  }

  // The machine ends with the result in slot 0 and the globals and memory that the call leaves.
  ghost predicate Answers(code: Memory, s: State, typed: bool, w: World, s1: State) {
    && Returns(code, At(START), s, Done(s1)) && s1.globals == w.globals && s1.mem == w.mem
    && (typed ==> |w.stack| == 1 && |s1.slots| > 0 && s1.slots[0] == w.stack[0])
  }

  ghost predicate Implements(code: Memory, s: State, typed: bool, r: Outcome, fuel: nat) {
    match r
    case Normal(w) => exists s1 :: Answers(code, s, typed, w, s1)
    case Trapping(t, w) =>
      exists s1 :: Returns(code, At(START), s, Died(t, s1)) && s1.globals == w.globals && s1.mem == w.mem
    case OutOfFuel => Exec(code, START, s, fuel) == Unfinished
    case Branch(_, _) => false
    case Stuck => false
  }

  lemma ReturnRuns(code: Memory, pc: Pc, ops: seq<Straight>, s: State)
    requires Returning(code, pc, ops) && PerformAll(ops, s).Next?
    ensures Returns(code, At(pc), s, Done(PerformAll(ops, s).state))
  {
    var s1, at := PerformAll(ops, s).state, Skip(pc, |ops|);
    PerformLeads(code, [], pc, ops, s);
    Leaves(code, at, s1, Done(s1));
  }

  // At the end of the body the result is copied to slot 0 from wherever it is.
  lemma ResultCopied(a: Alloc, consts: seq<Word>, w: World, s: State)
    requires Sound(a) && |a.scopes| == 1 && Related(a, consts, w, s) && FinalOps(a).Some?
    requires a.scopes[0].typed ==> |w.stack| == 1
    ensures var r := PerformAll(FinalOps(a).value, s);
            && r.Next? && r.state.globals == w.globals && r.state.mem == w.mem && |r.state.slots| > 0
            && (a.scopes[0].typed ==> r.state.slots[0] == w.stack[0])
  {
    hide Counted, Bounded, Settled;
    var ops := FinalOps(a).value;
    if a.scopes[0].typed {
      assert Place(a, TopSlot(a));
      assert Held(TopSlot(a), s) == (w.locals + w.stack)[|a.stack| - 1] == w.stack[0];
      if TopSlot(a) != 0 {
        PerformOne(CopyTop(a, 0), s);
      }
    }
  }

  lemma EndNormally(code: Memory, o: Comp, consts: seq<Word>, s: State, w: World, s1: State)
    requires Built(o) && |o.a.scopes| == 1 && FinalOps(o.a).Some? && Returning(code, Here(o), FinalOps(o.a).value)
    requires Related(o.a, consts, w, s1) && Leads(code, [0], At(START), s, At(Here(o)), s1)
    requires |w.stack| == Arity(o.a.scopes[0].typed)
    ensures exists s2 :: Answers(code, s, o.a.scopes[0].typed, w, s2)
  {
    ResultCopied(o.a, consts, w, s1);
    ReturnRuns(code, Here(o), FinalOps(o.a).value, s1);
    var s2 := PerformAll(FinalOps(o.a).value, s1).state;
    assert Answers(code, s, o.a.scopes[0].typed, w, s2);
  }

  lemma EndBranching(f: Final, o: Comp, s: State, w: World, s1: State)
    requires Built(o) && |o.a.scopes| == 1 && Finish(o).Some? && f == Final(Finish(o).value.code, o.a.consts)
    requires o.a.scopes[0].init == o.a.numLocals && |w.stack| >= Arity(o.a.scopes[0].typed)
    requires ToEnd(f, EndOf(o), [0], o.a, 0, w, At(START), s, s1)
    ensures exists s2 :: Answers(f.code, s, o.a.scopes[0].typed, Exit(w, 0, o.a.scopes[0].typed), s2)
  {
    BuiltFormed(o);
    hide Sound, Laid, Patchable, Agree, Finish, Returning, Leads, Fits;
    Finishes(o, f);
    var typed := o.a.scopes[0].typed;
    var w1 := Exit(w, 0, typed);
    var ops := if !typed then [] else [SetSlot(0)];
    if typed {
      PerformOne(SetSlot(0), s1);
    }
    assert Returning(f.code, EndOf(o), ops) by {
      assert typed && Together(o.a) ==> CopyTop(o.a, 0) == SetSlot(0) && TopSlot(o.a) == REG0;
    }
    ReturnRuns(f.code, EndOf(o), ops, s1);
    var s2 := PerformAll(ops, s1).state;
    ReturnsVia(f.code, [0], At(START), s, At(EndOf(o)), s1, Done(s2));
    assert Answers(f.code, s, typed, w1, s2);
  }

  // The arguments are on the slots of the parameters.
  predicate Passed(s: State, args: seq<Word>) {
    ArgSlots(|args|) <= |s.slots| && forall i :: 0 <= i < |args| ==> s.slots[LocalSlot(|args|, i)] == args[i]
  }

  lemma FrameHolds(s: State, c: Compiled, args: seq<Word>, n: nat)
    requires Passed(s, args) && |args| <= n && ArgSlots(|args|) <= c.firstConst
    requires c.firstConst + |c.final.consts| <= |s.slots|
    requires forall i :: 0 <= i < n ==> LocalSlot(|args|, i) < c.firstConst
    ensures var s0 := EnterFrame(s, c, ArgSlots(|args|));
            && |s0.slots| == |s.slots| && s0.globals == s.globals && s0.mem == s.mem
            && (forall i :: 0 <= i < n ==> s0.slots[LocalSlot(|args|, i)] == (args + Zeros(n - |args|))[i])
            && (forall k :: 0 <= k < |c.final.consts| ==> s0.slots[c.firstConst + k] == c.final.consts[k])
  {
    var s0 := EnterFrame(s, c, ArgSlots(|args|));
    forall i | 0 <= i < n ensures s0.slots[LocalSlot(|args|, i)] == (args + Zeros(n - |args|))[i] {
      if i < |args| {
        assert s0.slots[LocalSlot(|args|, i)] == s.slots[LocalSlot(|args|, i)];
      } else {
        assert s0.slots[LocalSlot(|args|, i)] == Zeros(c.firstConst - ArgSlots(|args|))[i - |args|];
      }
    }
  }

  lemma FrameRelated(a: Alloc, c: Compiled, args: seq<Word>, locals: nat, s: State, s0: State)
    requires a.numLocals == |args| + locals && a.stack == LocalSlots(|args|, a.numLocals) && a.consts == []
    requires |a.mutables| == |s.globals| && a.firstConst == c.firstConst
    requires a.firstConst + |c.final.consts| <= a.firstDynamic <= MAX_FUNCTION_SLOTS <= |s0.slots|
    requires s0.globals == s.globals && s0.mem == s.mem && forall i :: 0 <= i < a.numLocals ==>
               a.stack[i] < a.firstConst
    requires forall i :: 0 <= i < a.numLocals ==> s0.slots[LocalSlot(|args|, i)] == (args + Zeros(locals))[i]
    requires forall k :: 0 <= k < |c.final.consts| ==> s0.slots[c.firstConst + k] == c.final.consts[k]
    ensures Related(a, c.final.consts, World(args + Zeros(locals), [], s.globals, s.mem), s0)
  {
    hide Zeros, LocalSlots, LocalSlot;
    var vals := args + Zeros(locals);
    assert vals + [] == vals;
    forall i | 0 <= i < |a.stack| ensures Held(a.stack[i], s0) == vals[i] {
      assert a.stack[i] == LocalSlot(|args|, i);
    }
  }

  // The frame that the function starts with is the one the compiler has laid out.
  lemma EnterRelated(fn: Function, mutables: seq<bool>, estimate: nat, c: Compiled, args: seq<Word>, s: State)
    requires SetUp(fn, mutables, estimate).Some? && c.firstConst == SetUp(fn, mutables, estimate).value.firstConst
    requires |args| == fn.params && MAX_FUNCTION_SLOTS <= |s.slots| && Passed(s, args) && |s.globals| == |mutables|
    requires c.firstConst + |c.final.consts| <= SetUp(fn, mutables, estimate).value.firstDynamic <= MAX_FUNCTION_SLOTS
    ensures ArgSlots(fn.params) <= c.firstConst && c.firstConst + |c.final.consts| <= |s.slots|
    ensures Related(SetUp(fn, mutables, estimate).value, c.final.consts,
                    World(args + Zeros(fn.locals), [], s.globals, s.mem), EnterFrame(s, c, ArgSlots(fn.params)))
  {
    SetUpSound(fn, mutables, estimate);
    var a := SetUp(fn, mutables, estimate).value;
    hide SetUp, Sound, OneInRegister, Passed, Related, Zeros, EnterFrame;
    FrameHolds(s, c, args, a.numLocals);
    FrameRelated(a, c, args, fn.locals, s, EnterFrame(s, c, ArgSlots(fn.params)));
  }

  // Functions for which looking for references under the indices of locals is enough: compiling them
  // never comes to an assignment to a local that an operand from outside the block refers to.
  predicate Sheltered(fn: Function, mutables: seq<bool>, estimate: nat) {
    var a := SetUp(fn, mutables, estimate);
    a.Some? ==> Permits(Comp(a.value, map[], [0], 0), fn.body)
  }

  // Among them are those that in blocks assign only to locals whose slots are indices of locals.
  lemma ApartSheltered(fn: Function, mutables: seq<bool>, estimate: nat)
    requires Apart(LocalSlots(fn.params, fn.params + fn.locals), fn.body, false)
    ensures Sheltered(fn, mutables, estimate)
  {
    hide SetUp, Apart, Permits;
    if SetUp(fn, mutables, estimate).Some? {
      SetUpSound(fn, mutables, estimate);
      var a := SetUp(fn, mutables, estimate).value;
      assert Locals(a) == a.stack;
      ApartPermits(Comp(a, map[], [0], 0), fn.body, false);
    }
  }

  // With at most one parameter every slot is the index of its local.
  lemma {:induction false} FewApart(params: nat, n: nat, code: Code, inside: bool)
    requires params <= 1
    ensures Apart(LocalSlots(params, n), code, inside)
    decreases code, 0
  {
    match code
    case End =>
    case Then(head, rest) =>
      FewApartInstr(params, n, head, inside);
      FewApart(params, n, rest, inside);
  }

  lemma {:induction false} FewApartInstr(params: nat, n: nat, i: Instr, inside: bool)
    requires params <= 1
    ensures ApartInstr(LocalSlots(params, n), i, inside)
    decreases i, 0
  {
    match i
    case Basic(_) =>
    case Block(_, body) => FewApart(params, n, body, true);
    case Loop(_, body) => FewApart(params, n, body, true);
    case If(_, yes, no) =>
      FewApart(params, n, yes, true);
      if no.Some? {
        FewApart(params, n, no.value, true);
      }
    case Br(_) =>
    case BrIf(_) =>
  }

  lemma FewSheltered(fn: Function, mutables: seq<bool>, estimate: nat)
    requires fn.params <= 1
    ensures Sheltered(fn, mutables, estimate)
  {
    hide Sheltered, Apart;
    FewApart(fn.params, fn.params + fn.locals, fn.body, false);
    ApartSheltered(fn, mutables, estimate);
  }

  lemma BodyBuilds(fn: Function, mutables: seq<bool>, estimate: nat)
    requires Sheltered(fn, mutables, estimate) && SetUp(fn, mutables, estimate).Some?
    ensures var o := Comp(SetUp(fn, mutables, estimate).value, map[], [0], 0);
            && LiveComp(o) && Steady(o.a) && InContext(FunctionContext(fn, mutables), o.a) &&
              Tracks(o.a, Check(0, false))
            && Here(o) == START && Permits(o, fn.body) && Formed(o)
  {
    SetUpSound(fn, mutables, estimate);
    hide SetUp, Permits;
  }

  lemma BodyGrows(fn: Function, mutables: seq<bool>, o0: Comp, o: Comp)
    requires LiveComp(o0) && Permits(o0, fn.body) && Steady(o0.a) &&
             InContext(FunctionContext(fn, mutables), o0.a) && Tracks(o0.a, Check(0, false))
    requires |o0.a.scopes| == 1 && o0.a.scopes[0].init == o0.a.numLocals && o0.a.scopes[0].typed == fn.typed &&
             o0.a.scopes[0].opcode == FunctionBody
    requires CompileCode(o0, fn.body) == Some(o) && ValidFunction(fn, mutables)
    ensures Built(o) && Grew(o0, o) && |o.a.scopes| == 1 && o.a.scopes[0].typed == fn.typed &&
            o.a.scopes[0].init == o.a.numLocals
    ensures o.a.scopes[0].opcode == FunctionBody && o.page < |o.used| && o0.page < |o0.used|
    ensures Tracks(o.a, CheckCode(FunctionContext(fn, mutables), fn.body, Check(0, false)).value)
    ensures SameFrame(o0.a, o.a) && o.a.firstConst + |o.a.consts| <= o.a.firstDynamic
  {
    hide Placed, Counted, Bounded, Settled, OneInRegister, Patchable, InContext, Tracks;
    CodeGrows(o0, fn.body);
    CodeTracks(FunctionContext(fn, mutables), o0, fn.body, Check(0, false));
    assert ScopeGrew(o0.code, o0.a.scopes[0], o.a.scopes[0]);
  }

  // What the body does, and then what the whole function does.
  lemma BodyImplements(fn: Function, mutables: seq<bool>, o: Comp, f: Final, s: State, r: Outcome, fuel: nat)
    requires Built(o) && |o.a.scopes| == 1 && o.a.scopes[0].typed == fn.typed && o.a.scopes[0].init == o.a.numLocals
    requires o.a.scopes[0].opcode == FunctionBody && Finish(o).Some? && f == Final(Finish(o).value.code, o.a.consts)
    requires o.page < |o.used| && Does(f, [EndOf(o)], [0], o, At(START), s, r, fuel)
    requires LeaveBlock(r, 0, fn.typed) != Stuck && (r.Branch? ==> r.depth == 0)
    ensures Implements(f.code, s, fn.typed, LeaveBlock(r, 0, fn.typed), fuel)
  {
    BuiltFormed(o);
    hide Sound, Laid, Patchable, Related, Leads, Finish, Returning, Unwound, Fits;
    match r
    case Normal(w) =>
      var s1 :| Arrives(f, [0], o, At(START), s, w, s1);
      Finishes(o, f);
      EndNormally(f.code, o, f.consts, s, w, s1);
    case Branch(_, w) =>
      var s1 :| ToEnd(f, EndOf(o), [0], o.a, 0, w, At(START), s, s1);
      EndBranching(f, o, s, w, s1);
    case Trapping(t, w) =>
      var s1 :| Dies(f, At(START), s, t, w, s1);
    case _ =>
  }

  lemma CompileParts(fn: Function, mutables: seq<bool>, estimate: nat, c: Compiled) returns (o0: Comp, o: Comp)
    requires Compile(fn, mutables, estimate) == Some(c)
    ensures SetUp(fn, mutables, estimate).Some? && o0 == Comp(SetUp(fn, mutables, estimate).value, map[], [0], 0) &&
            Formed(o0)
    ensures CompileCode(o0, fn.body) == Some(o) && Formed(o) && Finish(o).Some?
    ensures c.final == Final(Finish(o).value.code, o.a.consts) && c.firstConst == o0.a.firstConst
  {
    hide SetUp, CompileCode, Finish;
    SetUpSound(fn, mutables, estimate);
    o0 := Comp(SetUp(fn, mutables, estimate).value, map[], [0], 0);
    o := CompileCode(o0, fn.body).value;
  }

  // Compiling preserves meaning: the compiled function returns what the function returns, traps when
  // it traps, with the same globals and memory, and goes on for as long as it goes on.
  lemma FunctionImplements(fn: Function, mutables: seq<bool>, estimate: nat, c: Compiled, args: seq<Word>, s: State,
                           fuel: nat)
    requires Sheltered(fn, mutables, estimate) && ValidFunction(fn, mutables)
    requires Compile(fn, mutables, estimate) == Some(c)
    requires |args| == fn.params && MAX_FUNCTION_SLOTS <= |s.slots| && Passed(s, args) && |s.globals| == |mutables|
    ensures ArgSlots(fn.params) <= c.firstConst && c.firstConst + |c.final.consts| <= |s.slots|
    ensures Implements(c.final.code, EnterFrame(s, c, ArgSlots(fn.params)), fn.typed,
                       Invoke(fn, args, s.globals, s.mem, fuel), fuel)
  {
    hide *;
    var o0, o := CompileParts(fn, mutables, estimate, c);
    var ctx, w := FunctionContext(fn, mutables), World(args + Zeros(fn.locals), [], s.globals, s.mem);
    SetUpSound(fn, mutables, estimate);
    BodyBuilds(fn, mutables, estimate);
    BodyGrows(fn, mutables, o0, o);
    SlotBounds(o0, o);
    EnterRelated(fn, mutables, estimate, c, args, s);
    Finishes(o, c.final);
    var s0, r := EnterFrame(s, c, ArgSlots(fn.params)), RunCode(fn.body, w, fuel);
    LiveParts(o0);
    SupposedMade(c.final, ctx, o0, w, s0);
    ValidParts(o0.a);
    BodySafe(fn, mutables, w, fuel);
    CodeDoes(c.final, [EndOf(o)], ctx, o0, fn.body, Check(0, false), w, s0, fuel);
    BodyImplements(fn, mutables, o, c.final, s0, r, fuel);
    InvokeIs(fn, args, s.globals, s.mem, fuel);
  }

  lemma SlotBounds(o: Comp, p: Comp)
    requires LiveComp(o) && SameFrame(o.a, p.a)
    ensures p.a.firstConst == o.a.firstConst && p.a.firstDynamic == o.a.firstDynamic <= MAX_FUNCTION_SLOTS && Valid(o.a)
  {
  }

  lemma InvokeIs(fn: Function, args: seq<Word>, globals: seq<Word>, mem: seq<Octet>, fuel: nat)
    ensures Invoke(fn, args, globals, mem, fuel) ==
            LeaveBlock(RunCode(fn.body, World(args + Zeros(fn.locals), [], globals, mem), fuel), 0, fn.typed)
  {
  }

  lemma BodySafe(fn: Function, mutables: seq<bool>, w: World, fuel: nat)
    requires ValidFunction(fn, mutables) && |w.locals| == fn.params + fn.locals && w.stack == [] &&
             |w.globals| == |mutables|
    ensures CheckCode(FunctionContext(fn, mutables), fn.body, Check(0, false)).Some?
    ensures var r := RunCode(fn.body, w, fuel);
            LeaveBlock(r, 0, fn.typed) != Stuck && (r.Branch? ==> r.depth == 0)
  {
    CodeSafe(FunctionContext(fn, mutables), fn.body, Check(0, false), 0, w, fuel);
  }

  // The compiled function returns exactly when the function does.
  lemma TerminateTogether(fn: Function, mutables: seq<bool>, estimate: nat, c: Compiled, args: seq<Word>, s: State)
    requires Sheltered(fn, mutables, estimate) && ValidFunction(fn, mutables)
    requires Compile(fn, mutables, estimate) == Some(c)
    requires |args| == fn.params && MAX_FUNCTION_SLOTS <= |s.slots| && Passed(s, args) && |s.globals| == |mutables|
    ensures ArgSlots(fn.params) <= c.firstConst && c.firstConst + |c.final.consts| <= |s.slots|
    ensures (exists fuel: nat :: !Invoke(fn, args, s.globals, s.mem, fuel).OutOfFuel?) <==>
            (exists r :: Returns(c.final.code, At(START), EnterFrame(s, c, ArgSlots(fn.params)), r))
  {
    hide Compile, ValidFunction, Sheltered, Invoke, EnterFrame, Passed;
    FunctionImplements(fn, mutables, estimate, c, args, s, 0);
    var s0 := EnterFrame(s, c, ArgSlots(fn.params));
    if r :| Returns(c.final.code, At(START), s0, r) {
      var fuel: nat :| Run(c.final.code, At(START), s0, fuel) == r;
      FunctionImplements(fn, mutables, estimate, c, args, s, fuel);
      assert !Invoke(fn, args, s.globals, s.mem, fuel).OutOfFuel?;
    }
    if fuel: nat :| !Invoke(fn, args, s.globals, s.mem, fuel).OutOfFuel? {
      FunctionImplements(fn, mutables, estimate, c, args, s, fuel);
      var r := Invoke(fn, args, s.globals, s.mem, fuel);
      match r {
        case Normal(w) =>
          var s1 :| Answers(c.final.code, s0, fn.typed, w, s1);
          assert Returns(c.final.code, At(START), s0, Done(s1));
        case Trapping(t, w) =>
          var s1 :| Returns(c.final.code, At(START), s0, Died(t, s1)) && s1.globals == w.globals && s1.mem == w.mem;
          assert Returns(c.final.code, At(START), s0, Died(t, s1));
      }
    }
  }
}
