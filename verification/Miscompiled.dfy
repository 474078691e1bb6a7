// Functions for which compiling goes wrong: with two parameters or more the slot of the last local is
// no index of a local, so that a reference to it is not given a slot of its own before a block
// (kernel/wasm3/source/m3_compile.c:1525-1553, 2365-2395).
module Miscompiled {
  import opened WasmValues
  import opened WasmSemantics
  import opened Wrappers
  import opened WasmValidation
  import opened ThreadedMachine
  import opened MachineRuns
  import opened SlotAllocator
  import opened PlainCompile
  import opened PlainInvariants
  import opened ControlCompile
  import opened ControlOutcomes
  import opened FunctionFrame
  import opened CompileFunction

  // local.get i; loop; i32.const 9; local.set i; end
  function Overwriting(i: nat): Code {
    Then(Basic(LocalGet(i)), Then(Loop(false, Then(Basic(Const(9)), Then(Basic(LocalSet(i)), End))), End))
  }

  function Culprit(params: nat, locals: nat): (fn: Function)
    requires params + locals > 0
  {
    Function(params, locals, true, Overwriting(params + locals - 1))
  }

  lemma CulpritValid(params: nat, locals: nat, mutables: seq<bool>)
    requires params + locals > 0
    ensures ValidFunction(Culprit(params, locals), mutables)
  {
    var ctx, i := FunctionContext(Culprit(params, locals), mutables), params + locals - 1;
    var body := Then(Basic(Const(9)), Then(Basic(LocalSet(i)), End));
    assert CheckCode(Within(ctx, false), Then(Basic(LocalSet(i)), End), Check(1, false)) == Some(Check(0, false));
    assert CheckCode(Within(ctx, false), body, Check(0, false)) == Some(Check(0, false));
    assert ValidBlock(ctx, false, false, body);
    assert CheckInstr(ctx, Loop(false, body), Check(1, false)) == Some(Check(1, false));
    assert CheckCode(ctx, Then(Loop(false, body), End), Check(1, false)) == Some(Check(1, false));
  }

  // It returns the value that the last local has in the beginning.
  lemma CulpritMeans(params: nat, locals: nat, args: seq<Word>, globals: seq<Word>, mem: seq<Octet>, fuel: nat)
    requires params + locals > 0 && |args| == params
    ensures var vals := args + Zeros(locals);
            Invoke(Culprit(params, locals), args, globals, mem, fuel) ==
            Normal(World(vals[params + locals - 1 := 9], [vals[params + locals - 1]], globals, mem))
  {
    var i, vals := params + locals - 1, args + Zeros(locals);
    var rest, body := Then(Basic(LocalSet(i)), End), Then(Basic(Const(9)), Then(Basic(LocalSet(i)), End));
    var w0 := World(vals, [], globals, mem);
    var w1, w2, w3 := Push(w0, vals[i]), Push(Push(w0, vals[i]), 9), w0.(locals := vals[i := 9], stack := [vals[i]]);
    assert w2.stack[..1] == [vals[i]];
    assert RunCode(rest, w2, fuel) == Normal(w3);
    assert RunCode(body, w1, fuel) == Normal(w3);
    assert RunLoop(false, body, w1, fuel) == Normal(w3);
    assert RunInstr(Loop(false, body), w1, fuel) == Normal(w3);
    assert RunCode(Then(Loop(false, body), End), w1, fuel) == Normal(w3);
    assert RunInstr(Basic(LocalGet(i)), w0, fuel) == Normal(w1);
    assert RunCode(Overwriting(i), w0, fuel) == Normal(w3);
  }

  // ---------------------------------------------------------------------------------
  // What it is compiled to.

  // The compilation at the start of the body: n locals, the last of them on slot last.
  predicate Starts(a: Alloc, n: nat, last: nat) {
    && Sound(a) && a.numLocals == n == |a.stack| > 0 && a.stack[n - 1] == last &&
      n <= last < a.firstConst < a.firstDynamic
    && a.consts == [] && a.regIndexPlusOne == 0 && n + 2 <= MAX_FUNCTION_STACK_HEIGHT
    && a.scopes == [Scope(FunctionBody, true, n, false, Pc(0, 0), [])]
  }

  lemma Starting(params: nat, locals: nat, mutables: seq<bool>, estimate: nat)
    requires params >= 2 && params + locals + 2 <= MAX_FUNCTION_STACK_HEIGHT && estimate > 0
    requires SetUp(Culprit(params, locals), mutables, estimate).Some?
    ensures var a := SetUp(Culprit(params, locals), mutables, estimate).value;
            Starts(a, params + locals, LocalSlot(params, params + locals - 1))
  {
    hide SetUp, Sound, OneInRegister;
    SetUpSound(Culprit(params, locals), mutables, estimate);
  }

  // Nothing above the locals uses slot i.
  lemma {:induction false} NoUses(stack: seq<nat>, from: nat, slot: nat)
    requires forall k :: from <= k < |stack| ==> stack[k] != slot
    ensures Uses(stack, from, slot) == 0
  {
    if |stack| > 0 {
      NoUses(stack[..|stack| - 1], from, slot);
    }
  }

  // The reference is overlooked.
  lemma {:induction false} NothingPreserved(a: Alloc, i: nat)
    requires Shaped(a) && SearchStart(a.scopes) == a.numLocals
    requires forall k :: a.numLocals <= k < |a.stack| ==> a.stack[k] >= a.numLocals
    ensures PreserveLocalsFrom(a, i) == Some(Out(a, []))
    decreases a.numLocals - i
  {
    if i < a.numLocals {
      NoUses(a.stack, a.numLocals, i);
      NothingPreserved(a, i + 1);
      assert [] + PreserveLocalsFrom(a, i + 1).value.ops == [];
    }
  }

  function Got(a: Alloc, last: nat): Alloc {
    a.(stack := a.stack + [last])
  }

  lemma Gets(a: Alloc, n: nat, last: nat)
    requires Starts(a, n, last)
    ensures Shaped(a) && CompilePlain(a, LocalGet(n - 1)) == Some(Out(Got(a, last), []))
    ensures PreserveRegister(Got(a, last)) == Some(Out(Got(a, last), []))
    ensures PreserveLocals(Got(a, last)) == Some(Out(Got(a, last), []))
  {
    hide Counted, Bounded, Settled;
    NothingPreserved(Got(a, last), 0);
  }

  // In the loop, with the constant on the stack.
  function Inside(a: Alloc, last: nat): Alloc {
    Got(a, last).(scopes := [Scope(LoopBody, false, |a.stack| + 1, false, Pc(0, 1), [])] + a.scopes)
  }

  function WithConst(a: Alloc, last: nat): Alloc
    requires a.firstConst < |a.slots|
  {
    var b := Inside(a, last);
    b.(slots := b.slots[a.firstConst := 1], maxAllocated := Max(a.maxAllocated, a.firstConst + 1), consts := [9],
       stack := b.stack + [a.firstConst])
  }

  lemma PushesConst(a: Alloc, n: nat, last: nat)
    requires Starts(a, n, last)
    ensures a.firstConst < |a.slots| && Shaped(Inside(a, last))
    ensures CompilePlain(Inside(a, last), Const(9)) == Some(Out(WithConst(a, last), []))
  {
    hide Placed, Counted, Bounded, Settled;
    assert a.slots[a.firstConst] == 0;
    assert SetConst([], 0, 9) == [9];
    assert AllocateWithin(Inside(a, last), a.firstConst, a.firstDynamic).value.slot == a.firstConst;
  }

  lemma SetsLast(a: Alloc, n: nat, last: nat)
    requires Starts(a, n, last) && a.firstConst < |a.slots|
    ensures var b := WithConst(a, last);
            && Shaped(b) && b.stack[..n + 1] == Got(a, last).stack
            && CompilePlain(b, LocalSet(n - 1)) ==
              Some(Out(b.(stack := b.stack[..n + 1]), [CopySlot(last, a.firstConst)]))
  {
    hide Counted, Bounded, Settled;
    var b := WithConst(a, last);
    NoUses(b.stack, n + 1, last);
  }

  // The lines from the start of the body to its end.
  predicate Lines(code: Memory, last: nat, source: nat) {
    && Pc(0, 0) in code && code[Pc(0, 0)] == LoopOp
    && Pc(0, 1) in code && code[Pc(0, 1)] == Do(CopySlot(last, source))
  }

  lemma CompilesTo(a: Alloc, n: nat, last: nat) returns (p: Comp)
    requires Starts(a, n, last)
    ensures Formed(Comp(a, map[], [0], 0)) && CompileCode(Comp(a, map[], [0], 0), Overwriting(n - 1)) == Some(p)
    ensures Formed(p) && Lines(p.code, last, a.firstConst) && p.used == [2] && p.page == 0
    ensures p.a.stack == Got(a, last).stack && p.a.scopes == a.scopes && p.a.consts == [9]
  {
    Gets(a, n, last);
    hide Starts, CompilePlain, PreserveRegister, PreserveLocals, Shaped, Prepare;
    var o := Comp(a, map[], [0], 0);
    var o1 := o.(a := Got(a, last));
    PreparesNothing(o1);
    var o2 := Emit(o1, LoopOp);
    p := LoopCompilesTo(o2, a, n, last);
    EmitsNothing(o, Got(a, last));
    var body := Then(Basic(Const(9)), Then(Basic(LocalSet(n - 1)), End));
    assert CompileInstr(o, Basic(LocalGet(n - 1))) == Some(o1);
    assert CompileInstr(o1, Loop(false, body)) == Some(p);
    assert CompileCode(o1, Then(Loop(false, body), End)) == Some(p);
  }

  lemma PreparesNothing(o: Comp)
    requires Formed(o) && PreserveRegister(o.a) == PreserveLocals(o.a) == Some(Out(o.a, []))
    ensures Prepare(o) == Some(o)
  {
    EmitsNothing(o, o.a);
  }

  lemma LoopCompilesTo(o: Comp, a: Alloc, n: nat, last: nat) returns (p: Comp)
    requires Starts(a, n, last) && o.a == Got(a, last) && Formed(o) && o.page == 0 && o.used == [1]
    requires Pc(0, 0) in o.code && o.code[Pc(0, 0)] == LoopOp
    ensures CompileBlock(o, LoopBody, false, Then(Basic(Const(9)), Then(Basic(LocalSet(n - 1)), End))) == Some(p)
    ensures Formed(p) && Lines(p.code, last, a.firstConst) && p.used == [2] && p.page == 0
    ensures p.a.stack == Got(a, last).stack && p.a.scopes == a.scopes && p.a.consts == [9]
  {
    PushesConst(a, n, last);
    SetsLast(a, n, last);
    var b := WithConst(a, last);
    var b1 := b.(stack := b.stack[..n + 1]);
    assert |a.stack| == n;
    hide Starts, CompilePlain, Shaped;
    var o1 := EnterScope(o, LoopBody, false);
    var o2 := o1.(a := b);
    var o3 := EmitOut(o2, Out(b1, [CopySlot(last, a.firstConst)]));
    EmitsNothing(o1, b);
    assert o1.a == Inside(a, last);
    assert CompileInstr(o1, Basic(Const(9))) == Some(o2);
    assert CompileInstr(o2, Basic(LocalSet(n - 1))) == Some(o3);
    assert CompileCode(o2, Then(Basic(LocalSet(n - 1)), End)) == Some(o3);
    EmitsOne(o2, b1, CopySlot(last, a.firstConst));
    p := LeavesLoop(o3, n + 1);
  }

  lemma EmitsOne(o: Comp, b: Alloc, op: Straight)
    requires Formed(o)
    ensures EmitOut(o, Out(b, [op])) == Emit(o.(a := b), Do(op))
  {
    var o1 := o.(a := b);
    assert [op][1..] == [];
    assert EmitAll(o1, [op]) == EmitAll(Emit(o1, Do(op)), []);
  }

  lemma LeavesLoop(o: Comp, height: nat) returns (p: Comp)
    requires Formed(o) && |o.a.scopes| > 1 && |o.a.stack| == height
    requires !o.a.scopes[0].typed && o.a.scopes[0].init == height && o.a.scopes[0].patches == []
    ensures LeaveScope(o) == Some(p) && p == o.(a := o.a.(scopes := o.a.scopes[1..]))
  {
    EmitsNothing(o, o.a);
    p := o.(a := o.a.(scopes := o.a.scopes[1..]));
  }

  lemma EmitsNothing(o: Comp, b: Alloc)
    requires Formed(o)
    ensures EmitOut(o, Out(b, [])) == o.(a := b)
  {
  }

  // The whole code: the last local is overwritten before its value is returned.
  predicate Whole(code: Memory, last: nat, source: nat) {
    && Lines(code, last, source)
    && Pc(0, 2) in code && code[Pc(0, 2)] == Do(CopySlot(0, last))
    && Pc(0, 3) in code && code[Pc(0, 3)] == Return
  }

  lemma FinishesAs(o: Comp, last: nat, source: nat)
    requires Formed(o) && Lines(o.code, last, source) && o.used == [2] && o.page == 0
    requires |o.a.stack| > 0 && o.a.stack[|o.a.stack| - 1] == last && 0 < last < REG0
    requires |o.a.scopes| > 0 && o.a.scopes[0].typed && o.a.scopes[0].patches == []
    ensures Finish(o).Some? && Whole(Finish(o).value.code, last, source)
  {
    EmitsOne(o, o.a, CopySlot(0, last));
    assert FinalOps(o.a) == Some([CopySlot(0, last)]);
    var o1 := Emit(o, Do(CopySlot(0, last)));
    assert EmitAll(o, [CopySlot(0, last)]) == o1;
    assert Finish(o) == Some(Emit(o1, Return));
  }

  lemma CulpritCompiles(params: nat, locals: nat, mutables: seq<bool>, estimate: nat) returns (c: Compiled)
    requires params >= 2 && params + locals + 2 <= MAX_FUNCTION_STACK_HEIGHT && estimate > 0
    requires SetUp(Culprit(params, locals), mutables, estimate).Some?
    ensures var a, last := SetUp(Culprit(params, locals), mutables, estimate).value,
            LocalSlot(params, params + locals - 1);
            && Compile(Culprit(params, locals), mutables, estimate) == Some(c) && c.firstConst == a.firstConst
            && c.final.consts == [9] && 0 < last < a.firstConst < a.firstDynamic <= MAX_FUNCTION_SLOTS
            && Whole(c.final.code, last, a.firstConst)
  {
    var fn, n, last := Culprit(params, locals), params + locals, LocalSlot(params, params + locals - 1);
    Starting(params, locals, mutables, estimate);
    SetUpSound(fn, mutables, estimate);
    var a := SetUp(fn, mutables, estimate).value;
    var p := CompilesTo(a, n, last);
    hide SetUp, OneInRegister, Settled, CompileCode, Finish, Lines, Whole;
    FinishesAs(p, last, a.firstConst);
    c := Compiled(Final(Finish(p).value.code, p.a.consts), a.firstConst);
  }

  // Running it ends with the constant in slot 0.
  lemma CulpritRuns(code: Memory, last: nat, source: nat, s: State) returns (s1: State)
    requires Whole(code, last, source) && 0 < last < |s.slots| && source < |s.slots| && s.slots[source] == 9
    ensures Returns(code, At(START), s, Done(s1)) && |s1.slots| > 0 && s1.slots[0] == 9
  {
    var t0 := s.(r0 := 0);
    var t1 := Put(t0, last, 9);
    s1 := Put(t1, 0, 9);
    assert t0.slots[source] == 9 && t1.slots[last] == 9;
    hide Returns, Exec, ExecLoop;
    Enters(code, [], START, s);
    OneTurn(code, [], Pc(0, 1), t0);
    Goes(code, [], Pc(0, 1), t0, Pc(0, 2), t1);
    Goes(code, [], Pc(0, 2), t1, Pc(0, 3), s1);
    Leaves(code, Pc(0, 3), s1, Done(s1));
  }

  // Compiling is wrong about this function, whatever its arguments are, unless the last local happens
  // to hold what it is overwritten with.
  lemma CulpritMiscompiled(params: nat, locals: nat, mutables: seq<bool>, estimate: nat, args: seq<Word>, s: State,
                           fuel: nat) returns (c: Compiled)
    requires params >= 2 && params + locals + 2 <= MAX_FUNCTION_STACK_HEIGHT && estimate > 0
    requires SetUp(Culprit(params, locals), mutables, estimate).Some?
    requires |args| == params && MAX_FUNCTION_SLOTS <= |s.slots| && Passed(s, args) && |s.globals| == |mutables|
    requires (args + Zeros(locals))[params + locals - 1] != 9
    ensures Compile(Culprit(params, locals), mutables, estimate) == Some(c)
    ensures ArgSlots(params) <= c.firstConst && c.firstConst + |c.final.consts| <= |s.slots|
    ensures !Implements(c.final.code, EnterFrame(s, c, ArgSlots(params)), true,
                        Invoke(Culprit(params, locals), args, s.globals, s.mem, fuel), fuel)
  {
    c := CulpritCompiles(params, locals, mutables, estimate);
    hide Whole, Compile, SetUp, Returns, Passed, Invoke;
    SetUpSound(Culprit(params, locals), mutables, estimate);
    var s0, last := EnterFrame(s, c, ArgSlots(params)), LocalSlot(params, params + locals - 1);
    assert s0.slots[c.firstConst] == c.final.consts[0];
    var s1 := CulpritRuns(c.final.code, last, c.firstConst, s0);
    CulpritMeans(params, locals, args, s.globals, s.mem, fuel);
    forall s2 | Returns(c.final.code, At(START), s0, Done(s2)) ensures s2 == s1 {
      ReturnsOnce(c.final.code, At(START), s0, Done(s1), Done(s2));
    }
  }

  // ---------------------------------------------------------------------------------
  // For which shapes of function compiling is right, whatever the body.

  // The compiled function does what the function does, however it is called.
  ghost predicate CompiledRight(fn: Function, mutables: seq<bool>, estimate: nat) {
    forall c: Compiled, args: seq<Word>, s: State, fuel: nat ::
      Called(fn, mutables, estimate, c, args, s) ==> DoesRight(fn, c, args, s, fuel)
  }

  predicate Called(fn: Function, mutables: seq<bool>, estimate: nat, c: Compiled, args: seq<Word>, s: State) {
    && Compile(fn, mutables, estimate) == Some(c) && |args| == fn.params && MAX_FUNCTION_SLOTS <= |s.slots|
    && Passed(s, args) && |s.globals| == |mutables|
  }

  ghost predicate DoesRight(fn: Function, c: Compiled, args: seq<Word>, s: State, fuel: nat) {
    && ArgSlots(fn.params) <= c.firstConst && c.firstConst + |c.final.consts| <= |s.slots|
    && Implements(c.final.code, EnterFrame(s, c, ArgSlots(fn.params)), fn.typed,
                  Invoke(fn, args, s.globals, s.mem, fuel), fuel)
  }

  lemma ShelteredRight(fn: Function, mutables: seq<bool>, estimate: nat)
    requires Sheltered(fn, mutables, estimate) && ValidFunction(fn, mutables)
    ensures CompiledRight(fn, mutables, estimate)
  {
    hide Sheltered, ValidFunction, Compile, Invoke, EnterFrame, Implements, Passed;
    forall c: Compiled, args: seq<Word>, s: State, fuel: nat | Called(fn, mutables, estimate, c, args, s)
      ensures DoesRight(fn, c, args, s, fuel)
    {
      FunctionImplements(fn, mutables, estimate, c, args, s, fuel);
    }
  }

  lemma CulpritWrong(params: nat, locals: nat, mutables: seq<bool>, estimate: nat)
    requires params >= 2 && params + locals + 2 <= MAX_FUNCTION_STACK_HEIGHT && estimate > 0
    requires SetUp(Culprit(params, locals), mutables, estimate).Some?
    ensures !CompiledRight(Culprit(params, locals), mutables, estimate)
  {
    hide Compile, SetUp, Implements, EnterFrame, Invoke;
    var fn, args := Culprit(params, locals), Zeros(params);
    SetUpSound(fn, mutables, estimate);
    var s := State(Zeros(MAX_FUNCTION_SLOTS), 0, Zeros(|mutables|), []);
    ArgsFit(fn, mutables, estimate);
    var c := CulpritMiscompiled(params, locals, mutables, estimate, args, s, 0);
    assert Called(fn, mutables, estimate, c, args, s) && !DoesRight(fn, c, args, s, 0);
  }

  lemma ArgsFit(fn: Function, mutables: seq<bool>, estimate: nat)
    requires SetUp(fn, mutables, estimate).Some?
    ensures ArgSlots(fn.params) <= MAX_FUNCTION_SLOTS
  {
    SetUpSound(fn, mutables, estimate);
  }

  // Whatever the body, functions with the given numbers of parameters and locals are compiled right if
  // and only if there is at most one parameter.
  lemma RightForEveryBody(params: nat, locals: nat, mutables: seq<bool>, estimate: nat)
    requires params + locals + 2 <= MAX_FUNCTION_STACK_HEIGHT && estimate > 0 && params + locals > 0
    requires SetUp(Culprit(params, locals), mutables, estimate).Some?
    ensures (forall fn: Function :: fn.params == params && fn.locals == locals && ValidFunction(fn, mutables)
               ==> CompiledRight(fn, mutables, estimate))
            <==> params <= 1
  {
    hide ValidFunction, CompiledRight, SetUp, Sheltered;
    if params <= 1 {
      forall fn: Function | fn.params == params && fn.locals == locals && ValidFunction(fn, mutables)
        ensures CompiledRight(fn, mutables, estimate)
      {
        FewSheltered(fn, mutables, estimate);
        ShelteredRight(fn, mutables, estimate);
      }
    } else {
      CulpritValid(params, locals, mutables);
      CulpritWrong(params, locals, mutables, estimate);
    }
  }
}
