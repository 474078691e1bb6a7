// Compiling a function and calling it, both on records that are updated in place: what comes out is
// what the function means (kernel/wasm3/source/m3_compile.c:2333-2410; m3_exec.c:198-240).
module CompileAndRun {
  import opened WasmValues
  import opened WasmSemantics
  import opened ThreadedMachine
  import opened MachineRuns
  import opened FunctionFrame
  import opened CompileFunction
  import opened Compilation
  import opened Interpreter

  // The operation a function begins with: the other locals are cleared and the constants copied.
  method Enter(m: Machine, ghost c: Compiled, argSlots: nat, firstConst: nat, consts: seq<Word>)
    requires c.firstConst == firstConst && c.final.consts == consts && m.slots != m.globals
    requires argSlots <= firstConst && firstConst + |consts| <= m.slots.Length
    modifies m.slots
    ensures m.With(0) == EnterFrame(old(m.With(0)), c, argSlots)
  {
    ghost var before := m.slots[..];
    ClearLocals(m.slots, argSlots, firstConst);
    CopyConstants(m.slots, firstConst, consts);
    assert m.slots[..] == before[..argSlots] + Zeros(firstConst - argSlots) + consts + before[firstConst + |consts|..];
  }

  method ClearLocals(slots: array<Word>, from: nat, to: nat)
    requires from <= to <= slots.Length
    modifies slots
    ensures forall i :: 0 <= i < slots.Length ==> slots[i] == if from <= i < to then 0 else old(slots[i])
  {
    for i := from to to
      invariant forall j :: 0 <= j < slots.Length ==> slots[j] == if from <= j < i then 0 else old(slots[j])
    {
      slots[i] := 0;
    }
  }

  method CopyConstants(slots: array<Word>, first: nat, consts: seq<Word>)
    requires first + |consts| <= slots.Length
    modifies slots
    ensures forall i :: 0 <= i < slots.Length ==>
              slots[i] == if first <= i < first + |consts| then consts[i - first] else old(slots[i])
  {
    for i := 0 to |consts|
      invariant forall j :: 0 <= j < slots.Length ==>
                  slots[j] == if first <= j < first + i then consts[j - first] else old(slots[j])
    {
      slots[first + i] := consts[i];
    }
  }

  // What a call ends with, told by what the function comes to.
  ghost predicate Comes(m: Machine, e: Exit, typed: bool, r: Outcome)
    reads m.slots, m.globals, m.memory
  {
    match r
    case Normal(w) =>
      e == OutOfTime ||
      (e == Finished && m.globals[..] == w.globals && m.memory[..] == w.mem &&
       (typed ==> |w.stack| == 1 && m.slots.Length > 0 && m.slots[0] == w.stack[0]))
    case Trapping(t, w) => e == OutOfTime || (e == Trap(t) && m.globals[..] == w.globals && m.memory[..] == w.mem)
    case OutOfFuel => e == OutOfTime
    case _ => false
  }

  // A run is never lost, whatever time it has.
  lemma NotLost(code: Memory, s: State, typed: bool, r: Outcome, fuel: nat)
    requires Implements(code, s, typed, r, fuel)
    ensures Exec(code, START, s, fuel) != Lost
  {
    match r
    case Normal(w) =>
      var s1 :| Answers(code, s, typed, w, s1);
      OneResult(code, At(START), s, Done(s1), fuel);
    case Trapping(t, w) =>
      var s1 :| Returns(code, At(START), s, Died(t, s1)) && s1.globals == w.globals && s1.mem == w.mem;
      OneResult(code, At(START), s, Died(t, s1), fuel);
    case _ =>
  }

  lemma RunComes(m: Machine, e: Exit, r0: int, code: Memory, s: State, typed: bool, r: Outcome, fuel: nat)
    requires Implements(code, s, typed, r, fuel) && m.Ended(e, r0) == Exec(code, START, s, fuel)
    ensures Comes(m, e, typed, r)
  {
    match r
    case Normal(w) =>
      var s1 :| Answers(code, s, typed, w, s1);
      OneResult(code, At(START), s, Done(s1), fuel);
    case Trapping(t, w) =>
      var s1 :| Returns(code, At(START), s, Died(t, s1)) && s1.globals == w.globals && s1.mem == w.mem;
      OneResult(code, At(START), s, Died(t, s1), fuel);
    case _ =>
  }

  // With the arguments on the slots of the parameters, the machine ends as the function does: with
  // the result in slot 0, with the same trap, and with the same globals and memory; it is still
  // running if it has had too little time, as when the function never ends.
  method CompileAndCall(fn: Function, mutables: seq<bool>, estimate: nat, m: Machine, ghost args: seq<Word>, fuel: nat)
    returns (compiled: bool, e: Exit)
    requires Sheltered(fn, mutables, estimate) && ValidFunction(fn, mutables)
    requires |args| == fn.params && Passed(m.With(0), args)
    requires MAX_FUNCTION_SLOTS <= m.slots.Length && m.globals.Length == |mutables| && m.slots != m.globals
    modifies m.slots, m.globals, m.memory
    ensures compiled == Compile(fn, mutables, estimate).Some?
    ensures compiled ==> Comes(m, e, fn.typed, Invoke(fn, args, old(m.globals[..]), old(m.memory[..]), fuel))
  {
    hide Compile, Sheltered, ValidFunction, Passed, EnterFrame, Invoke, Implements;
    var r, _ := CompileOne(fn, mutables, estimate);
    compiled, e := r.Some?, OutOfTime;
    if r.Some? {
      var c := r.value;
      ghost var s := m.With(0);
      FunctionImplements(fn, mutables, estimate, c, args, s, fuel);
      Enter(m, c, ArgSlots(fn.params), c.firstConst, c.final.consts);
      ghost var s0, outcome := m.With(0), Invoke(fn, args, s.globals, s.mem, fuel);
      NotLost(c.final.code, s0, fn.typed, outcome, fuel);
      var r0;
      r0, e := m.Run(c.final.code, START, 0, fuel);
      RunComes(m, e, r0, c.final.code, s0, fn.typed, outcome, fuel);
    }
  }
}
