// A compiled function on pages does what the function does
// (kernel/wasm3/source/m3_emit.c:13-104; m3_compile.c:2333-2410).
module PagedFunction {
  import opened WasmValues
  import opened WasmSemantics
  import opened Wrappers
  import opened ThreadedMachine
  import opened MachineRuns
  import opened FunctionFrame
  import opened CompileFunction
  import opened PagedMachine
  import opened PageLayout
  import opened EmissionLog
  import opened Compilation
  import opened CodePages
  import opened Transcription
  import opened PageEmission

  // The machine, running what the pages hold from the address of the function on, ends with the
  // result in slot 0 and the globals and memory that the call leaves.
  ghost predicate PagesAnswer(y: Layout, s: State, typed: bool, w: World, s1: State)
    requires START in y.to
  {
    && PagedReturns(y.lines, At(y.to[START]), s, Done(s1)) && s1.globals == w.globals && s1.mem == w.mem
    && (typed ==> |w.stack| == 1 && |s1.slots| > 0 && s1.slots[0] == w.stack[0])
  }

  ghost predicate PagesImplement(y: Layout, s: State, typed: bool, r: Outcome, fuel: nat)
    requires START in y.to
  {
    match r
    case Normal(w) => exists s1 :: PagesAnswer(y, s, typed, w, s1)
    case Trapping(t, w) =>
      exists s1 :: PagedReturns(y.lines, At(y.to[START]), s, Died(t, s1)) && s1.globals == w.globals && s1.mem == w.mem
    case OutOfFuel => PagedExec(y.lines, y.to[START], s, fuel) == Unfinished
    case Branch(_, _) => false
    case Stuck => false
  }

  lemma PagesReturnToo(y: Layout, s: State, r: Returned)
    requires Consistent(y) && START in y.to && Returns(y.code, At(START), s, r) && !r.Again? && r != Lost
    ensures PagedReturns(y.lines, At(y.to[START]), s, r)
  {
    hide LaidOut, Begins;
    BeginsAtStart(y);
    var fuel: nat :| Run(y.code, At(START), s, fuel) == r;
    PagesReturn(y.code, y.lines, y.at, y.to, At(START), s, fuel);
  }

  lemma BeginsAtStart(y: Layout)
    requires START in y.to
    ensures Begins(y.code, y.to, At(START))
  {
  }

  // Wherever the bridges are, a function whose tape has been emitted to pages is compiled right: what
  // FunctionImplements says of the tape holds of the pages.
  lemma OnPages(fn: Function, mutables: seq<bool>, estimate: nat, c: Compiled, args: seq<Word>, s: State, y: Layout,
                fuel: nat)
    requires Sheltered(fn, mutables, estimate) && ValidFunction(fn, mutables)
    requires Compile(fn, mutables, estimate) == Some(c) && Consistent(y) && y.code == c.final.code && START in y.to
    requires |args| == fn.params && MAX_FUNCTION_SLOTS <= |s.slots| && Passed(s, args) && |s.globals| == |mutables|
    ensures ArgSlots(fn.params) <= c.firstConst && c.firstConst + |c.final.consts| <= |s.slots|
    ensures PagesImplement(y, EnterFrame(s, c, ArgSlots(fn.params)), fn.typed,
                           Invoke(fn, args, s.globals, s.mem, fuel), fuel)
  {
    hide Compile, Sheltered, ValidFunction, Passed, EnterFrame, Invoke, Consistent;
    FunctionImplements(fn, mutables, estimate, c, args, s, fuel);
    var s0, r := EnterFrame(s, c, ArgSlots(fn.params)), Invoke(fn, args, s.globals, s.mem, fuel);
    match r
    case Normal(w) =>
      var s1 :| Answers(y.code, s0, fn.typed, w, s1);
      PagesReturnToo(y, s0, Done(s1));
      assert PagesAnswer(y, s0, fn.typed, w, s1);
    case Trapping(t, w) =>
      var s1 :| Returns(y.code, At(START), s0, Died(t, s1)) && s1.globals == w.globals && s1.mem == w.mem;
      PagesReturnToo(y, s0, Died(t, s1));
    case OutOfFuel =>
      BeginsAtStart(y);
      LaidOutToo(y);
      PagesUnfinished(y.code, y.lines, y.at, y.to, At(START), s0, fuel);
    case _ =>
  }

  lemma LaidOutToo(y: Layout)
    requires Consistent(y)
    ensures LaidOut(y.code, y.lines, y.at, y.to)
  {
  }

  // What the pages hold from the address of the function on does what the function does, whatever the
  // arguments, the globals and the memory are.
  ghost predicate Works(fn: Function, mutables: seq<bool>, c: Compiled, y: Layout)
    requires START in y.to
  {
    forall args: seq<Word>, s: State, fuel: nat :: Called(fn, mutables, args, s) ==> WorksFor(fn, c, y, args, s, fuel)
  }

  predicate Called(fn: Function, mutables: seq<bool>, args: seq<Word>, s: State) {
    |args| == fn.params && MAX_FUNCTION_SLOTS <= |s.slots| && Passed(s, args) && |s.globals| == |mutables|
  }

  ghost predicate WorksFor(fn: Function, c: Compiled, y: Layout, args: seq<Word>, s: State, fuel: nat)
    requires START in y.to && |args| == fn.params
  {
    && ArgSlots(fn.params) <= c.firstConst && c.firstConst + |c.final.consts| <= |s.slots|
    && PagesImplement(y, EnterFrame(s, c, ArgSlots(fn.params)), fn.typed,
                      Invoke(fn, args, s.globals, s.mem, fuel), fuel)
  }

  lemma AllWork(fn: Function, mutables: seq<bool>, estimate: nat, c: Compiled, y: Layout)
    requires Sheltered(fn, mutables, estimate) && ValidFunction(fn, mutables)
    requires Compile(fn, mutables, estimate) == Some(c) && Consistent(y) && y.code == c.final.code && START in y.to
    ensures Works(fn, mutables, c, y)
  {
    forall args: seq<Word>, s: State, fuel: nat | Called(fn, mutables, args, s)
      ensures WorksFor(fn, c, y, args, s, fuel)
    {
      hide Compile, Sheltered, ValidFunction, Passed, EnterFrame, Invoke, Consistent, PagesImplement;
      OnPages(fn, mutables, estimate, c, args, s, y, fuel);
    }
  }

  // Compiling a function to pages: the lines are on the pages, and running them from the address returned
  // does what the function does.  No page is left active that was not before.
  method CompileToPages(fn: Function, mutables: seq<bool>, estimate: nat, runtime: Runtime)
    returns (r: Option<Compiled>, start: Pc, ghost y: Layout)
    requires runtime.Valid() && ValidFunction(fn, mutables) && Sheltered(fn, mutables, estimate)
    modifies runtime, runtime.repr
    ensures r == Compile(fn, mutables, estimate) && runtime.Valid() && runtime.active == old(runtime.active)
    ensures r.Some? ==> Printed(runtime.Contents().cells, y.lines)
    ensures r.Some? ==> START in y.to && y.to[START] == start && Works(fn, mutables, r.value, y)
    ensures old(runtime.repr) <= runtime.repr && fresh(runtime.repr - old(runtime.repr))
  {
    hide Compile, Sheltered, ValidFunction, Works, TapesOf, Emission.Valid, Runtime.Contents, Runtime.Valid, Found;
    hide Waiting, Consistent;
    var t := new Transcriber(runtime);
    var log;
    r, log := CompileOne(fn, mutables, estimate);
    if r.Some? {
      t.PerformAll(log);
    }
    start := t.Start();
    assert t.tapes.saved == [] && t.emission.layout.ends.Keys == {t.emission.tape};
    t.emission.Release();
    y := t.emission.layout;
    if r.Some? {
      AllWork(fn, mutables, estimate, r.value, y);
    }
  }
}
