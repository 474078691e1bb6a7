// Running what is emitted for an instruction does what the instruction means: every operand is
// found where the compiler says it is, and every local holds its current value
// (kernel/wasm3/source/m3_compile.c:361-384, 554-658, 785-892, 1057-1168, 1747-1930).
module PlainSimulation {
  import opened WasmValues
  import opened WasmSemantics
  import opened Wrappers
  import opened ThreadedMachine
  import opened SlotAllocator
  import opened PlainCompile
  import opened PlainInvariants

  // What is in a place.
  function Held(loc: nat, s: State): Word {
    if loc == REG0 then Register(s) else if loc < |s.slots| then s.slots[loc] else 0
  }

  predicate Agree(stack: seq<nat>, vals: seq<Word>, s: State) {
    |stack| == |vals| && forall i :: 0 <= i < |stack| ==> Held(stack[i], s) == vals[i]
  }

  // The frame holds the constants of the finished function.
  predicate Furnished(a: Alloc, consts: seq<Word>, s: State) {
    && |s.slots| >= MAX_FUNCTION_SLOTS && a.firstConst + |consts| <= a.firstDynamic <= MAX_FUNCTION_SLOTS
    && a.consts <= consts
    && forall k :: 0 <= k < |consts| ==> s.slots[a.firstConst + k] == consts[k]
  }

  // The machine is in the state that the compiler believes it to be in.
  predicate Related(a: Alloc, consts: seq<Word>, w: World, s: State) {
    && |w.locals| == a.numLocals && Agree(a.stack, w.locals + w.stack, s)
    && Furnished(a, consts, s)
    && w.globals == s.globals && w.mem == s.mem && |a.mutables| == |w.globals|
  }

  // Compiling code that may be reached.
  predicate Live(a: Alloc) {
    Sound(a) && OneInRegister(a) && !Polymorphic(a)
  }

  // ---------------------------------------------------------------------------------
  // Pushing, popping and writing.

  lemma PushRelated(a: Alloc, consts: seq<Word>, w: World, s: State, loc: nat, v: Word)
    requires Related(a, consts, w, s) && PushAt(a, loc).Some? && Held(loc, s) == v
    ensures Related(PushAt(a, loc).value, consts, Push(w, v), s)
  {
    assert w.locals + Push(w, v).stack == (w.locals + w.stack) + [v];
  }

  lemma PopRelated(a: Alloc, consts: seq<Word>, w: World, s: State)
    requires Related(a, consts, w, s) && Live(a) && PopTop(a).Some?
    ensures |w.stack| > 0 && |a.stack| > 0
    ensures Operand(w, 0) == Held(TopSlot(a), s) && (TopSlot(a) == REG0 <==> InRegister(a, 0))
    ensures TopSlot(a) != REG0 ==> TopSlot(a) < |s.slots| && TopSlot(a) < MAX_FUNCTION_SLOTS
    ensures Related(PopTop(a).value, consts, Pop(w, 1), s) && Live(PopTop(a).value)
  {
    Pops(a);
    var vals := w.locals + w.stack;
    assert Place(a, TopSlot(a));
    assert w.locals + Pop(w, 1).stack == vals[..|vals| - 1];
    assert vals[|vals| - 1] == Operand(w, 0);
  }

  // Writing to a slot that holds nothing.
  lemma PutRelated(a: Alloc, consts: seq<Word>, w: World, s: State, slot: nat, v: Word)
    requires Related(a, consts, w, s) && slot !in a.stack && a.firstDynamic <= slot < |s.slots|
    ensures Related(a, consts, w, Put(s, slot, v))
  {
    forall i | 0 <= i < |a.stack| ensures Held(a.stack[i], Put(s, slot, v)) == Held(a.stack[i], s) {
      assert a.stack[i] in a.stack;
    }
  }

  lemma FreeRegister(a: Alloc)
    requires OneInRegister(a) && a.regIndexPlusOne == 0
    ensures REG0 !in a.stack
  {
  }

  lemma SetRelated(a: Alloc, consts: seq<Word>, w: World, s: State, signed: bool, v: Word)
    requires Related(a, consts, w, s) && OneInRegister(a) && a.regIndexPlusOne == 0
    ensures Related(a, consts, w, SetR0(s, signed, v)) && Register(SetR0(s, signed, v)) == v
  {
    FreeRegister(a);
    WrapSigned(v);
    forall i | 0 <= i < |a.stack| ensures Held(a.stack[i], SetR0(s, signed, v)) == Held(a.stack[i], s) {
      assert a.stack[i] in a.stack;
    }
  }

  lemma PushAllocatedRelated(a: Alloc, consts: seq<Word>, w: World, s: State, v: Word)
    requires Related(a, consts, w, s) && Sound(a) && PushAllocated(a).Some?
    ensures var p := PushAllocated(a).value;
            p.slot < |s.slots| && Related(p.alloc, consts, Push(w, v), Put(s, p.slot, v))
  {
    hide Registered, Settled, OneInRegister;
    FreeSlot(a);
    var p := AllocateSlot(a).value;
    PutRelated(a, consts, w, s, p.slot, v);
    PushRelated(p.alloc, consts, w, Put(s, p.slot, v), p.slot, v);
  }

  // ---------------------------------------------------------------------------------
  // Emptying the register.

  lemma PreserveRelated(a: Alloc, consts: seq<Word>, w: World, s: State)
    requires Related(a, consts, w, s) && Sound(a) && OneInRegister(a) && PreserveRegister(a).Some?
    ensures var p := PreserveRegister(a).value;
            var r := PerformAll(p.ops, s);
            r.Next? && Related(p.alloc, consts, w, r.state) && p.alloc.regIndexPlusOne == 0 && OneInRegister(p.alloc)
  {
    Preserves(a);
    if a.regIndexPlusOne != 0 {
      FreeSlot(a);
      var p, c, index := PreserveRegister(a).value, AllocateSlot(a).value.slot, a.regIndexPlusOne - 1;
      var v := Register(s);
      assert Perform(SetSlot(c), s) == Next(Put(s, c, v));
      assert PerformAll(p.ops, s) == Next(Put(s, c, v)) by {
        assert p.ops == [SetSlot(c)] && p.ops[1..] == [];
      }
      PutRelated(a, consts, w, s, c, v);
      var s1 := Put(s, c, v);
      var vals := w.locals + w.stack;
      assert Held(a.stack[index], s) == vals[index];
      assert p.alloc.stack == a.stack[index := c];
      assert Agree(p.alloc.stack, vals, s1);
    }
  }

  // ---------------------------------------------------------------------------------
  // Operands.

  function OneValue(x: One, s: State): Word {
    match x
    case R => Register(s)
    case S(src) => Held(src, s)
  }

  predicate OneLegal(x: One, s: State) {
    x.S? ==> x.src < |s.slots| && x.src != REG0
  }

  // The first operand and the second, the one on top.
  function TwoValues(x: Two, s: State): (Word, Word) {
    match x
    case RS(src) => (Held(src, s), Register(s))
    case SR(src) => (Register(s), Held(src, s))
    case SS(src, src1) => (Held(src1, s), Held(src, s))
  }

  predicate TwoLegal(x: Two, s: State) {
    x.src < |s.slots| && x.src != REG0 && (x.SS? ==> x.src1 < |s.slots| && x.src1 != REG0)
  }

  lemma TakeOneRelated(a: Alloc, consts: seq<Word>, w: World, s: State)
    requires Related(a, consts, w, s) && Live(a) && TakeOne(a).Some?
    ensures var t := TakeOne(a).value;
            var r := PerformAll(t.out.ops, s);
            && |w.stack| > 0 && r.Next? && Related(t.out.alloc, consts, Pop(w, 1), r.state)
            && Live(t.out.alloc) && t.out.alloc.regIndexPlusOne == 0
            && OneLegal(t.operand, r.state) && OneValue(t.operand, r.state) == Operand(w, 0)
  {
    hide Placed, Counted, Pooled, Settled, OneInRegister, Related;
    TakeOneKeeps(a);
    if InRegister(a, 0) {
      PopRelated(a, consts, w, s);
    } else {
      PreserveRelated(a, consts, w, s);
      Preserves(a);
      PopRelated(PreserveRegister(a).value.alloc, consts, w, PerformAll(PreserveRegister(a).value.ops, s).state);
    }
  }

  lemma TwoRelated(a: Alloc, consts: seq<Word>, w: World, s: State)
    requires Related(a, consts, w, s) && Live(a) && PopTop(a).Some? && PopTop(PopTop(a).value).Some?
    ensures var b := PopTop(a).value;
            var c := PopTop(b).value;
            && |w.stack| >= 2 && Related(c, consts, Pop(w, 2), s) && Live(c)
            && Held(TopSlot(a), s) == Operand(w, 0) && Held(TopSlot(b), s) == Operand(w, 1)
            && (TopSlot(a) == REG0 <==> InRegister(a, 0)) && (TopSlot(b) == REG0 <==> InRegister(a, 1))
            && (TopSlot(a) == REG0 || TopSlot(a) < |s.slots|) && (TopSlot(b) == REG0 || TopSlot(b) < |s.slots|)
  {
    var b := PopTop(a).value;
    PopRelated(a, consts, w, s);
    PopRelated(b, consts, Pop(w, 1), s);
    assert Pop(Pop(w, 1), 1) == Pop(w, 2);
    assert Operand(Pop(w, 1), 0) == Operand(w, 1);
    assert |a.stack| >= 2 && TopSlot(b) == a.stack[|a.stack| - 2];
  }

  lemma TakeTwoRelated(a: Alloc, consts: seq<Word>, w: World, s: State)
    requires Related(a, consts, w, s) && Live(a) && TakeTwo(a).Some?
    ensures var t := TakeTwo(a).value;
            var r := PerformAll(t.out.ops, s);
            && |w.stack| >= 2 && r.Next? && Related(t.out.alloc, consts, Pop(w, 2), r.state)
            && Live(t.out.alloc) && t.out.alloc.regIndexPlusOne == 0
            && TwoLegal(t.operands, r.state) && TwoValues(t.operands, r.state) == (Operand(w, 1), Operand(w, 0))
  {
    hide Placed, Counted, Pooled, Settled, OneInRegister, Related, PopTop;
    TakeTwoKeeps(a);
    if InRegister(a, 0) || InRegister(a, 1) {
      TwoRelated(a, consts, w, s);
    } else {
      PreserveRelated(a, consts, w, s);
      Preserves(a);
      var p := PreserveRegister(a).value;
      TwoRelated(p.alloc, consts, w, PerformAll(p.ops, s).state);
      FreeRegister(p.alloc);
    }
  }

  // ---------------------------------------------------------------------------------
  // Whole instructions.

  // What the emitted operations come to when the instruction comes to `outcome`.
  predicate Simulated(outcome: Outcome, a: Alloc, consts: seq<Word>, r: Stepped) {
    match outcome
    case Normal(w) => r.Next? && Related(a, consts, w, r.state) && Live(a)
    case Trapping(t, w) => r.Fault? && r.trap == t && r.at.globals == w.globals && r.at.mem == w.mem
    case _ => true
  }

  lemma ThenPerform(ops: seq<Straight>, op: Straight, s: State)
    ensures PerformAll(ops + [op], s) == (match PerformAll(ops, s) case Next(s1) => Perform(op, s1) case r => r)
  {
    PerformAppend(ops, [op], s);
    match PerformAll(ops, s)
    case Next(s1) => assert [op][1..] == [];
    case _ =>
  }

  // A computed value ends up in the register.
  lemma ResultRelated(out: Out, op: Straight, consts: seq<Word>, w: World, s: State, signed: bool, c: Computed)
    requires PerformAll(out.ops, s).Next? && PushResult(out, op).Some? && Live(out.alloc) &&
             out.alloc.regIndexPlusOne == 0
    requires var s1 := PerformAll(out.ops, s).state;
             Related(out.alloc, consts, w, s1) && Perform(op, s1) == Result(s1, signed, c)
    ensures Simulated(Complete(w, c), PushResult(out, op).value.alloc, consts,
            PerformAll(PushResult(out, op).value.ops, s))
  {
    hide Placed, Counted, Pooled, Settled, OneInRegister, Related;
    ThenPerform(out.ops, op, s);
    var s1 := PerformAll(out.ops, s).state;
    match c
    case Value(v) =>
      SetRelated(out.alloc, consts, w, s1, signed, v);
      PushRelated(out.alloc, consts, w, SetR0(s1, signed, v), REG0, v);
      Pushes(out.alloc, REG0);
    case Trapped(t) => SameWorld(out.alloc, consts, w, s1);
  }

  lemma SameWorld(a: Alloc, consts: seq<Word>, w: World, s: State)
    requires Related(a, consts, w, s)
    ensures s.globals == w.globals && s.mem == w.mem
  {
  }

  lemma UnopRelated(a: Alloc, op: Unary, consts: seq<Word>, w: World, s: State)
    requires Related(a, consts, w, s) && Live(a) && CompilePlain(a, Unop(op)).Some?
    ensures var out := CompilePlain(a, Unop(op)).value;
            Simulated(RunPlain(Unop(op), w), out.alloc, consts, PerformAll(out.ops, s))
  {
    hide Placed, Counted, Pooled, Settled, OneInRegister, Related, TakeOne, PushResult, ApplyUnary;
    TakeOneRelated(a, consts, w, s);
    var t := TakeOne(a).value;
    ResultRelated(t.out, UnaryOperation(op, t.operand), consts, Pop(w, 1), s, SignedUnary(op),
        Value(ApplyUnary(op, Operand(w, 0))));
  }

  lemma LoadRelated(a: Alloc, kind: Load, offset: Word, consts: seq<Word>, w: World, s: State)
    requires Related(a, consts, w, s) && Live(a) && CompilePlain(a, LoadOp(kind, offset)).Some?
    ensures var out := CompilePlain(a, LoadOp(kind, offset)).value;
            Simulated(RunPlain(LoadOp(kind, offset), w), out.alloc, consts, PerformAll(out.ops, s))
  {
    hide Placed, Counted, Pooled, Settled, OneInRegister, Agree, TakeOne, PushResult, LoadFrom;
    TakeOneRelated(a, consts, w, s);
    var t := TakeOne(a).value;
    ResultRelated(t.out, LoadOperation(kind, offset, t.operand), consts, Pop(w, 1), s, true,
        LoadFrom(kind, w.mem, Operand(w, 0), offset));
  }

  lemma BinopRelated(a: Alloc, op: Binary, consts: seq<Word>, w: World, s: State)
    requires Related(a, consts, w, s) && Live(a) && CompilePlain(a, Binop(op)).Some?
    ensures var out := CompilePlain(a, Binop(op)).value;
            Simulated(RunPlain(Binop(op), w), out.alloc, consts, PerformAll(out.ops, s))
  {
    hide Placed, Counted, Pooled, Settled, OneInRegister, Related, TakeTwo, PushResult, ApplyBinary;
    TakeTwoRelated(a, consts, w, s);
    var t := TakeTwo(a).value;
    if Commutative(op) {
      SwappedOperands(op, Operand(w, 1), Operand(w, 0));
    }
    ResultRelated(t.out, BinaryOperation(op, t.operands), consts, Pop(w, 2), s, SignedBinary(op),
        ApplyBinary(op, Operand(w, 1), Operand(w, 0)));
  }

  lemma StoreRelated(a: Alloc, kind: Store, offset: Word, consts: seq<Word>, w: World, s: State)
    requires Related(a, consts, w, s) && Live(a) && CompilePlain(a, StoreOp(kind, offset)).Some?
    ensures var out := CompilePlain(a, StoreOp(kind, offset)).value;
            Simulated(RunPlain(StoreOp(kind, offset), w), out.alloc, consts, PerformAll(out.ops, s))
  {
    hide Placed, Counted, Pooled, Settled, OneInRegister, TakeTwo, StoreTo;
    TakeTwoRelated(a, consts, w, s);
    var t := TakeTwo(a).value;
    var op := StoreOperation(kind, offset, t.operands);
    ThenPerform(t.out.ops, op, s);
    var s1 := PerformAll(t.out.ops, s).state;
    var r := StoreTo(kind, w.mem, Operand(w, 1), offset, Operand(w, 0));
    assert Perform(op, s1) == StoreResult(s1, r);
  }

  lemma SelectRelated(a: Alloc, consts: seq<Word>, w: World, s: State)
    requires Related(a, consts, w, s) && Live(a) && CompilePlain(a, Select).Some?
    ensures var out := CompilePlain(a, Select).value;
            Simulated(RunPlain(Select, w), out.alloc, consts, PerformAll(out.ops, s))
  {
    hide Placed, Counted, Pooled, Settled, OneInRegister, Related, PopTop;
    if InRegister(a, 0) || InRegister(a, 1) || InRegister(a, 2) {
      SelectChosen(a, Out(a, []), consts, w, s);
    } else {
      PreserveRelated(a, consts, w, s);
      Preserves(a);
      SelectChosen(a, PreserveRegister(a).value, consts, w, s);
    }
  }

  lemma OnlyOne(a: Alloc)
    requires OneInRegister(a)
    ensures !(InRegister(a, 0) && InRegister(a, 1)) && !(InRegister(a, 0) && InRegister(a, 2)) &&
            !(InRegister(a, 1) && InRegister(a, 2))
  {
  }

  predicate Readable(loc: nat, s: State) {
    loc == REG0 || loc < |s.slots|
  }

  lemma ThreeRelated(a: Alloc, consts: seq<Word>, w: World, s: State)
    requires Related(a, consts, w, s) && Live(a)
    requires PopTop(a).Some? && PopTop(PopTop(a).value).Some? && PopTop(PopTop(PopTop(a).value).value).Some?
    ensures var b := PopTop(a).value;
            var c := PopTop(b).value;
            var d := PopTop(c).value;
            && |w.stack| >= 3 && Related(d, consts, Pop(w, 3), s) && Live(d)
            && Held(TopSlot(a), s) == Operand(w, 0) && Held(TopSlot(b), s) == Operand(w, 1) &&
              Held(TopSlot(c), s) == Operand(w, 2)
            && (TopSlot(a) == REG0 <==> InRegister(a, 0)) && (TopSlot(b) == REG0 <==> InRegister(b, 0)) &&
              (TopSlot(c) == REG0 <==> InRegister(c, 0))
            && Readable(TopSlot(a), s) && Readable(TopSlot(b), s) && Readable(TopSlot(c), s)
            && (InRegister(b, 0) <==> InRegister(a, 1)) && (InRegister(c, 0) <==> InRegister(a, 2))
  {
    hide Live, Related, PopTop, TopSlot, InRegister;
    LiveScopes(a);
    var b := PopTop(a).value;
    var c := PopTop(b).value;
    PopRelated(a, consts, w, s);
    PopRelated(b, consts, Pop(w, 1), s);
    assert Pop(Pop(w, 1), 1) == Pop(w, 2);
    PopRelated(c, consts, Pop(w, 2), s);
    assert Pop(Pop(w, 2), 1) == Pop(w, 3);
    assert Operand(Pop(w, 2), 0) == Operand(w, 2) && Operand(Pop(w, 1), 0) == Operand(w, 1);
    ThreeSlots(a);
  }

  lemma LiveScopes(a: Alloc)
    requires Live(a)
    ensures |a.scopes| > 0 && !Polymorphic(a)
  {
    hide Valid;
  }

  lemma ThreeSlots(a: Alloc)
    requires |a.scopes| > 0 && !Polymorphic(a)
    requires PopTop(a).Some? && PopTop(PopTop(a).value).Some? && PopTop(PopTop(PopTop(a).value).value).Some?
    ensures InRegister(PopTop(a).value, 0) <==> InRegister(a, 1)
    ensures InRegister(PopTop(PopTop(a).value).value, 0) <==> InRegister(a, 2)
  {
  }

  lemma SelectPerforms(w: World, s: State, s0: nat, s1: nat, s2: nat)
    requires |w.stack| >= 3 && Readable(s0, s) && Readable(s1, s) && Readable(s2, s)
    requires !(s0 == REG0 && s1 == REG0) && !(s0 == REG0 && s2 == REG0) && !(s1 == REG0 && s2 == REG0)
    requires Held(s0, s) == Operand(w, 0) && Held(s1, s) == Operand(w, 1) && Held(s2, s) == Operand(w, 2)
    ensures Perform(SelectOperation(s0 == REG0, s1 == REG0, s2 == REG0, s0, s1, s2), s) ==
            Next(SetR0(s, true, if Operand(w, 0) != 0 then Operand(w, 2) else Operand(w, 1)))
  {
  }

  // The select operation, the register being free or holding one of its operands.
  lemma SelectChosen(a: Alloc, p: Out, consts: seq<Word>, w: World, s: State)
    requires PerformAll(p.ops, s).Next? && Related(p.alloc, consts, w, PerformAll(p.ops, s).state) && Live(p.alloc)
    requires p.alloc.regIndexPlusOne == 0 || InRegister(p.alloc, 0) || InRegister(p.alloc, 1) || InRegister(p.alloc, 2)
    requires PopTop(p.alloc).Some? && PopTop(PopTop(p.alloc).value).Some?
    requires PopTop(PopTop(PopTop(p.alloc).value).value).Some?
    requires var b := PopTop(p.alloc).value;
             var c := PopTop(b).value;
             PushResult(Out(PopTop(c).value, p.ops), SelectOperation(InRegister(p.alloc, 0), InRegister(b, 0),
                 InRegister(c, 0), TopSlot(p.alloc), TopSlot(b), TopSlot(c))).Some?
    ensures var b := PopTop(p.alloc).value;
            var c := PopTop(b).value;
            var out := PushResult(Out(PopTop(c).value, p.ops),
                SelectOperation(InRegister(p.alloc, 0), InRegister(b, 0), InRegister(c, 0), TopSlot(p.alloc),
                TopSlot(b), TopSlot(c))).value;
            Simulated(RunPlain(Select, w), out.alloc, consts, PerformAll(out.ops, s))
  {
    hide Placed, Counted, Pooled, Settled, OneInRegister, Related, PopTop, PushResult, PerformAll, Bounded, Perform,
         SelectOperation;
    var s1 := PerformAll(p.ops, s).state;
    var b := PopTop(p.alloc).value;
    var c := PopTop(b).value;
    OnlyOne(p.alloc);
    ThreeRelated(p.alloc, consts, w, s1);
    PopThree(p.alloc);
    SelectPerforms(w, s1, TopSlot(p.alloc), TopSlot(b), TopSlot(c));
    var op := SelectOperation(InRegister(p.alloc, 0), InRegister(b, 0), InRegister(c, 0), TopSlot(p.alloc), TopSlot(b),
        TopSlot(c));
    var v := if Operand(w, 0) != 0 then Operand(w, 2) else Operand(w, 1);
    ResultRelated(Out(PopTop(c).value, p.ops), op, consts, Pop(w, 3), s, true, Value(v));
  }

  // ---------------------------------------------------------------------------------
  // Constants, locals and globals.

  lemma PerformOne(op: Straight, s: State)
    ensures PerformAll([op], s) == Perform(op, s)
  {
    assert [op][1..] == [];
  }

  lemma ConstRelated(a: Alloc, v: Word, consts: seq<Word>, w: World, s: State)
    requires Related(a, consts, w, s) && Live(a) && PushConst(a, v).Some? &&
             PushConst(a, v).value.alloc.consts <= consts
    ensures var out := PushConst(a, v).value;
            Simulated(RunPlain(Const(v), w), out.alloc, consts, PerformAll(out.ops, s))
  {
    hide Placed, Counted, Registered, Settled, OneInRegister, Agree, Bounded;
    ConstKeeps(a, v);
    PoolGrows(a);
    var out := PushConst(a, v).value;
    if FindConst(a.consts, v).Some? {
      PushRelated(a, consts, w, s, a.firstConst + FindConst(a.consts, v).value, v);
    } else if a.firstConst + |a.consts| < a.firstDynamic {
      var c := a.firstConst + |a.consts|;
      var a1 := MarkAllocated(a, c).(consts := a.consts + [v]);
      assert a1.consts[|a.consts|] == v;
      PushRelated(a1, consts, w, s, c, v);
    } else {
      PushAllocatedRelated(a, consts, w, s, v);
      PerformOne(Const32(v, PushAllocated(a).value.slot), s);
    }
  }

  lemma GlobalGetRelated(a: Alloc, g: nat, consts: seq<Word>, w: World, s: State)
    requires Related(a, consts, w, s) && Live(a) && CompilePlain(a, GlobalGet(g)).Some?
    ensures var out := CompilePlain(a, GlobalGet(g)).value;
            Simulated(RunPlain(GlobalGet(g), w), out.alloc, consts, PerformAll(out.ops, s))
  {
    hide Placed, Counted, Settled, OneInRegister, Agree, Furnished;
    Allocates(a);
    PushAllocatedRelated(a, consts, w, s, w.globals[g]);
    PerformOne(GetGlobal(g, PushAllocated(a).value.slot), s);
  }

  lemma GlobalSetRelated(a: Alloc, g: nat, consts: seq<Word>, w: World, s: State)
    requires Related(a, consts, w, s) && Live(a) && CompilePlain(a, GlobalSet(g)).Some?
    ensures var out := CompilePlain(a, GlobalSet(g)).value;
            Simulated(RunPlain(GlobalSet(g), w), out.alloc, consts, PerformAll(out.ops, s))
  {
    hide Placed, Counted, Settled, OneInRegister;
    PopRelated(a, consts, w, s);
    PerformOne(CompilePlain(a, GlobalSet(g)).value.ops[0], s);
  }

  // After an assignment to a local its slot holds the new value, and what operands referred to the
  // old one have it in the slot that was set aside.
  lemma LocalUnused(a: Alloc, index: nat, consts: seq<Word>, w: World, s: State, v: Word)
    requires Related(a, consts, w, s) && Sound(a) && index < a.numLocals && Shielded(a, a.stack[index])
    requires Uses(a.stack, SearchStart(a.scopes), a.stack[index]) == 0
    ensures Related(a, consts, w.(locals := w.locals[index := v]), Put(s, a.stack[index], v))
  {
    hide Counted, Bounded, Registered, Place;
    var local, from := a.stack[index], SearchStart(a.scopes);
    UsesNone(a.stack, from, local);
    SearchStarts(a, a.scopes);
    var s1, w1 := Put(s, local, v), w.(locals := w.locals[index := v]);
    var vals, vals1 := w.locals + w.stack, w1.locals + w1.stack;
    assert vals1 == vals[index := v];
    forall i | 0 <= i < |a.stack| ensures Held(a.stack[i], s1) == vals1[i] {
      assert Held(a.stack[i], s) == vals[i];
    }
  }

  lemma LocalPreserved(a: Alloc, index: nat, consts: seq<Word>, w: World, s: State, v: Word)
    requires Related(a, consts, w, s) && Sound(a) && index < a.numLocals && FindReferenced(a, a.stack[index]).Some?
    requires Uses(a.stack, SearchStart(a.scopes), a.stack[index]) != 0 && Shielded(a, a.stack[index])
    ensures var f := FindReferenced(a, a.stack[index]).value;
            && f.slot < |s.slots| && a.firstDynamic <= f.slot
            && Related(f.alloc, consts, w.(locals := w.locals[index := v]),
              Put(Put(s, f.slot, s.slots[a.stack[index]]), a.stack[index], v))
  {
    hide Counted, Bounded, Registered, Place, OneInRegister;
    var local, from, f := a.stack[index], SearchStart(a.scopes), FindReferenced(a, a.stack[index]).value;
    SearchStarts(a, a.scopes);
    FreeSlot(a);
    var s1, w1 := Put(Put(s, f.slot, s.slots[local]), local, v), w.(locals := w.locals[index := v]);
    var vals, vals1 := w.locals + w.stack, w1.locals + w1.stack;
    assert vals1 == vals[index := v];
    forall i | 0 <= i < |a.stack| ensures Held(f.alloc.stack[i], s1) == vals1[i] {
      assert Held(a.stack[i], s) == vals[i] && Held(local, s) == vals[index];
      assert a.stack[i] in a.stack && a.stack[i] != f.slot;
    }
  }

  // The value on top, where FindReferenced leaves it.
  lemma TopFound(a: Alloc, index: nat, consts: seq<Word>, w: World, s: State)
    requires Related(a, consts, w, s) && Live(a) && index < a.numLocals && FindReferenced(a, a.stack[index]).Some?
    requires |w.stack| > 0 && Shielded(a, a.stack[index])
    ensures var f := FindReferenced(a, a.stack[index]).value;
            && InRegister(f.alloc, 0) == InRegister(a, 0) && (InRegister(a, 0) <==> TopSlot(f.alloc) == REG0)
            && (TopSlot(a) < |s.slots| || TopSlot(a) == REG0)
            && Held(TopSlot(a), s) == Operand(w, 0)
            && TopSlot(f.alloc) == (if f.slot != a.stack[index] &&
              TopSlot(a) == a.stack[index] then f.slot else TopSlot(a))
            && (f.slot != a.stack[index] ==> TopSlot(a) != f.slot)
  {
    hide Counted, Bounded, Registered, Uses, SameShape;
    var f := FindReferenced(a, a.stack[index]).value;
    if f.slot != a.stack[index] {
      FreeSlot(a);
    }
    SearchStarts(a, a.scopes);
    assert Place(a, TopSlot(a));
    assert Operand(w, 0) == (w.locals + w.stack)[|a.stack| - 1];
  }

  lemma NothingFound(a: Alloc, local: nat)
    requires |a.slots| == MAX_FUNCTION_SLOTS && Uses(a.stack, SearchStart(a.scopes), local) == 0
    ensures FindReferenced(a, local) == Some(Slotted(a, local))
  {
  }

  lemma CopyPerformed(a: Alloc, index: nat, consts: seq<Word>, w: World, s: State)
    requires Related(a, consts, w, s) && Live(a) && index < a.numLocals && |w.stack| > 0
    requires FindReferenced(a, a.stack[index]) == Some(Slotted(a, a.stack[index])) && Shielded(a, a.stack[index])
    ensures a.stack[index] < |s.slots| && Perform(CopyTop(a, a.stack[index]),
            s) == Next(Put(s, a.stack[index], Operand(w, 0)))
  {
    hide Counted, Bounded, Registered, OneInRegister, SameShape, Uses, FindReferenced;
    TopFound(a, index, consts, w, s);
  }

  lemma LocalPerformed(a: Alloc, index: nat, consts: seq<Word>, w: World, s: State)
    requires Related(a, consts, w, s) && Live(a) && index < a.numLocals && FindReferenced(a, a.stack[index]).Some? &&
             |w.stack| > 0
    requires Uses(a.stack, SearchStart(a.scopes), a.stack[index]) != 0 && Shielded(a, a.stack[index])
    ensures var f, local := FindReferenced(a, a.stack[index]).value, a.stack[index];
            && f.slot != local && f.slot < |s.slots| && local < |s.slots|
            && Perform(PreservedCopyTop(f.alloc, local, f.slot), s) ==
              Next(Put(Put(s, f.slot, s.slots[local]), local, Operand(w, 0)))
  {
    hide Counted, Bounded, Registered, OneInRegister, SameShape, Uses;
    TopFound(a, index, consts, w, s);
    FreeSlot(a);
    assert Held(a.stack[index], s) == (w.locals + w.stack)[index];
  }

  lemma AssignRelated(a: Alloc, index: nat, consts: seq<Word>, w: World, s: State)
    requires Related(a, consts, w, s) && Live(a) && AssignLocal(a, index).Some? && |w.stack| > 0
    requires Shielded(a, a.stack[index])
    ensures var out := AssignLocal(a, index).value;
            Simulated(RunPlain(LocalTee(index), w), out.alloc, consts, PerformAll(out.ops, s))
  {
    hide Counted, Bounded, Settled, OneInRegister, Agree, SameShape, Furnished, FindReferenced, Uses;
    var local, f := a.stack[index], FindReferenced(a, a.stack[index]).value;
    var v := Operand(w, 0);
    AssignKeeps(a, index);
    TopFound(a, index, consts, w, s);
    PerformOne(AssignLocal(a, index).value.ops[0], s);
    if Uses(a.stack, SearchStart(a.scopes), local) == 0 {
      NothingFound(a, local);
      CopyPerformed(a, index, consts, w, s);
      LocalUnused(a, index, consts, w, s, v);
    } else {
      LocalPreserved(a, index, consts, w, s, v);
      LocalPerformed(a, index, consts, w, s);
    }
  }

  // The compiled instruction does what the instruction does.
  lemma PlainRelated(a: Alloc, p: Plain, consts: seq<Word>, w: World, s: State)
    requires Related(a, consts, w, s) && Live(a) && CompilePlain(a, p).Some?
    requires CompilePlain(a, p).value.alloc.consts <= consts && Shields(a, p)
    ensures var out := CompilePlain(a, p).value;
            Simulated(RunPlain(p, w), out.alloc, consts, PerformAll(out.ops, s))
  {
    hide Placed, Counted, Pooled, Settled, OneInRegister, Related;
    match p
    case Const(v) => ConstRelated(a, v, consts, w, s);
    case LocalGet(i) => LocalGetRelated(a, i, consts, w, s);
    case LocalSet(i) => LocalSetRelated(a, i, consts, w, s);
    case LocalTee(i) =>
      if |w.stack| > 0 {
        AssignRelated(a, i, consts, w, s);
      }
    case GlobalGet(g) => GlobalGetRelated(a, g, consts, w, s);
    case GlobalSet(g) => GlobalSetRelated(a, g, consts, w, s);
    case Drop => PopRelated(a, consts, w, s);
    case Select => SelectRelated(a, consts, w, s);
    case Unop(op) => UnopRelated(a, op, consts, w, s);
    case Binop(op) => BinopRelated(a, op, consts, w, s);
    case LoadOp(kind, offset) => LoadRelated(a, kind, offset, consts, w, s);
    case StoreOp(kind, offset) => StoreRelated(a, kind, offset, consts, w, s);
  }

  lemma LocalGetRelated(a: Alloc, index: nat, consts: seq<Word>, w: World, s: State)
    requires Related(a, consts, w, s) && Live(a) && CompilePlain(a, LocalGet(index)).Some?
    ensures var out := CompilePlain(a, LocalGet(index)).value;
            Simulated(RunPlain(LocalGet(index), w), out.alloc, consts, PerformAll(out.ops, s))
  {
    hide Counted, Settled, OneInRegister;
    assert (w.locals + w.stack)[index] == w.locals[index];
    assert Place(a, a.stack[index]);
    PushRelated(a, consts, w, s, a.stack[index], w.locals[index]);
    Pushes(a, a.stack[index]);
  }

  lemma LocalSetRelated(a: Alloc, index: nat, consts: seq<Word>, w: World, s: State)
    requires Related(a, consts, w, s) && Live(a) && CompilePlain(a, LocalSet(index)).Some?
    requires Shields(a, LocalSet(index))
    ensures var out := CompilePlain(a, LocalSet(index)).value;
            Simulated(RunPlain(LocalSet(index), w), out.alloc, consts, PerformAll(out.ops, s))
  {
    hide Placed, Counted, Pooled, Settled, OneInRegister, Agree;
    AssignKeeps(a, index);
    var out := AssignLocal(a, index).value;
    if |w.stack| > 0 && index < |w.locals| {
      AssignRelated(a, index, consts, w, s);
      var w1 := w.(locals := w.locals[index := Operand(w, 0)]);
      PopRelated(out.alloc, consts, w1, PerformAll(out.ops, s).state);
    }
  }

  // ---------------------------------------------------------------------------------
  // Straight-line code, with any number of parameters.

  function CompileAll(a: Alloc, ps: seq<Plain>): Option<Out>
    requires Shaped(a)
    decreases |ps|
  {
    if ps == [] then Some(Out(a, []))
    else
      var out :- CompilePlain(a, ps[0]);
      var rest :- CompileAll(out.alloc, ps[1..]);
      Some(Out(rest.alloc, out.ops + rest.ops))
  }

  function RunAll(ps: seq<Plain>, w: World): Outcome
    decreases |ps|
  {
    if ps == [] then Normal(w)
    else match RunPlain(ps[0], w)
         case Normal(w1) => RunAll(ps[1..], w1)
         case r => r
  }

  // No operand below the block refers to a local: so it is in the body of a function.
  predicate Clear(a: Alloc) {
    forall i :: 0 <= i < a.numLocals && i < |a.stack| ==> Shielded(a, a.stack[i])
  }

  lemma ClearStays(a: Alloc, b: Alloc)
    requires Clear(a) && Sound(a) && Kept(a, b)
    ensures Clear(b)
  {
    hide Valid;
    ValidParts(a);
    var init := a.scopes[0].init;
    forall i, k | 0 <= i < b.numLocals <= k < init ensures b.stack[k] != b.stack[i] {
      assert b.stack[k] == b.stack[..init][k] && a.stack[k] == a.stack[..init][k];
      assert b.stack[i] == b.stack[..init][i] && a.stack[i] == a.stack[..init][i];
      assert Shielded(a, a.stack[i]);
    }
  }

  lemma {:induction false} ConstsGrow(a: Alloc, ps: seq<Plain>)
    requires Sound(a) && Clear(a) && CompileAll(a, ps).Some?
    ensures a.consts <= CompileAll(a, ps).value.alloc.consts
    decreases |ps|
  {
    if ps != [] {
      PlainKeeps(a, ps[0]);
      ClearStays(a, CompilePlain(a, ps[0]).value.alloc);
      ConstsGrow(CompilePlain(a, ps[0]).value.alloc, ps[1..]);
    }
  }

  // Executing the operations emitted for any sequence of instructions, from a state that agrees
  // with the compiler's, does what the sequence does and ends in a state that agrees with it.
  lemma {:induction false} StraightLineRelated(a: Alloc, ps: seq<Plain>, consts: seq<Word>, w: World, s: State)
    requires Related(a, consts, w, s) && Live(a) && CompileAll(a, ps).Some?
    requires CompileAll(a, ps).value.alloc.consts <= consts && Clear(a)
    ensures var out := CompileAll(a, ps).value;
            Simulated(RunAll(ps, w), out.alloc, consts, PerformAll(out.ops, s))
    decreases |ps|
  {
    hide Placed, Counted, Settled, OneInRegister, Related, CompilePlain, RunPlain;
    if ps != [] {
      var out := CompilePlain(a, ps[0]).value;
      PlainKeeps(a, ps[0]);
      ClearStays(a, CompilePlain(a, ps[0]).value.alloc);
      ConstsGrow(out.alloc, ps[1..]);
      PlainRelated(a, ps[0], consts, w, s);
      PerformAppend(out.ops, CompileAll(out.alloc, ps[1..]).value.ops, s);
      match RunPlain(ps[0], w) {
        case Normal(w1) => StraightLineRelated(out.alloc, ps[1..], consts, w1, PerformAll(out.ops, s).state);
        case _ =>
      }
    }
  }
}
