// Every instruction without control flow keeps the allocation invariant, on reachable and on
// unreachable code (kernel/wasm3/source/m3_compile.c:231-510, 1747-1826).
module PlainInvariants {
  import opened WasmValues
  import opened WasmSemantics
  import opened Wrappers
  import opened ThreadedMachine
  import opened SlotAllocator
  import opened PlainCompile

  // No operand below the block being compiled refers to a slot that is the index of a local.
  predicate Settled(a: Alloc) {
    && |a.scopes| > 0
    && (forall j :: 0 <= j < |a.scopes| ==> a.numLocals <= a.scopes[j].init <= a.scopes[0].init)
    && (forall i :: a.numLocals <= i < a.scopes[0].init && i < |a.stack| ==> a.stack[i] >= a.numLocals)
  }

  // No operand below the block being compiled is kept in the slot.
  predicate Shielded(a: Alloc, slot: nat) {
    |a.scopes| > 0 && forall k :: a.numLocals <= k < a.scopes[0].init && k < |a.stack| ==> a.stack[k] != slot
  }

  // An assignment is to a local that no operand below the block refers to.
  predicate Shields(a: Alloc, p: Plain) {
    (p.LocalSet? || p.LocalTee?) && p.index < a.numLocals && p.index < |a.stack| ==> Shielded(a, a.stack[p.index])
  }

  predicate Sound(a: Alloc) {
    Valid(a) && Settled(a)
  }

  // What compiling within a block leaves alone.
  predicate Kept(a: Alloc, b: Alloc) {
    && b.numLocals == a.numLocals && b.firstConst == a.firstConst && b.firstDynamic == a.firstDynamic
    && b.mutables == a.mutables && b.scopes == a.scopes && a.consts <= b.consts
    && |a.scopes| > 0 && a.scopes[0].init <= |a.stack| && a.scopes[0].init <= |b.stack|
    && b.stack[..a.scopes[0].init] == a.stack[..a.scopes[0].init]
  }

  // The register goes on holding at most one operand.
  predicate Keeps(a: Alloc, b: Alloc) {
    Sound(b) && Kept(a, b) && (OneInRegister(a) ==> OneInRegister(b))
  }

  lemma KeptItself(a: Alloc)
    requires Sound(a)
    ensures Kept(a, a)
  {
  }

  lemma KeptSettles(a: Alloc, b: Alloc)
    requires Settled(a) && Kept(a, b)
    ensures Settled(b)
  {
    var init := a.scopes[0].init;
    forall i | a.numLocals <= i < init ensures b.stack[i] == a.stack[i] {
      assert b.stack[i] == b.stack[..init][i];
      assert a.stack[i] == a.stack[..init][i];
    }
  }

  lemma KeptOn(a: Alloc, b: Alloc, c: Alloc)
    requires Kept(a, b) && Kept(b, c)
    ensures Kept(a, c)
  {
  }

  lemma Pushes(a: Alloc, loc: nat)
    requires Sound(a) && PushAt(a, loc).Some? && Place(a, loc) && (loc != REG0 ==> loc < a.firstDynamic)
    ensures var b := PushAt(a, loc).value;
            Sound(b) && Kept(a, b) && (OneInRegister(a) && (loc == REG0 ==> a.regIndexPlusOne == 0) ==>
                  OneInRegister(b))
  {
    PushKeeps(a, loc);
    KeptSettles(a, PushAt(a, loc).value);
  }

  lemma Pops(a: Alloc)
    requires Sound(a) && PopTop(a).Some?
    ensures Keeps(a, PopTop(a).value)
    ensures OneInRegister(a) && InRegister(a, 0) ==> PopTop(a).value.regIndexPlusOne == 0
    ensures a.regIndexPlusOne == 0 ==> PopTop(a).value.regIndexPlusOne == 0
  {
    PopKeeps(a);
    KeptSettles(a, PopTop(a).value);
  }

  lemma Allocates(a: Alloc)
    requires Sound(a) && PushAllocated(a).Some?
    ensures Keeps(a, PushAllocated(a).value.alloc)
  {
    PushAllocatedKeeps(a);
    KeptSettles(a, PushAllocated(a).value.alloc);
  }

  lemma Preserves(a: Alloc)
    requires Sound(a) && PreserveRegister(a).Some?
    ensures Keeps(a, PreserveRegister(a).value.alloc) && PreserveRegister(a).value.alloc.regIndexPlusOne == 0
    ensures |PreserveRegister(a).value.alloc.stack| == |a.stack|
  {
    PreserveKeeps(a);
    KeptSettles(a, PreserveRegister(a).value.alloc);
  }

  // ---------------------------------------------------------------------------------
  // Constants.

  // The first free slot of the pool is the one after the constants.
  lemma PoolGrows(a: Alloc)
    requires Pooled(a)
    ensures var r := AllocateWithin(a, a.firstConst, a.firstDynamic);
            if a.firstConst + |a.consts| < a.firstDynamic
            then r.Some? && r.value.slot == a.firstConst + |a.consts| else r.None?
  {
    var r := FirstFree(a.slots, a.firstConst, a.firstDynamic);
    if a.firstConst + |a.consts| < a.firstDynamic {
      assert a.slots[a.firstConst + |a.consts|] == 0;
    }
  }

  lemma NewConst(a: Alloc, v: Word)
    requires Sound(a) && a.firstConst + |a.consts| < a.firstDynamic
    ensures var a1 := MarkAllocated(a, a.firstConst + |a.consts|).(consts := a.consts + [v]);
            Keeps(a, a1)
  {
    var c := a.firstConst + |a.consts|;
    var a1 := MarkAllocated(a, c).(consts := a.consts + [v]);
    assert forall l :: Place(a, l) ==> Place(a1, l);
    KeptSettles(a, a1);
  }

  lemma NewConstPushes(a: Alloc, v: Word)
    requires Sound(a) && a.firstConst + |a.consts| < a.firstDynamic
    ensures var c := a.firstConst + |a.consts|;
            var b := PushAt(MarkAllocated(a, c).(consts := a.consts + [v]), c);
            b.Some? ==> Keeps(a, b.value)
  {
    NewConst(a, v);
    var c := a.firstConst + |a.consts|;
    var a1 := MarkAllocated(a, c).(consts := a.consts + [v]);
    hide Valid, Settled, OneInRegister;
    if PushAt(a1, c).Some? {
      Pushes(a1, c);
      KeptOn(a, a1, PushAt(a1, c).value);
    }
  }

  lemma ConstKeeps(a: Alloc, v: Word)
    requires Sound(a) && PushConst(a, v).Some?
    ensures Keeps(a, PushConst(a, v).value.alloc)
  {
    hide Placed, Counted, Registered, Bounded, Settled, OneInRegister, FindConst;
    if FindConst(a.consts, v).Some? {
      Pushes(a, a.firstConst + FindConst(a.consts, v).value);
    } else {
      PoolGrows(a);
      if a.firstConst + |a.consts| < a.firstDynamic {
        NewConstPushes(a, v);
      } else {
        Allocates(a);
      }
    }
  }

  // ---------------------------------------------------------------------------------
  // Locals.

  lemma {:induction false} SearchStarts(a: Alloc, scopes: seq<Scope>)
    requires Settled(a) && |scopes| > 0
    requires forall j :: 0 <= j < |scopes| ==> scopes[j] in a.scopes
    ensures a.numLocals <= SearchStart(scopes) <= a.scopes[0].init
  {
    assert scopes[0] in a.scopes;
    if scopes[0].opcode == BlockOp && |scopes| > 1 {
      SearchStarts(a, scopes[1..]);
    }
  }

  lemma {:induction false} MovedCounts(stack: seq<nat>, from: nat, slot: nat, to: nat)
    requires to !in stack && slot != to
    ensures multiset(Moved(stack, from, slot, to))[to] == Uses(stack, from, slot)
    ensures forall c :: c != to && c != slot ==> multiset(Moved(stack, from, slot, to))[c] == multiset(stack)[c]
  {
    if |stack| > 0 {
      var last := |stack| - 1;
      MovedCounts(stack[..last], from, slot, to);
      assert stack == stack[..last] + [stack[last]];
      assert multiset(stack) == multiset(stack[..last]) + multiset{stack[last]};
    }
  }

  lemma {:induction false} UsesNone(stack: seq<nat>, from: nat, slot: nat)
    requires Uses(stack, from, slot) == 0
    ensures forall i :: from <= i < |stack| ==> stack[i] != slot
  {
    if |stack| > 0 {
      UsesNone(stack[..|stack| - 1], from, slot);
      assert forall i :: 0 <= i < |stack| - 1 ==> stack[i] == stack[..|stack| - 1][i];
    }
  }

  lemma LocalPlaced(a: Alloc, index: nat)
    requires Placed(a) && index < a.numLocals
    ensures a.stack[index] < a.firstConst
  {
  }

  lemma FoundPlaces(a: Alloc, local: nat)
    requires Sound(a) && local < a.firstConst && FindReferenced(a, local).Some?
    requires FindReferenced(a, local).value.slot != local
    ensures var b := FindReferenced(a, local).value.alloc;
            && Placed(b) && Registered(b) && Settled(b) && (OneInRegister(a) ==> OneInRegister(b))
            && (Shielded(a, local) ==> Kept(a, b))
  {
    hide Counted, Bounded, Uses, SearchStart, SameShape;
    SearchStarts(a, a.scopes);
    var b, c := FindReferenced(a, local).value.alloc, AllocateSlot(a).value.slot;
    assert c != REG0 && local != REG0;
    assert Place(b, c) && forall l :: Place(a, l) ==> Place(b, l);
    if Shielded(a, local) {
      assert b.stack[..a.scopes[0].init] == a.stack[..a.scopes[0].init];
    }
  }

  lemma FoundCounts(a: Alloc, local: nat)
    requires Sound(a) && local < a.firstConst && FindReferenced(a, local).Some?
    requires FindReferenced(a, local).value.slot != local
    ensures var b := FindReferenced(a, local).value.alloc;
            Counted(b) && Pooled(b) && Bounded(b)
  {
    hide Placed, Registered, Settled, Uses, Moved, SearchStart, FirstFree, SameShape;
    FreeSlot(a);
    MovedCounts(a.stack, SearchStart(a.scopes), local, FindReferenced(a, local).value.slot);
  }

  // Moving the references to a slot below the constants.
  lemma FindKeeps(a: Alloc, local: nat)
    requires Sound(a) && local < a.firstConst && FindReferenced(a, local).Some?
    ensures var b := FindReferenced(a, local).value.alloc;
            && Sound(b) && (OneInRegister(a) ==> OneInRegister(b))
            && (Shielded(a, local) ==> Keeps(a, b))
    ensures FindReferenced(a, local).value.alloc.regIndexPlusOne == a.regIndexPlusOne
  {
    var b, c := FindReferenced(a, local).value.alloc, FindReferenced(a, local).value.slot;
    if c != local {
      FoundPlaces(a, local);
      FoundCounts(a, local);
      hide Placed, Registered, OneInRegister, Settled, Shielded, Counted, Pooled, Bounded, Kept;
    }
  }

  lemma AssignKeeps(a: Alloc, index: nat)
    requires Sound(a) && AssignLocal(a, index).Some?
    ensures var b := AssignLocal(a, index).value.alloc;
            && Sound(b) && (OneInRegister(a) ==> OneInRegister(b))
            && (Shielded(a, a.stack[index]) ==> Keeps(a, b))
    ensures AssignLocal(a, index).value.alloc.regIndexPlusOne == a.regIndexPlusOne
  {
    LocalPlaced(a, index);
    FindKeeps(a, a.stack[index]);
  }

  // ---------------------------------------------------------------------------------
  // Operators.

  lemma TakeOneKeeps(a: Alloc)
    requires Sound(a) && TakeOne(a).Some?
    ensures var b := TakeOne(a).value.out.alloc;
            Keeps(a, b) && (OneInRegister(a) ==> b.regIndexPlusOne == 0)
  {
    hide Placed, Registered, Settled, OneInRegister;
    if InRegister(a, 0) {
      Pops(a);
    } else {
      Preserves(a);
      var p := PreserveRegister(a).value.alloc;
      Pops(p);
      KeptOn(a, p, PopTop(p).value);
    }
  }

  // An operand in the register is in the block, so popping what is above it brings it up.
  lemma RisesInRegister(a: Alloc, below: nat)
    requires Sound(a) && OneInRegister(a) && InRegister(a, below + 1) && PopTop(a).Some?
    ensures InRegister(PopTop(a).value, below)
  {
    var at := |a.stack| - 2 - below;
    assert a.stack[at] == REG0 && a.regIndexPlusOne == at + 1 && a.scopes[0].init < a.regIndexPlusOne;
  }

  lemma TakeTwoKeeps(a: Alloc)
    requires Sound(a) && TakeTwo(a).Some?
    ensures var b := TakeTwo(a).value.out.alloc;
            Keeps(a, b) && (OneInRegister(a) ==> b.regIndexPlusOne == 0)
  {
    hide Placed, Settled, OneInRegister;
    var start := if InRegister(a, 0) || InRegister(a, 1) then a else PreserveRegister(a).value.alloc;
    if !InRegister(a, 0) && !InRegister(a, 1) {
      Preserves(a);
    }
    Pops(start);
    var b := PopTop(start).value;
    Pops(b);
    if OneInRegister(a) && !InRegister(a, 0) && InRegister(a, 1) {
      RisesInRegister(a, 0);
    }
    assert Kept(a, a);
    KeptOn(a, start, b);
    KeptOn(a, b, PopTop(b).value);
  }

  lemma ResultKeeps(a: Alloc, out: Out, op: Straight)
    requires Keeps(a, out.alloc) && (OneInRegister(a) ==> out.alloc.regIndexPlusOne == 0) && PushResult(out, op).Some?
    ensures Keeps(a, PushResult(out, op).value.alloc)
  {
    Pushes(out.alloc, REG0);
    KeptOn(a, out.alloc, PushResult(out, op).value.alloc);
  }

  // In unreachable code a select with too few operands can leave two of them in the register.
  predicate Reckless(a: Alloc, p: Plain) {
    p.Select? && |a.stack| < 2
  }

  lemma PopThree(a: Alloc)
    requires Sound(a) && PopTop(a).Some? && PopTop(PopTop(a).value).Some? && PopTop(PopTop(PopTop(a).value).value).Some?
    ensures var d := PopTop(PopTop(PopTop(a).value).value).value;
            && Keeps(a, d)
            && (OneInRegister(a) &&
                (a.regIndexPlusOne == 0 || InRegister(a, 0) || InRegister(a, 1) || InRegister(a, 2)) ==>
                  d.regIndexPlusOne == 0)
  {
    hide Placed, Settled, OneInRegister, PopTop;
    var b := PopTop(a).value;
    var c := PopTop(b).value;
    Pops(a);
    Pops(b);
    Pops(c);
    if OneInRegister(a) && InRegister(a, 1) {
      RisesInRegister(a, 0);
    }
    if OneInRegister(a) && InRegister(a, 2) {
      RisesInRegister(a, 1);
      RisesInRegister(b, 0);
    }
    KeptOn(a, b, c);
    KeptOn(a, c, PopTop(c).value);
  }

  lemma SelectKeeps(a: Alloc)
    requires Sound(a) && CompileSelect(a).Some?
    ensures var b := CompileSelect(a).value.alloc;
            Sound(b) && Kept(a, b) && (OneInRegister(a) && |a.stack| >= 2 ==> OneInRegister(b))
  {
    hide Placed, Settled, OneInRegister, PopTop;
    if |a.stack| < 2 {
      Pushes(a, REG0);
    } else if InRegister(a, 0) || InRegister(a, 1) || InRegister(a, 2) {
      PopThree(a);
      ResultKeeps(a, Out(PopTop(PopTop(PopTop(a).value).value).value, []), NoOperation);
    } else {
      Preserves(a);
      var start := PreserveRegister(a).value.alloc;
      PopThree(start);
      var d := PopTop(PopTop(PopTop(start).value).value).value;
      KeptOn(a, start, d);
      ResultKeeps(a, Out(d, []), NoOperation);
    }
  }

  lemma OperatorKeeps(a: Alloc, p: Plain)
    requires Sound(a) && CompilePlain(a, p).Some? && (p.Unop? || p.Binop? || p.LoadOp? || p.StoreOp?)
    ensures Keeps(a, CompilePlain(a, p).value.alloc)
  {
    hide Valid, Settled, OneInRegister;
    ValidParts(a);
    if p.Unop? || p.LoadOp? {
      TakeOneKeeps(a);
      ResultKeeps(a, TakeOne(a).value.out, if p.Unop? then UnaryOperation(p.unary,
          TakeOne(a).value.operand) else LoadOperation(p.load, p.offset, TakeOne(a).value.operand));
    } else {
      TakeTwoKeeps(a);
      if p.Binop? {
        ResultKeeps(a, TakeTwo(a).value.out, BinaryOperation(p.binary, TakeTwo(a).value.operands));
      }
    }
  }

  // What each of these compile steps keeps, and when it leaves what lies below the block alone.
  lemma PlainKeeps(a: Alloc, p: Plain)
    requires Sound(a) && CompilePlain(a, p).Some?
    ensures var b := CompilePlain(a, p).value.alloc;
            && Sound(b) && (OneInRegister(a) && !Reckless(a, p) ==> OneInRegister(b))
            && (Shields(a, p) ==> Kept(a, b))
  {
    hide Valid, Settled, OneInRegister, Shielded;
    ValidParts(a);
    match p
    case Const(v) => ConstKeeps(a, v);
    case LocalGet(i) => Pushes(a, a.stack[i]);
    case LocalSet(i) =>
      AssignKeeps(a, i);
      var c := AssignLocal(a, i).value.alloc;
      Pops(c);
      if Shields(a, p) {
        KeptOn(a, c, PopTop(c).value);
      }
    case LocalTee(i) => AssignKeeps(a, i);
    case GlobalGet(g) => Allocates(a);
    case GlobalSet(g) => Pops(a);
    case Drop => Pops(a);
    case Select => SelectKeeps(a);
    case _ => OperatorKeeps(a, p);
  }
}
