// Single steps of the compiler on its state: what keeps every access within the arrays of the
// compilation record, the searches as loops go through them, and emitting bit by bit
// (kernel/wasm3/source/m3_compile.c:231-510, 554-658, 855-893).
module CompileSteps {
  import opened WasmValues
  import opened Wrappers
  import opened ThreadedMachine
  import opened SlotAllocator
  import opened PlainCompile
  import opened PlainInvariants
  import opened ControlCompile
  import opened FunctionFrame

  // Whether the source goes on or gives up; what it has changed before it gives up is of no use.
  datatype Status = Success | Failure {
    predicate IsFailure() { Failure? }
    function PropagateFailure(): Status requires Failure? { Failure }
  }

  // What keeps every access within the arrays of the record, on reachable and unreachable code.
  predicate Workable(a: Alloc) {
    && |a.scopes| > 0 && Pooled(a) && a.firstDynamic <= a.firstConst + MAX_CONSTANT_TABLE_SIZE
    && a.numLocals <= |a.stack| && a.numLocals <= a.firstConst
    && (forall i :: 0 <= i < a.numLocals ==> a.stack[i] < a.firstDynamic)
    && (forall i :: 0 <= i < |a.stack| ==> a.stack[i] == REG0 || a.stack[i] < MAX_FUNCTION_SLOTS)
    && (forall j :: 0 <= j < |a.scopes| ==> a.numLocals <= a.scopes[j].init)
    && a.scopes[|a.scopes| - 1].init == a.numLocals
    && (a.regIndexPlusOne != 0 ==> a.numLocals < a.regIndexPlusOne <= MAX_FUNCTION_STACK_HEIGHT)
  }

  // ---------------------------------------------------------------------------------
  // Each step keeps it.

  lemma AllocateWorks(a: Alloc)
    requires Workable(a) && AllocateSlot(a).Some?
    ensures var r := AllocateSlot(a).value;
            && Workable(r.alloc) && a.firstDynamic <= r.slot < MAX_FUNCTION_SLOTS && a.slots[r.slot] == 0
            && r.alloc.stack == a.stack && r.alloc.numLocals == a.numLocals
            && r.alloc.regIndexPlusOne == a.regIndexPlusOne && r.alloc.slots == a.slots[r.slot := 1]
  {
  }

  // Noting that the register is free first makes no difference to finding a slot.
  lemma PreserveWorks(a: Alloc)
    requires Workable(a) && a.regIndexPlusOne != 0
    ensures AllocateSlot(a.(regIndexPlusOne := 0)) ==
            match AllocateSlot(a)
            case None => None
            case Some(s) => Some(Slotted(s.alloc.(regIndexPlusOne := 0), s.slot))
    ensures PreserveRegister(a).Some? ==> Workable(PreserveRegister(a).value.alloc)
  {
    if AllocateSlot(a).Some? {
      AllocateWorks(a);
    }
  }

  lemma PushWorks(a: Alloc, loc: nat)
    requires Workable(a) && PushAt(a, loc).Some? && (loc == REG0 || loc < MAX_FUNCTION_SLOTS)
    ensures Workable(PushAt(a, loc).value)
  {
  }

  lemma TopWorks(a: Alloc)
    requires Workable(a)
    ensures |a.scopes| > 0 && a.regIndexPlusOne <= MAX_FUNCTION_STACK_HEIGHT
    ensures |a.stack| > 0 ==> a.stack[|a.stack| - 1] == REG0 || a.stack[|a.stack| - 1] < MAX_FUNCTION_SLOTS
  {
  }

  lemma PopWorks(a: Alloc)
    requires Workable(a) && PopTop(a).Some?
    ensures Workable(PopTop(a).value)
  {
  }

  // Only the beginnings of blocks matter.
  lemma PatchWorks(a: Alloc, depth: nat, patches: seq<Pc>)
    requires Workable(a) && depth < |a.scopes|
    ensures Workable(a.(scopes := a.scopes[depth := a.scopes[depth].(patches := patches)]))
  {
  }

  // A slot of its own for a constant is the next one.
  lemma NextConst(a: Alloc, v: Word)
    requires Workable(a) && AllocateWithin(a, a.firstConst, a.firstDynamic).Some?
    ensures var r := AllocateWithin(a, a.firstConst, a.firstDynamic).value;
            && r.slot == a.firstConst + |a.consts| < a.firstConst + MAX_CONSTANT_TABLE_SIZE
            && r.slot < MAX_FUNCTION_SLOTS && r.alloc.consts == a.consts && r.alloc.firstConst == a.firstConst
            && Workable(r.alloc.(consts := a.consts + [v]))
  {
    var r := AllocateWithin(a, a.firstConst, a.firstDynamic).value;
    assert a.slots[r.slot] == 0;
    assert a.slots[a.firstConst + |a.consts|] == 0;
  }

  lemma {:induction false} SearchStartAbove(scopes: seq<Scope>, n: nat)
    requires |scopes| > 0 && forall j :: 0 <= j < |scopes| ==> n <= scopes[j].init
    ensures n <= SearchStart(scopes)
  {
    if scopes[0].opcode == BlockOp && |scopes| > 1 {
      SearchStartAbove(scopes[1..], n);
    }
  }

  lemma ReferencedWorks(a: Alloc, local: nat)
    requires Workable(a) && FindReferenced(a, local).Some?
    ensures Workable(FindReferenced(a, local).value.alloc)
  {
    SearchStartAbove(a.scopes, a.numLocals);
    if Uses(a.stack, SearchStart(a.scopes), local) > 0 {
      AllocateWorks(a);
    }
  }

  lemma SoundWorks(a: Alloc)
    requires Sound(a) && a.firstDynamic <= a.firstConst + MAX_CONSTANT_TABLE_SIZE
    requires |a.scopes| == 1 && a.scopes[0].init == a.numLocals
    ensures Workable(a)
  {
    forall i | 0 <= i < |a.stack| ensures a.stack[i] == REG0 || a.stack[i] < MAX_FUNCTION_SLOTS {
      assert Place(a, a.stack[i]);
    }
  }

  // ---------------------------------------------------------------------------------
  // Searches.

  lemma {:induction false} FindConstNone(consts: seq<Word>, v: Word, i: nat)
    requires i < |consts| && FindConst(consts[..i], v).None? && consts[i] != Signed(v)
    ensures FindConst(consts[..i + 1], v).None?
  {
    assert consts[..i + 1][..i] == consts[..i];
  }

  lemma {:induction false} FindConstAt(consts: seq<Word>, v: Word, i: nat, n: nat)
    requires i < n <= |consts| && FindConst(consts[..i], v).None? && consts[i] == Signed(v)
    ensures FindConst(consts[..n], v) == Some(i)
    decreases n
  {
    assert consts[..n][..n - 1] == consts[..n - 1];
    if i < n - 1 {
      FindConstAt(consts, v, i, n - 1);
    }
  }

  lemma {:induction false} UsesBelow(stack: seq<nat>, from: nat, slot: nat)
    requires |stack| <= from
    ensures Uses(stack, from, slot) == 0
  {
    if |stack| > 0 {
      UsesBelow(stack[..|stack| - 1], from, slot);
    }
  }

  lemma {:induction false} UsesPrefix(stack: seq<nat>, from: nat, slot: nat, n: nat)
    requires n <= |stack|
    ensures Uses(stack[..n], from, slot) <= Uses(stack, from, slot)
    decreases |stack|
  {
    if n < |stack| {
      var last := |stack| - 1;
      assert stack[..last][..n] == stack[..n];
      UsesPrefix(stack[..last], from, slot, n);
    } else {
      assert stack[..n] == stack;
    }
  }

  // Having looked at the stack up to i: nothing was found and nothing has changed, or everything
  // found so far refers to one slot with that many uses.
  predicate Copied(a: Alloc, from: nat, local: nat, i: nat, b: Alloc, preserved: nat) {
    && |a.slots| == MAX_FUNCTION_SLOTS && i <= |a.stack|
    && var uses := Uses(a.stack[..i], from, local);
       if uses == 0 then b == a && preserved == local
       else uses <= MAX_USAGE && AllocateSlot(a).Some? && preserved == AllocateSlot(a).value.slot
            && b == AllocateSlot(a).value.alloc.(stack := Moved(a.stack[..i], from, local, preserved) + a.stack[i..],
                                                 slots := a.slots[preserved := uses])
  }

  lemma CopiedStarts(a: Alloc, from: nat, local: nat)
    requires |a.slots| == MAX_FUNCTION_SLOTS && from <= |a.stack|
    ensures Copied(a, from, local, from, a, local)
  {
    UsesBelow(a.stack[..from], from, local);
  }

  lemma CopiedPast(a: Alloc, from: nat, local: nat, i: nat, b: Alloc, preserved: nat)
    requires Copied(a, from, local, i, b, preserved) && from <= i < |a.stack|
    ensures |b.stack| == |a.stack| && b.stack[i] == a.stack[i]
    ensures a.stack[i] != local ==> Copied(a, from, local, i + 1, b, preserved)
  {
    assert a.stack[..i + 1][..i] == a.stack[..i];
    assert a.stack[i..] == [a.stack[i]] + a.stack[i + 1..];
  }

  // The first reference gets a slot, and the later ones are counted.
  lemma CopiedFirst(a: Alloc, from: nat, local: nat, i: nat, b: Alloc)
    requires Copied(a, from, local, i, b, local) && from <= i < |a.stack| && a.stack[i] == local < a.firstDynamic
    ensures b == a && Uses(a.stack[..i + 1], from, local) == 1
    ensures AllocateSlot(a).Some? ==>
              var s := AllocateSlot(a).value;
              Copied(a, from, local, i + 1, s.alloc.(stack := a.stack[i := s.slot]), s.slot) && s.slot != local
  {
    assert a.stack[..i + 1][..i] == a.stack[..i];
    if AllocateSlot(a).Some? {
      var s := AllocateSlot(a).value;
      MovedNothing(a.stack[..i], from, local, s.slot);
      assert a.stack[i := s.slot] == a.stack[..i] + [s.slot] + a.stack[i + 1..];
    }
  }

  lemma {:induction false} MovedNothing(stack: seq<nat>, from: nat, slot: nat, to: nat)
    requires Uses(stack, from, slot) == 0
    ensures Moved(stack, from, slot, to) == stack
  {
    if |stack| > 0 {
      MovedNothing(stack[..|stack| - 1], from, slot, to);
    }
  }

  lemma CopiedAgain(a: Alloc, from: nat, local: nat, i: nat, b: Alloc, preserved: nat)
    requires Copied(a, from, local, i, b, preserved) && from <= i < |a.stack| && a.stack[i] == local != preserved
    ensures preserved < |b.slots| && b.slots[preserved] == Uses(a.stack[..i], from, local)
    ensures Uses(a.stack[..i + 1], from, local) == b.slots[preserved] + 1
    ensures b.slots[preserved] < MAX_USAGE ==>
              Copied(a, from, local, i + 1,
                     b.(stack := b.stack[i := preserved], slots := b.slots[preserved := b.slots[preserved] + 1]),
                     preserved)
  {
    assert a.stack[..i + 1][..i] == a.stack[..i];
    var m := Moved(a.stack[..i], from, local, preserved);
    assert (m + a.stack[i..])[i := preserved] == m + [preserved] + a.stack[i + 1..];
  }

  lemma CopiedAll(a: Alloc, from: nat, local: nat, b: Alloc, preserved: nat)
    requires Copied(a, from, local, |a.stack|, b, preserved) && from == SearchStart(a.scopes)
    ensures FindReferenced(a, local) == Some(Slotted(b, preserved))
  {
    assert a.stack[..|a.stack|] == a.stack;
    assert Moved(a.stack, from, local, preserved) + a.stack[|a.stack|..] == Moved(a.stack, from, local, preserved);
    var uses := Uses(a.stack, from, local);
    if uses > 0 {
      var s := AllocateSlot(a).value;
      assert s.alloc.slots[s.slot := uses] == a.slots[s.slot := uses];
    }
  }

  lemma NothingToCopy(a: Alloc, local: nat)
    requires |a.slots| == MAX_FUNCTION_SLOTS && |a.stack| < SearchStart(a.scopes)
    ensures FindReferenced(a, local) == Some(Slotted(a, local))
  {
    UsesBelow(a.stack, SearchStart(a.scopes), local);
  }

  lemma CopyFails(a: Alloc, local: nat, i: nat)
    requires |a.slots| == MAX_FUNCTION_SLOTS && i <= |a.stack|
    requires var uses := Uses(a.stack[..i], SearchStart(a.scopes), local);
             uses > MAX_USAGE || (uses > 0 && AllocateSlot(a).None?)
    ensures FindReferenced(a, local).None?
  {
    UsesPrefix(a.stack, SearchStart(a.scopes), local, i);
  }

  // Preserving has come to local i: the rest of it gives what the whole gives.
  predicate Preserving(a: Alloc, ops: seq<Straight>, b: Alloc, i: nat) {
    && Shaped(a) && Shaped(b) && SameShape(a, b)
    && PreserveLocalsFrom(a, 0) ==
       match PreserveLocalsFrom(b, i)
       case None => None
       case Some(rest) => Some(Out(rest.alloc, ops + rest.ops))
  }

  lemma PreservingStarts(a: Alloc)
    requires Shaped(a)
    ensures Preserving(a, [], a, 0)
  {
    var r := PreserveLocalsFrom(a, 0);
    if r.Some? {
      assert [] + r.value.ops == r.value.ops;
    }
  }

  lemma PreservingEnds(a: Alloc, ops: seq<Straight>, b: Alloc, i: nat)
    requires Preserving(a, ops, b, i) && i >= b.numLocals
    ensures PreserveLocalsFrom(a, 0) == Some(Out(b, ops))
  {
    assert ops + [] == ops;
  }

  lemma PreservingNext(a: Alloc, ops: seq<Straight>, b: Alloc, i: nat)
    requires Preserving(a, ops, b, i) && i < b.numLocals
    ensures FindReferenced(b, i).None? ==> PreserveLocalsFrom(a, 0).None?
    ensures FindReferenced(b, i).Some? ==>
              var f := FindReferenced(b, i).value;
              Preserving(a, ops + if f.slot != i then [CopySlot(f.slot, i)] else [], f.alloc, i + 1)
  {
    hide FindReferenced;
    if FindReferenced(b, i).Some? {
      var f := FindReferenced(b, i).value;
      var op := if f.slot != i then [CopySlot(f.slot, i)] else [];
      var r := PreserveLocalsFrom(f.alloc, i + 1);
      if r.Some? {
        assert ops + (op + r.value.ops) == ops + op + r.value.ops;
      }
    }
  }

  // The three operands of a select.
  datatype ReadThree = ReadThree(alloc: Alloc, operation: Straight)

  function TakeThree(a: Alloc): (r: Option<ReadThree>)
    requires |a.scopes| > 0
  {
    var b :- PopTop(a);
    var c :- PopTop(b);
    var d :- PopTop(c);
    Some(ReadThree(d, SelectOperation(InRegister(a, 0), InRegister(b, 0), InRegister(c, 0),
                                      TopSlot(a), TopSlot(b), TopSlot(c))))
  }

  lemma SelectTakes(a: Alloc)
    requires |a.slots| == MAX_FUNCTION_SLOTS && |a.scopes| > 0 && |a.stack| >= 2
    ensures CompileSelect(a) ==
            var p :- if InRegister(a, 0) || InRegister(a, 1) || InRegister(a, 2) then Some(Out(a, []))
                     else PreserveRegister(a);
            var t :- TakeThree(p.alloc);
            PushResult(Out(t.alloc, p.ops), t.operation)
  {
    hide PreserveRegister, PopTop;
  }

  // ---------------------------------------------------------------------------------
  // Emission.

  lemma {:induction false} EmitApart(o: Comp, ops: seq<Straight>, a: Alloc)
    requires o.page < |o.used|
    ensures EmitAll(o.(a := a), ops) == EmitAll(o, ops).(a := a)
    decreases |ops|
  {
    if ops != [] {
      EmitApart(Emit(o, Do(ops[0])), ops[1..], a);
    }
  }

  lemma {:induction false} EmitAppend(o: Comp, x: seq<Straight>, y: seq<Straight>)
    requires o.page < |o.used|
    ensures EmitAll(o, x + y) == EmitAll(EmitAll(o, x), y)
    decreases |x|
  {
    if x == [] {
      assert x + y == y;
    } else {
      assert (x + y)[1..] == x[1..] + y;
      EmitAppend(Emit(o, Do(x[0])), x[1..], y);
    }
  }

  // From o to p exactly these operations have been emitted.
  predicate Since(o: Comp, ops: seq<Straight>, p: Comp) {
    o.page < |o.used| && p == EmitOut(o, Out(p.a, ops))
  }

  lemma SinceMeans(o: Comp, ops: seq<Straight>, p: Comp)
    requires Since(o, ops, p)
    ensures o.page < |o.used| && p == EmitOut(o, Out(p.a, ops))
  {
  }

  lemma SinceItself(o: Comp, a: Alloc)
    requires o.page < |o.used|
    ensures Since(o, [], o.(a := a))
  {
  }

  lemma SinceOne(o: Comp, ops: seq<Straight>, p: Comp, op: Straight, a: Alloc)
    requires Since(o, ops, p)
    ensures p.page < |p.used| && Since(o, ops + [op], Emit(p, Do(op)).(a := a))
  {
    EmitApart(o, ops, p.a);
    EmitAppend(o, ops, [op]);
    EmitApart(o, ops + [op], a);
    assert [op][1..] == [];
  }

  lemma SinceFirst(o: Comp, op: Straight, a: Alloc)
    requires o.page < |o.used|
    ensures Since(o, [op], Emit(o.(a := a), Do(op)))
  {
    assert [op][1..] == [];
    assert EmitAll(o.(a := a), [op]) == EmitAll(Emit(o.(a := a), Do(op)), []);
  }

  lemma SinceMoved(o: Comp, ops: seq<Straight>, p: Comp, a: Alloc)
    requires Since(o, ops, p)
    ensures Since(o, ops, p.(a := a))
  {
    EmitApart(o, ops, p.a);
    EmitApart(o, ops, a);
  }
}
