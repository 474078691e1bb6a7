// The frame of a function: parameters, locals and constants
// (kernel/wasm3/source/m3_compile.c:2266-2395).
module FunctionFrame {
  import opened WasmSemantics
  import opened Wrappers
  import opened ThreadedMachine
  import opened SlotAllocator
  import opened PlainCompile
  import opened PlainInvariants

  const MAX_CONSTANT_TABLE_SIZE := 120

  datatype Function = Function(params: nat, locals: nat, typed: bool, body: Code)

  // Parameters are on even slots, and the other locals follow.
  function ArgSlots(params: nat): nat {
    if params == 0 then 0 else 2 * params - 1
  }

  function LocalSlot(params: nat, i: nat): nat {
    if i < params then 2 * i else ArgSlots(params) + (i - params)
  }

  function LocalSlots(params: nat, n: nat): (r: seq<nat>)
    ensures |r| == n && forall i :: 0 <= i < n ==> r[i] == LocalSlot(params, i)
  {
    if n == 0 then [] else LocalSlots(params, n - 1) + [LocalSlot(params, n - 1)]
  }

  function Blank(mutables: seq<bool>, typed: bool): Alloc {
    Alloc([], seq(MAX_FUNCTION_SLOTS, _ => 0), 0, 0, [], 0, 0, 0, mutables,
          [Scope(FunctionBody, typed, 0, false, Pc(0, 0), [])])
  }

  function PushParams(a: Alloc, params: nat, i: nat): (r: Option<Alloc>)
    requires |a.slots| == MAX_FUNCTION_SLOTS && i <= params
    ensures r.Some? ==> |r.value.slots| == MAX_FUNCTION_SLOTS
    decreases params - i
  {
    if i == params then Some(a)
    else
      var s :- PushAllocated(a);
      PushParams(s.alloc.(firstDynamic := a.firstDynamic + if i < params - 1 then 2 else 1), params, i + 1)
  }

  function PushLocals(a: Alloc, n: nat): (r: Option<Alloc>)
    requires |a.slots| == MAX_FUNCTION_SLOTS
    ensures r.Some? ==> |r.value.slots| == MAX_FUNCTION_SLOTS
    decreases n
  {
    if n == 0 then Some(a)
    else
      var s :- PushAllocated(a);
      PushLocals(s.alloc, n - 1)
  }

  // One more than the last slot in use, from the dynamic ones on.
  function UsedSlots(a: Alloc): nat
    requires |a.slots| == MAX_FUNCTION_SLOTS
  {
    if a.firstDynamic <= a.maxAllocated <= MAX_FUNCTION_SLOTS
    then MaxUsed(a.slots, a.firstDynamic, a.maxAllocated) else a.maxAllocated
  }

  // Room for constants is an estimate, cut to the size of the table.
  function SetUp(fn: Function, mutables: seq<bool>, estimate: nat): Option<Alloc> {
    var a :- PushParams(Blank(mutables, fn.typed), fn.params, 0);
    var b :- PushLocals(a, fn.locals);
    var firstConst := UsedSlots(b);
    var firstDynamic := firstConst + Min(estimate, MAX_CONSTANT_TABLE_SIZE);
    if firstDynamic >= MAX_FUNCTION_SLOTS then None
    else
      Some(b.(firstConst := firstConst, firstDynamic := firstDynamic, maxAllocated := firstDynamic,
          numLocals := |b.stack|,
              scopes := [Scope(FunctionBody, fn.typed, |b.stack|, false, Pc(0, 0), [])]))
  }

  // While parameters and locals are laid out, the slots from firstDynamic on are used up to
  // maxAllocated.
  predicate Framing(a: Alloc) {
    && |a.slots| == MAX_FUNCTION_SLOTS && |a.stack| <= MAX_FUNCTION_STACK_HEIGHT && a.maxAllocated <= MAX_FUNCTION_SLOTS
    && a.regIndexPlusOne == 0 && a.consts == []
    && (forall c :: 0 <= c < MAX_FUNCTION_SLOTS ==> (a.slots[c] == 0 <==> c !in a.stack))
    && (forall i, j :: 0 <= i < j < |a.stack| ==> a.stack[i] != a.stack[j])
    && (forall i :: 0 <= i < |a.stack| ==> a.stack[i] < a.maxAllocated)
    && (forall c :: a.firstDynamic <= c < MAX_FUNCTION_SLOTS ==> (a.slots[c] == 0 <==> a.maxAllocated <= c))
  }

  predicate Lined(a: Alloc, params: nat) {
    && (forall i :: 0 <= i < |a.stack| ==> a.stack[i] == LocalSlot(params, i))
    && a.maxAllocated == if |a.stack| == 0 then 0 else LocalSlot(params, |a.stack| - 1) + 1
  }

  lemma FrameGrows(a: Alloc, firstDynamic: nat)
    requires Framing(a) && PushAllocated(a).Some?
    requires firstDynamic == a.firstDynamic <= a.maxAllocated || a.maxAllocated <= a.firstDynamic < firstDynamic
    ensures var b := PushAllocated(a).value;
            && b.slot == Max(a.firstDynamic, a.maxAllocated) && b.alloc.maxAllocated == b.slot + 1
            && Framing(b.alloc.(firstDynamic := firstDynamic)) && b.alloc.stack == a.stack + [b.slot]
  {
    var b := PushAllocated(a).value;
    assert a.slots[b.slot] == 0;
    var next := Max(a.firstDynamic, a.maxAllocated);
    assert next < MAX_FUNCTION_SLOTS ==> a.slots[next] == 0;
    assert b.slot !in a.stack;
    forall c | 0 <= c < MAX_FUNCTION_SLOTS ensures b.alloc.slots[c] == 0 <==> c !in b.alloc.stack {
      assert b.alloc.stack[|a.stack|] == b.slot;
    }
  }

  lemma LinedStarts(a: Alloc, params: nat)
    requires Framing(a) && Lined(a, params)
    requires a.firstDynamic == if |a.stack| < params then 2 * |a.stack| else ArgSlots(params)
    ensures |a.slots| == MAX_FUNCTION_SLOTS
    ensures |a.stack| >= params ==> a.firstDynamic <= a.maxAllocated
    ensures |a.stack| < params ==> a.maxAllocated <= a.firstDynamic
  {
  }

  // The slot that comes next is that of the next local.
  lemma LinedNext(a: Alloc, params: nat, b: Slotted, firstDynamic: nat)
    requires Lined(a, params) && b.slot == Max(a.firstDynamic, a.maxAllocated)
    requires b.alloc.stack == a.stack + [b.slot] && b.alloc.maxAllocated == b.slot + 1
    requires a.firstDynamic == if |a.stack| < params then 2 * |a.stack| else ArgSlots(params)
    ensures Lined(b.alloc.(firstDynamic := firstDynamic), params)
  {
  }

  lemma {:induction false} ParamsFrame(a: Alloc, params: nat, i: nat)
    requires Framing(a) && Lined(a, params) && |a.stack| == i <= params && PushParams(a, params, i).Some?
    requires a.firstDynamic == if i < params then 2 * i else ArgSlots(params)
    ensures var b := PushParams(a, params, i).value;
            && Framing(b) && Lined(b, params) && |b.stack| == params && b.firstDynamic == ArgSlots(params)
            && b.mutables == a.mutables
    decreases params - i
  {
    hide Framing, Lined;
    LinedStarts(a, params);
    if i < params {
      var s := PushAllocated(a).value;
      var next := a.firstDynamic + if i < params - 1 then 2 else 1;
      FrameGrows(a, next);
      LinedNext(a, params, s, next);
      ParamsFrame(s.alloc.(firstDynamic := next), params, i + 1);
    }
  }

  lemma {:induction false} LocalsFrame(a: Alloc, params: nat, n: nat)
    requires Framing(a) && Lined(a, params) && |a.stack| >= params && a.firstDynamic == ArgSlots(params)
    requires PushLocals(a, n).Some?
    ensures var b := PushLocals(a, n).value;
            && Framing(b) && Lined(b, params) && |b.stack| == |a.stack| + n && b.firstDynamic == ArgSlots(params)
            && b.mutables == a.mutables
    decreases n
  {
    hide Framing, Lined;
    if n > 0 {
      LinedStarts(a, params);
      FrameGrows(a, a.firstDynamic);
      LinedNext(a, params, PushAllocated(a).value, a.firstDynamic);
      LocalsFrame(PushAllocated(a).value.alloc, params, n - 1);
    }
  }

  lemma FrameSound(fn: Function, b: Alloc, estimate: nat, a: Alloc)
    requires Framing(b) && Lined(b, fn.params) && |b.stack| == fn.params + fn.locals &&
             b.firstDynamic == ArgSlots(fn.params)
    requires a == b.(firstConst := UsedSlots(b), firstDynamic := UsedSlots(b) + Min(estimate, MAX_CONSTANT_TABLE_SIZE),
                     maxAllocated := UsedSlots(b) + Min(estimate, MAX_CONSTANT_TABLE_SIZE), numLocals := |b.stack|,
                     scopes := [Scope(FunctionBody, fn.typed, |b.stack|, false, Pc(0, 0), [])])
    requires a.firstDynamic < MAX_FUNCTION_SLOTS
    ensures Sound(a) && OneInRegister(a) && UsedSlots(b) == b.maxAllocated && ArgSlots(fn.params) <= a.firstConst
  {
    FrameUsed(b);
    hide UsedSlots;
    assert forall c :: a.firstDynamic <= c < MAX_FUNCTION_SLOTS ==> c !in b.stack && multiset(b.stack)[c] == 0;
    forall i | 0 <= i < |b.stack| ensures b.stack[i] != REG0 {
      assert b.stack[i] < b.maxAllocated;
    }
  }

  lemma FrameUsed(b: Alloc)
    requires Framing(b)
    ensures UsedSlots(b) == b.maxAllocated
  {
  }

  // The state in which compiling the body starts.
  lemma SetUpSound(fn: Function, mutables: seq<bool>, estimate: nat)
    requires SetUp(fn, mutables, estimate).Some?
    ensures var a := SetUp(fn, mutables, estimate).value;
            && Sound(a) && OneInRegister(a) && !Polymorphic(a) && a.consts == [] && a.mutables == mutables
            && a.numLocals == fn.params + fn.locals && a.stack == LocalSlots(fn.params, a.numLocals)
            && ArgSlots(fn.params) <= a.firstConst && a.regIndexPlusOne == 0
            && a.scopes == [Scope(FunctionBody, fn.typed, |a.stack|, false, Pc(0, 0), [])]
            && a.firstDynamic == a.firstConst + Min(estimate, MAX_CONSTANT_TABLE_SIZE)
            && forall i :: 0 <= i < a.numLocals ==> a.stack[i] < a.firstConst
  {
    hide Sound, OneInRegister, Framing;
    var b := SetUpFrames(fn, mutables, estimate);
    FrameSound(fn, b, estimate, SetUp(fn, mutables, estimate).value);
    FrameLow(b);
  }

  // What parameters and locals are laid out to.
  lemma SetUpFrames(fn: Function, mutables: seq<bool>, estimate: nat) returns (b: Alloc)
    requires SetUp(fn, mutables, estimate).Some?
    ensures Framing(b) && Lined(b, fn.params) && |b.stack| == fn.params + fn.locals &&
            b.firstDynamic == ArgSlots(fn.params)
    ensures |b.slots| == MAX_FUNCTION_SLOTS && b.mutables == mutables
    ensures var first := UsedSlots(b) + Min(estimate, MAX_CONSTANT_TABLE_SIZE);
            && first < MAX_FUNCTION_SLOTS
            && SetUp(fn, mutables, estimate) ==
               Some(b.(firstConst := UsedSlots(b), firstDynamic := first, maxAllocated := first, numLocals := |b.stack|,
                       scopes := [Scope(FunctionBody, fn.typed, |b.stack|, false, Pc(0, 0), [])]))
  {
    hide UsedSlots, PushParams, PushLocals;
    var blank := Blank(mutables, fn.typed);
    ParamsFrame(blank, fn.params, 0);
    var p := PushParams(blank, fn.params, 0).value;
    LocalsFrame(p, fn.params, fn.locals);
    b := PushLocals(p, fn.locals).value;
  }

  lemma FrameLow(b: Alloc)
    requires Framing(b)
    ensures b.consts == [] && b.regIndexPlusOne == 0 && forall i :: 0 <= i < |b.stack| ==> b.stack[i] < b.maxAllocated
  {
  }
}
