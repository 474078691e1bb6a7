// What compiling structured code keeps: the allocation invariant, the code emitted before, and the
// branches still to be patched (kernel/wasm3/source/m3_compile.c:386-426, 694-735, 1171-1260,
// 1533-1635, 2200-2265).
module ControlStructure {
  import opened WasmSemantics
  import opened Wrappers
  import opened ThreadedMachine
  import opened MachineRuns
  import opened SlotAllocator
  import opened PlainCompile
  import opened PlainInvariants
  import opened ControlCompile
  import opened ControlGuards

  predicate Below(used: seq<nat>, pc: Pc) {
    pc.page < |used| && pc.line < used[pc.page]
  }

  // Branches to the ends of open scopes are unfilled, and each is to the end of one scope.
  predicate Patchable(code: Memory, scopes: seq<Scope>) {
    && (forall j, loc :: 0 <= j < |scopes| && loc in scopes[j].patches ==> loc in code && Pending(code[loc]))
    && (forall j, k, loc :: 0 <= j < k < |scopes| && loc in scopes[j].patches ==> loc !in scopes[k].patches)
  }

  predicate Laid(o: Comp) {
    && o.page < |o.used|
    && (forall pc :: pc in o.code ==> Below(o.used, pc))
    && (forall j :: 0 <= j < |o.a.scopes| ==> Old(o.used, o.a.scopes[j].pc))
  }

  predicate Built(o: Comp) {
    Sound(o.a) && Laid(o) && Patchable(o.code, o.a.scopes)
  }

  lemma BuiltFormed(o: Comp)
    requires Built(o)
    ensures Formed(o)
  {
  }

  predicate Contains(code: Memory, later: Memory) {
    forall pc :: pc in code ==> pc in later && later[pc] == code[pc]
  }

  // Scopes take on branches from new lines, and the innermost one may turn unreachable.
  predicate ScopeGrew(code: Memory, s: Scope, t: Scope) {
    && t.(patches := s.patches, polymorphic := s.polymorphic) == s
    && (s.polymorphic ==> t.polymorphic)
    && (forall loc :: loc in s.patches ==> loc in t.patches)
    && (forall loc :: loc in t.patches ==> loc in s.patches || loc !in code)
  }

  predicate ScopesGrew(code: Memory, s: seq<Scope>, t: seq<Scope>) {
    && |s| == |t|
    && (forall j :: 0 <= j < |s| ==> ScopeGrew(code, s[j], t[j]))
    && (forall j :: 1 <= j < |s| ==> t[j].polymorphic == s[j].polymorphic)
  }

  predicate Grew(o: Comp, p: Comp) {
    && Grown(o.used, p.used) && Contains(o.code, p.code)
    && ScopesGrew(o.code, o.a.scopes, p.a.scopes)
    && Kept(o.a, p.a.(scopes := o.a.scopes))
  }

  // On reachable code the register holds one operand at most.
  predicate Steady(a: Alloc) {
    |a.scopes| > 0 && (Polymorphic(a) || OneInRegister(a))
  }

  lemma GrewOn(o: Comp, p: Comp, q: Comp)
    requires Grew(o, p) && Grew(p, q)
    ensures Grew(o, q)
  {
    forall j | 0 <= j < |o.a.scopes| ensures ScopeGrew(o.code, o.a.scopes[j], q.a.scopes[j]) {
      assert ScopeGrew(o.code, o.a.scopes[j], p.a.scopes[j]) && ScopeGrew(p.code, p.a.scopes[j], q.a.scopes[j]);
    }
    KeptApart(o.a, p.a, q.a);
  }

  lemma GrewParts(o: Comp, p: Comp)
    requires Grew(o, p)
    ensures Grown(o.used, p.used) && Contains(o.code, p.code) && ScopesGrew(o.code, o.a.scopes, p.a.scopes)
    ensures |p.a.scopes| == |o.a.scopes| > 0 && p.a.numLocals == o.a.numLocals && o.a.consts <= p.a.consts
  {
  }

  lemma KeptApart(a: Alloc, b: Alloc, c: Alloc)
    requires Kept(a, b.(scopes := a.scopes)) && Kept(b, c.(scopes := b.scopes)) && |a.scopes| == |b.scopes|
    requires b.scopes[0].init == a.scopes[0].init
    ensures Kept(a, c.(scopes := a.scopes))
  {
  }

  lemma ScopesStay(code: Memory, s: seq<Scope>)
    ensures ScopesGrew(code, s, s)
  {
  }

  // Only the places where blocks begin matter to the allocation.
  lemma ScopesSound(a: Alloc, scopes: seq<Scope>)
    requires Sound(a) && |scopes| == |a.scopes|
    requires forall j :: 0 <= j < |scopes| ==> scopes[j].init == a.scopes[j].init
    ensures Sound(a.(scopes := scopes)) && (OneInRegister(a) ==> OneInRegister(a.(scopes := scopes)))
  {
  }

  // ---------------------------------------------------------------------------------
  // Emitting.

  lemma EmitGrows(o: Comp, op: Op)
    requires Built(o)
    ensures Built(Emit(o, op)) && Grew(o, Emit(o, op)) && Here(o) !in o.code
  {
    assert Here(o) !in o.code by {
      assert !Below(o.used, Here(o));
    }
    ScopesStay(o.code, o.a.scopes);
    KeptItself(o.a);
  }

  lemma {:induction false} EmitAllGrows(o: Comp, ops: seq<Straight>)
    requires Built(o)
    ensures Built(EmitAll(o, ops)) && Grew(o, EmitAll(o, ops))
    ensures EmitAll(o, ops).used == o.used[o.page := o.used[o.page] + |ops|]
    decreases |ops|
  {
    BuiltFormed(o);
    hide Sound, Laid, Patchable;
    if ops == [] {
      ScopesStay(o.code, o.a.scopes);
      KeptItself(o.a);
    } else {
      EmitGrows(o, Do(ops[0]));
      EmitAllGrows(Emit(o, Do(ops[0])), ops[1..]);
      GrewOn(o, Emit(o, Do(ops[0])), EmitAll(o, ops));
    }
  }

  // The lines hold the operations.
  lemma {:induction false} EmitAllHolds(o: Comp, ops: seq<Straight>)
    requires Built(o)
    ensures Holds(EmitAll(o, ops).code, Here(o), ops)
    decreases |ops|
  {
    hide Sound, Patchable, Grew;
    if ops != [] {
      EmitGrows(o, Do(ops[0]));
      var o1 := Emit(o, Do(ops[0]));
      EmitAllGrows(o1, ops[1..]);
      EmitAllHolds(o1, ops[1..]);
      GrewParts(o1, EmitAll(o, ops));
      assert Here(o) in o1.code;
      assert After(Here(o)) == Here(o1);
    }
  }

  lemma AllocGrows(o: Comp, b: Alloc)
    requires Built(o) && Sound(b) && Kept(o.a, b)
    ensures Built(o.(a := b)) && Grew(o, o.(a := b))
  {
    ScopesStay(o.code, o.a.scopes);
  }

  lemma OutGrows(o: Comp, out: Out)
    requires Built(o) && Sound(out.alloc) && Kept(o.a, out.alloc)
    ensures Built(EmitOut(o, out)) && Grew(o, EmitOut(o, out))
    ensures EmitOut(o, out).used == o.used[o.page := o.used[o.page] + |out.ops|]
    ensures Holds(EmitOut(o, out).code, Here(o), out.ops)
  {
    hide Sound, Kept, Patchable;
    AllocGrows(o, out.alloc);
    EmitAllGrows(o.(a := out.alloc), out.ops);
    EmitAllHolds(o.(a := out.alloc), out.ops);
    GrewOn(o, o.(a := out.alloc), EmitOut(o, out));
  }

  // ---------------------------------------------------------------------------------
  // Operands on the way into and out of blocks.

  lemma MoveKeeps(a: Alloc)
    requires Sound(a) && MoveTopToRegister(a).Some?
    ensures Keeps(a, MoveTopToRegister(a).value.alloc)
  {
    hide Placed, Counted, Pooled, Settled, OneInRegister;
    assert Kept(a, a);
    if !InRegister(a, 0) {
      Preserves(a);
      var p := PreserveRegister(a).value;
      Pops(p.alloc);
      var b := PopTop(p.alloc).value;
      KeptOn(a, p.alloc, b);
      ResultKeeps(a, Out(b, p.ops), SetRegister(TopSlot(p.alloc)));
    }
  }

  lemma NonTopKeeps(a: Alloc)
    requires Sound(a) && PreserveNonTop(a).Some?
    ensures var b := PreserveNonTop(a).value.alloc;
            Keeps(a, b) && |b.stack| == |a.stack| && (b.regIndexPlusOne == 0 || b.regIndexPlusOne == |b.stack|)
  {
    hide Placed, Counted, Pooled, Settled, OneInRegister;
    assert Kept(a, a);
    if |a.stack| > 0 && a.regIndexPlusOne != |a.stack| {
      Preserves(a);
    }
  }

  // No operand refers to slot i any more, nor to one it did not refer to before.
  lemma FoundReferences(a: Alloc, i: nat)
    requires Sound(a) && i < a.numLocals && FindReferenced(a, i).Some?
    ensures var b := FindReferenced(a, i).value.alloc;
            && |b.stack| == |a.stack|
            && forall k :: a.numLocals <= k < |a.stack| ==>
                b.stack[k] != i && (b.stack[k] == a.stack[k] || b.stack[k] >= a.firstConst)
  {
    hide Counted, Registered, Bounded;
    SearchStarts(a, a.scopes);
    var from := SearchStart(a.scopes);
    if Uses(a.stack, from, i) == 0 {
      UsesNone(a.stack, from, i);
    }
  }

  lemma LocalKeeps(a: Alloc, i: nat)
    requires Sound(a) && i < a.numLocals && FindReferenced(a, i).Some? && NoneBelow(a, i)
    ensures var b := FindReferenced(a, i).value.alloc;
            && Keeps(a, b) && |b.stack| == |a.stack| && b.regIndexPlusOne == a.regIndexPlusOne
            && b.numLocals == a.numLocals && NoneBelow(b, i + 1)
  {
    FindKeeps(a, i);
    FoundReferences(a, i);
    hide Valid, Settled, OneInRegister;
    ValidParts(a);
  }

  lemma {:induction false} LocalsFromKeeps(a: Alloc, i: nat)
    requires Sound(a) && PreserveLocalsFrom(a, i).Some? && NoneBelow(a, i) && i <= a.numLocals
    ensures var b := PreserveLocalsFrom(a, i).value.alloc;
            && Keeps(a, b) && |b.stack| == |a.stack| && b.regIndexPlusOne == a.regIndexPlusOne
            && b.numLocals == a.numLocals && NoneBelow(b, a.numLocals)
    decreases a.numLocals - i
  {
    hide Placed, Counted, Settled, OneInRegister, FindReferenced, NoneBelow;
    if i == a.numLocals {
      assert Kept(a, a);
    } else {
      LocalKeeps(a, i);
      var f := FindReferenced(a, i).value;
      LocalsFromKeeps(f.alloc, i + 1);
      KeptOn(a, f.alloc, PreserveLocalsFrom(a, i).value.alloc);
    }
  }

  lemma LocalsKeep(a: Alloc)
    requires Sound(a) && PreserveLocals(a).Some?
    ensures var b := PreserveLocals(a).value.alloc;
            && Keeps(a, b) && |b.stack| == |a.stack| && b.regIndexPlusOne == a.regIndexPlusOne && NoReferences(b)
  {
    if |a.stack| > a.numLocals {
      LocalsFromKeeps(a, 0);
    }
  }

  lemma {:induction false} UnwindKeeps(a: Alloc, height: nat)
    requires Sound(a) && a.scopes[0].init <= height <= |a.stack|
    ensures UnwindTo(a, height).Some?
    ensures var b := UnwindTo(a, height).value;
            Keeps(a, b) && b.stack == a.stack[..height]
    decreases |a.stack|
  {
    if |a.stack| > height {
      Pops(a);
      var b := PopTop(a).value;
      UnwindKeeps(b, height);
      KeptOn(a, b, UnwindTo(b, height).value);
      assert b.stack[..height] == a.stack[..height];
    }
  }

  // ---------------------------------------------------------------------------------
  // Entering and leaving a block.

  lemma PrepareGrows(o: Comp)
    requires Built(o) && Prepare(o).Some?
    ensures var p := Prepare(o).value;
            && Built(p) && Grew(o, p) && NoReferences(p.a) && p.a.regIndexPlusOne == 0 && |p.a.stack| == |o.a.stack|
            && (OneInRegister(o.a) ==> OneInRegister(p.a))
  {
    hide Valid, Settled, OneInRegister, Patchable, NoneBelow, Grew;
    var p := PreserveRegister(o.a).value;
    Preserves(o.a);
    OutGrows(o, p);
    LocalsKeep(p.alloc);
    OutGrows(EmitOut(o, p), PreserveLocals(p.alloc).value);
    GrewOn(o, EmitOut(o, p), Prepare(o).value);
  }

  lemma EnterBuilds(o: Comp, opcode: Opcode, typed: bool)
    requires Built(o) && NoReferences(o.a) && o.a.regIndexPlusOne == 0
    ensures Built(EnterScope(o, opcode, typed))
    ensures OneInRegister(o.a) ==> OneInRegister(EnterScope(o, opcode, typed).a)
  {
    BuiltFormed(o);
    hide Sound, Patchable, OneInRegister, NoReferences;
    EnterSounds(o, opcode, typed);
    EnterPatchable(o, opcode, typed);
  }

  lemma EnterSounds(o: Comp, opcode: Opcode, typed: bool)
    requires Formed(o) && Sound(o.a) && NoReferences(o.a) && o.a.regIndexPlusOne == 0
    ensures var a := EnterScope(o, opcode, typed).a;
            Sound(a) && (OneInRegister(o.a) ==> OneInRegister(a))
  {
    var a := EnterScope(o, opcode, typed).a;
    assert forall j :: 1 <= j < |a.scopes| ==> a.scopes[j] == o.a.scopes[j - 1];
    assert Valid(a) by {
      hide Settled;
    }
    hide Valid;
  }

  lemma EnterPatchable(o: Comp, opcode: Opcode, typed: bool)
    requires Formed(o) && Patchable(o.code, o.a.scopes)
    ensures Patchable(o.code, EnterScope(o, opcode, typed).a.scopes)
  {
    var scopes := EnterScope(o, opcode, typed).a.scopes;
    assert forall j :: 1 <= j < |scopes| ==> scopes[j] == o.a.scopes[j - 1];
  }

  // What the end of a block leaves above where the block began.
  predicate BlockLeaves(a: Alloc, b: Alloc, typed: bool, height: nat) {
    && height <= |b.stack| && height <= |a.stack| && b.stack[..height] == a.stack[..height]
    && (if |b.stack| == height then b.regIndexPlusOne == 0
        else typed && |b.stack| == height + 1 && b.stack[height] == REG0)
  }

  lemma ValidateKeeps(a: Alloc)
    requires Sound(a) && ValidateEnd(a).Some?
    ensures var b := ValidateEnd(a).value.alloc;
            Sound(b) && Kept(a, b) && BlockLeaves(a, b, a.scopes[0].typed, a.scopes[0].init)
    ensures !Polymorphic(a) && OneInRegister(a) ==> OneInRegister(ValidateEnd(a).value.alloc)
    ensures var b := ValidateEnd(a).value.alloc;
            Polymorphic(a) && |b.stack| > a.scopes[0].init ==> b.regIndexPlusOne == a.scopes[0].init + 1
  {
    hide Placed, Counted, Settled, OneInRegister;
    var init, v := a.scopes[0].init, ValidateEnd(a).value;
    assert Kept(a, a);
    if !a.scopes[0].typed {
      UnwindKeeps(a, init);
    } else if Polymorphic(a) {
      UnwindKeeps(a, init);
      var b := UnwindTo(a, init).value;
      Pushes(b, REG0);
      KeptOn(a, b, v.alloc);
      assert v.alloc.stack[..init] == b.stack;
    } else if |a.stack| == init + 1 {
      MoveKeeps(a);
      MoveLeaves(a);
    }
  }

  // The value ends up in the register, whatever was there before.
  lemma MoveLeaves(a: Alloc)
    requires Sound(a) && MoveTopToRegister(a).Some? && |a.stack| > a.scopes[0].init
    ensures var b := MoveTopToRegister(a).value.alloc;
            |b.stack| == |a.stack| && b.stack[|b.stack| - 1] == REG0
  {
    hide Placed, Counted, Pooled, Settled, OneInRegister;
    if !InRegister(a, 0) {
      Preserves(a);
    }
  }

  // Operands below the block were not in the register when it began.
  predicate NoneInRegister(stack: seq<nat>, height: nat) {
    forall i :: 0 <= i < height && i < |stack| ==> stack[i] != REG0
  }

  lemma LeavesOne(a: Alloc, b: Alloc, typed: bool, height: nat)
    requires BlockLeaves(a, b, typed, height) && NoneInRegister(a.stack, height) && Registered(b) &&
             b.scopes[0].init == height
    requires |b.stack| > height ==> b.regIndexPlusOne == height + 1
    ensures OneInRegister(b)
  {
    forall i | 0 <= i < height ensures b.stack[i] == a.stack[i] {
      assert b.stack[i] == b.stack[..height][i];
    }
  }

  lemma {:induction false} PatchAllDoes(code: Memory, locs: seq<Pc>, pc: Pc)
    ensures PatchAll(code, locs, pc).Keys == code.Keys
    ensures forall l :: l in code && l !in locs ==> PatchAll(code, locs, pc)[l] == code[l]
    ensures forall l :: l in code && l in locs ==> PatchAll(code, locs, pc)[l] == Retarget(code[l], To(pc))
    decreases |locs|
  {
    if locs != [] {
      var c1 := Patch(code, locs[0], pc);
      PatchAllDoes(c1, locs[1..], pc);
      assert c1.Keys == code.Keys;
      assert locs == [locs[0]] + locs[1..];
    }
  }

  lemma LeaveSounds(o: Comp, opcode: Opcode, typed: bool, b: Alloc)
    requires Built(o) && Sound(b) && Kept(EnterScope(o, opcode, typed).a,
             b.(scopes := EnterScope(o, opcode, typed).a.scopes))
    requires ScopesGrew(o.code, EnterScope(o, opcode, typed).a.scopes, b.scopes)
    ensures var c := b.(scopes := b.scopes[1..]);
            && Sound(c) && Kept(o.a, c.(scopes := o.a.scopes)) && ScopesGrew(o.code, o.a.scopes, c.scopes)
            && (OneInRegister(b) ==> OneInRegister(c))
  {
    var e, c := EnterScope(o, opcode, typed), b.(scopes := b.scopes[1..]);
    var h := |o.a.stack|;
    forall j | 0 <= j < |o.a.scopes| ensures c.scopes[j].init == o.a.scopes[j].init &&
        ScopeGrew(o.code, o.a.scopes[j], c.scopes[j])
      ensures c.scopes[j].polymorphic == o.a.scopes[j].polymorphic
    {
      assert e.a.scopes[j + 1] == o.a.scopes[j] && c.scopes[j] == b.scopes[j + 1];
      assert ScopeGrew(o.code, e.a.scopes[j + 1], b.scopes[j + 1]);
    }
    assert ScopeGrew(o.code, e.a.scopes[0], b.scopes[0]);
    forall i | 0 <= i < h ensures b.stack[i] == o.a.stack[i] {
      assert b.stack[i] == b.stack[..h][i];
    }
    assert Kept(o.a, c.(scopes := o.a.scopes));
  }

  // Filling in the branches to one scope leaves those to the others open.
  lemma PatchLeaves(code: Memory, scopes: seq<Scope>, pc: Pc)
    requires Patchable(code, scopes) && |scopes| > 0
    ensures Patchable(PatchAll(code, scopes[0].patches, pc), scopes[1..])
  {
    PatchAllDoes(code, scopes[0].patches, pc);
    var rest := scopes[1..];
    assert forall j :: 0 <= j < |rest| ==> rest[j] == scopes[j + 1];
    forall j, loc | 0 <= j < |rest| && loc in rest[j].patches
      ensures loc in code && Pending(PatchAll(code, scopes[0].patches, pc)[loc])
    {
      assert loc in scopes[j + 1].patches;
    }
  }

  lemma LeaveCode(o: Comp, opcode: Opcode, typed: bool, p: Comp)
    requires Formed(o) && |p.a.scopes| > 0 && p.page < |p.used| && Patchable(p.code, p.a.scopes)
    requires Grew(EnterScope(o, opcode, typed), p)
    ensures var code := PatchAll(p.code, p.a.scopes[0].patches, Here(p));
            Contains(o.code, code) && Patchable(code, p.a.scopes[1..]) && code.Keys == p.code.Keys
  {
    hide Patchable, Kept, Grown;
    var e := EnterScope(o, opcode, typed);
    PatchAllDoes(p.code, p.a.scopes[0].patches, Here(p));
    PatchLeaves(p.code, p.a.scopes, Here(p));
    assert ScopeGrew(e.code, e.a.scopes[0], p.a.scopes[0]);
  }

  lemma LeaveGrows(o: Comp, opcode: Opcode, typed: bool, p: Comp)
    requires Built(o) && NoReferences(o.a) && o.a.regIndexPlusOne == 0 && p.page == o.page
    requires Built(p) && Grew(EnterScope(o, opcode, typed), p) && LeaveScope(p).Some?
    requires Steady(o.a) ==> Steady(p.a)
    ensures var q := LeaveScope(p).value;
            && Built(q) && Grew(o, q) && BlockLeaves(o.a, q.a, typed, |o.a.stack|)
            && (Steady(o.a) ==> Steady(q.a)) && Polymorphic(q.a) == Polymorphic(o.a)
  {
    hide Placed, Counted, Pooled, Bounded, Settled, Patchable, NoneBelow, OneInRegister;
    var e, v, h := EnterScope(o, opcode, typed), ValidateEnd(p.a).value, |o.a.stack|;
    ValidateKeeps(p.a);
    OutGrows(p, v);
    var p1, q := EmitOut(p, v), LeaveScope(p).value;
    GrewOn(e, p, p1);
    LeaveSounds(o, opcode, typed, p1.a);
    LeaveCode(o, opcode, typed, p1);
    assert ScopeGrew(e.code, e.a.scopes[0], p.a.scopes[0]);
    assert p.a.stack[..h] == o.a.stack;
    assert q.a.stack[..h] == o.a.stack[..h];
    assert forall j :: 0 <= j < |q.a.scopes| ==> q.a.scopes[j] == p1.a.scopes[j + 1];
    if Steady(o.a) && !Polymorphic(o.a) {
      LeaveSteady(o, p, v.alloc, typed);
    }
  }

  lemma LeaveSteady(o: Comp, p: Comp, b: Alloc, typed: bool)
    requires OneInRegister(o.a) && o.a.regIndexPlusOne == 0 && Sound(p.a) && Steady(p.a)
    requires p.a.scopes[0].init == |o.a.stack| <= |p.a.stack| && p.a.stack[..|o.a.stack|] == o.a.stack
    requires ValidateEnd(p.a).Some? && b == ValidateEnd(p.a).value.alloc && p.a.scopes[0].typed == typed
    ensures OneInRegister(b)
  {
    hide Placed, Counted, Pooled, Bounded, Settled;
    ValidateKeeps(p.a);
    if Polymorphic(p.a) {
      forall i | 0 <= i < |o.a.stack| ensures p.a.stack[i] != REG0 {
        assert p.a.stack[i] == p.a.stack[..|o.a.stack|][i];
      }
      LeavesOne(p.a, b, typed, |o.a.stack|);
    }
  }

  // ---------------------------------------------------------------------------------
  // Branches.

  function WithPatch(scopes: seq<Scope>, depth: nat, loc: Pc): seq<Scope>
    requires depth < |scopes|
  {
    scopes[depth := scopes[depth].(patches := [loc] + scopes[depth].patches)]
  }

  lemma NewPatch(code: Memory, scopes: seq<Scope>, depth: nat, loc: Pc, op: Op)
    requires Patchable(code, scopes) && depth < |scopes| && loc !in code && Pending(op)
    ensures Patchable(code[loc := op], WithPatch(scopes, depth, loc)) &&
            ScopesGrew(code, scopes, WithPatch(scopes, depth, loc))
  {
    var after := WithPatch(scopes, depth, loc);
    forall j, l | 0 <= j < |after| && l in after[j].patches
      ensures (l == loc && j == depth) || (l in scopes[j].patches && l in code)
    {
    }
  }

  lemma ForwardGrows(o: Comp, depth: nat, op: Op)
    requires Built(o) && depth < |o.a.scopes| && Pending(op)
    ensures Built(EmitForward(o, depth, op)) && Grew(o, EmitForward(o, depth, op))
    ensures OneInRegister(o.a) ==> OneInRegister(EmitForward(o, depth, op).a)
  {
    hide Placed, Counted, Settled, OneInRegister, Patchable, ScopesGrew;
    var p := EmitForward(o, depth, op);
    EmitGrows(o, op);
    ScopesSound(o.a, p.a.scopes);
    NewPatch(o.code, o.a.scopes, depth, Here(o), op);
  }

  lemma MarkGrows(o: Comp)
    requires Built(o)
    ensures Built(o.(a := MarkPolymorphic(o.a))) && Grew(o, o.(a := MarkPolymorphic(o.a)))
    ensures Steady(MarkPolymorphic(o.a))
  {
    hide Valid, Settled, OneInRegister;
    ValidParts(o.a);
    ScopesSound(o.a, MarkPolymorphic(o.a).scopes);
  }

  lemma MovedKeeps(o: Comp, m: Out, moves: bool)
    requires Built(o) && if moves then MoveTopToRegister(o.a) == Some(m) else m == Out(o.a, [])
    ensures Sound(m.alloc) && Kept(o.a, m.alloc)
  {
    if moves {
      MoveKeeps(o.a);
    }
  }

  lemma BrGrows(o: Comp, depth: nat)
    requires Built(o) && CompileBr(o, depth).Some?
    ensures var p := CompileBr(o, depth).value;
            Built(p) && Grew(o, p) && Steady(p.a)
  {
    BuiltFormed(o);
    hide Sound, OneInRegister, Laid, Patchable, Grew, EmitAll, SamePages;
    var scope := o.a.scopes[depth];
    if scope.opcode == LoopBody {
      MarkGrows(o);
      var o1 := o.(a := MarkPolymorphic(o.a));
      EmitGrows(o1, ContinueLoop(scope.pc));
      GrewOn(o, o1, CompileBr(o, depth).value);
    } else {
      var m := if scope.typed && !Polymorphic(o.a) then MoveTopToRegister(o.a).value else Out(o.a, []);
      MovedKeeps(o, m, scope.typed && !Polymorphic(o.a));
      hide MoveTopToRegister;
      OutGrows(o, m);
      var o1 := EmitOut(o, m);
      MarkGrows(o1);
      var o2 := o1.(a := MarkPolymorphic(o1.a));
      ForwardGrows(o2, depth, Jump(Open));
      GrewOn(o, o1, o2);
      GrewOn(o, o2, CompileBr(o, depth).value);
      assert Steady(CompileBr(o, depth).value.a);
    }
  }

  lemma BrIfGrows(o: Comp, depth: nat)
    requires Built(o) && CompileBrIf(o, depth).Some?
    ensures var p := CompileBrIf(o, depth).value;
            Built(p) && Grew(o, p) && (Steady(o.a) ==> Steady(p.a)) && Polymorphic(p.a) == Polymorphic(o.a)
  {
    BuiltFormed(o);
    hide Valid, Settled, OneInRegister, Laid, Patchable, Grew;
    var scope := o.a.scopes[depth];
    if scope.opcode == LoopBody {
      MoveKeeps(o.a);
      var m := MoveTopToRegister(o.a).value;
      Pops(m.alloc);
      var b := PopTop(m.alloc).value;
      KeptOn(o.a, m.alloc, b);
      OutGrows(o, Out(b, m.ops));
      var o1 := EmitOut(o, Out(b, m.ops));
      EmitGrows(o1, ContinueLoopIf(scope.pc));
      GrewOn(o, o1, CompileBrIf(o, depth).value);
    } else {
      Pops(o.a);
      var b := PopTop(o.a).value;
      AllocGrows(o, b);
      var o1 := o.(a := b);
      ForwardGrows(o1, depth, BranchOperation(o.a, b, scope.typed));
      GrewOn(o, o1, CompileBrIf(o, depth).value);
    }
  }

  // ---------------------------------------------------------------------------------
  // Ifs.

  predicate Reserved(o: Comp, at: Pc) {
    at in o.code && Pending(o.code[at]) && forall j :: 0 <= j < |o.a.scopes| ==> at !in o.a.scopes[j].patches
  }

  lemma EnterIfGrows(o: Comp)
    requires Built(o) && EnterIf(o).Some?
    ensures var p := EnterIf(o).value;
            && Built(p) && Grew(o, p) && NoReferences(p.a) && p.a.regIndexPlusOne == 0
            && (OneInRegister(o.a) ==> OneInRegister(p.a))
            && Reserved(p, IfLine(p)) && IfLine(p) !in o.code
  {
    BuiltFormed(o);
    hide Sound, OneInRegister, Laid, Patchable, NoneBelow, Grew, IfOperation, PopTop, IfLine, Reserved;
    var m := PreserveNonTop(o.a).value;
    NonTopKeeps(o.a);
    OutGrows(o, m);
    LocalsKeep(m.alloc);
    var q := PreserveLocals(m.alloc).value;
    OutGrows(EmitOut(o, m), q);
    var o1 := EmitOut(EmitOut(o, m), q);
    GrewOn(o, EmitOut(o, m), o1);
    IfLineGrows(o, o1);
  }

  // The operation of an if, with its pointer, and its condition taken from the stack.
  lemma IfLineGrows(o: Comp, o1: Comp)
    requires Built(o1) && Grew(o, o1) && NoReferences(o1.a) && PopTop(o1.a).Some? && o1.page < |o1.used|
    requires o1.a.regIndexPlusOne == 0 || o1.a.regIndexPlusOne == |o1.a.stack|
    ensures var p := Emit(o1, IfOperation(o1.a)).(a := PopTop(o1.a).value);
            && p.page < |p.used| && Built(p) && Grew(o, p) && NoReferences(p.a) && p.a.regIndexPlusOne == 0
            && (OneInRegister(o1.a) ==> OneInRegister(p.a))
            && Reserved(p, IfLine(p)) && IfLine(p) !in o.code
  {
    hide Placed, Counted, Pooled, Bounded, Settled, OneInRegister, Patchable, NoneBelow, ScopesGrew;
    EmitGrows(o1, IfOperation(o1.a));
    var o2 := Emit(o1, IfOperation(o1.a));
    Pops(o1.a);
    PopReferences(o1.a);
    AllocGrows(o2, PopTop(o1.a).value);
    GrewOn(o, o1, o2);
    GrewOn(o, o2, o2.(a := PopTop(o1.a).value));
    assert IfLine(o2) == Here(o1);
    NewLineReserved(o1, IfOperation(o1.a));
    assert Contains(o.code, o1.code);
  }

  lemma NewLineReserved(o: Comp, op: Op)
    requires Built(o) && Pending(op)
    ensures Reserved(Emit(o, op), Here(o))
  {
    EmitGrows(o, op);
  }

  lemma PopReferences(a: Alloc)
    requires Sound(a) && PopTop(a).Some? && NoReferences(a) &&
             (a.regIndexPlusOne == 0 || a.regIndexPlusOne == |a.stack|)
    ensures NoReferences(PopTop(a).value) && PopTop(a).value.regIndexPlusOne == 0
  {
    Pops(a);
  }

  // The reserved pointer stays reserved while the block is compiled, and filling it in disturbs
  // nothing else.
  lemma ReservedStays(o: Comp, p: Comp, at: Pc)
    requires Reserved(o, at) && Grew(o, p)
    ensures Reserved(p, at)
  {
    forall j | 0 <= j < |p.a.scopes| ensures at !in p.a.scopes[j].patches {
      assert ScopeGrew(o.code, o.a.scopes[j], p.a.scopes[j]);
    }
  }

  lemma FillGrows(o: Comp, p: Comp, at: Pc, pc: Pc)
    requires Built(p) && Grew(o, p) && Reserved(p, at) && at !in o.code
    ensures Built(p.(code := Patch(p.code, at, pc))) && Grew(o, p.(code := Patch(p.code, at, pc)))
  {
    hide Sound, Kept;
  }

  lemma NewPageGrows(o: Comp, p: Comp)
    requires Built(p) && Grew(o, p)
    ensures Built(p.(used := p.used + [0], page := |p.used|)) && Grew(o, p.(used := p.used + [0], page := |p.used|))
  {
    hide Sound, Patchable;
  }

  // Before the other branch: the value of the first one is dropped.
  lemma ElseAlloc(a: Alloc, b: Alloc, typed: bool)
    requires Sound(a) && Sound(b) && NoReferences(a) && Kept(a, b.(scopes := a.scopes)) && |b.scopes| == |a.scopes|
    requires b.scopes[0].init == a.scopes[0].init
    requires BlockLeaves(a, b, typed, |a.stack|) && (typed && |b.stack| > |a.stack| ==> PopTop(b).Some?)
    requires a.regIndexPlusOne == 0
    ensures var c := if typed && |b.stack| > |a.stack| then PopTop(b).value else b;
            && Sound(c) && Kept(b, c) && NoReferences(c) && c.stack == a.stack
            && (OneInRegister(b) ==> OneInRegister(c)) && c.regIndexPlusOne == 0
  {
    hide Counted, Pooled, Bounded, Settled;
    var h := |a.stack|;
    assert b.stack[..h] == a.stack[..h] == a.stack;
    if typed && |b.stack| > h {
      Pops(b);
      assert b.scopes[0].init <= h && PopTop(b).value.stack == b.stack[..h];
    } else {
      assert b.stack[..h] == b.stack;
    }
    assert b.numLocals == a.numLocals;
  }

  // ---------------------------------------------------------------------------------
  // Whole pieces of code.

  // What compiling any code keeps.
  lemma {:induction false} CodeGrows(o: Comp, code: Code)
    requires Built(o) && Permits(o, code) && CompileCode(o, code).Some?
    ensures var p := CompileCode(o, code).value;
            && Built(p) && Grew(o, p) && p.page == o.page && (Steady(o.a) ==> Steady(p.a))
    decreases code, 0
  {
    hide Sound, OneInRegister, Laid, Patchable, Grew, PermitsInstr;
    BuiltFormed(o);
    match code
    case End => EmitAllGrows(o, []);
    case Then(head, rest) =>
      InstrGrows(o, head);
      var o1 := CompileInstr(o, head).value;
      CodeGrows(o1, rest);
      GrewOn(o, o1, CompileCode(o, code).value);
  }

  lemma {:induction false} BlockGrows(o: Comp, opcode: Opcode, typed: bool, body: Code)
    requires Built(o) && NoReferences(o.a) && o.a.regIndexPlusOne == 0 && CompileBlock(o, opcode, typed, body).Some?
    requires PermitsBlock(o, opcode, typed, body)
    ensures var q := CompileBlock(o, opcode, typed, body).value;
            && Built(q) && Grew(o, q) && q.page == o.page && BlockLeaves(o.a, q.a, typed, |o.a.stack|)
            && (Steady(o.a) ==> Steady(q.a)) && Polymorphic(q.a) == Polymorphic(o.a)
    decreases body, 1
  {
    BuiltFormed(o);
    hide Sound, OneInRegister, Laid, Patchable, NoneBelow, Grew, Permits, BlockLeaves;
    var e := EnterScope(o, opcode, typed);
    EnterBuilds(o, opcode, typed);
    CodeGrows(e, body);
    LeaveGrows(o, opcode, typed, CompileCode(e, body).value);
  }

  lemma YesParts(o: Comp, typed: bool, yes: Code, no: Option<Code>) returns (o1: Comp, o2: Comp)
    requires Formed(o) && CompileInstr(o, If(typed, yes, no)).Some?
    ensures Formed(o1) && Formed(o2) && o1.page < |o1.used| && o2.page < |o2.used| && o2.page == o1.page
    ensures EnterIf(o) == Some(o1) && CompileBlock(o1, IfBody, typed, yes) == Some(o2)
    ensures no.None? ==> CompileInstr(o, If(typed, yes, no)).value == o2.(code := Patch(o2.code, IfLine(o1), Here(o2)))
  {
    hide EnterIf, CompileBlock, EnterElse, LeaveElse, Patch;
    assert CompileInstr(o, If(typed, yes, no)) == CompileIf(o, typed, yes, no);
    o1 := EnterIf(o).value;
    o2 := CompileBlock(o1, IfBody, typed, yes).value;
  }

  lemma NoParts(o: Comp, typed: bool, yes: Code, other: Code, o1: Comp, o2: Comp) returns (o3: Comp, o4: Comp)
    requires Formed(o) && CompileInstr(o, If(typed, yes, Some(other))).Some?
    requires EnterIf(o) == Some(o1) && Formed(o1) && CompileBlock(o1, IfBody, typed, yes) == Some(o2) && Formed(o2)
    ensures Formed(o3) && Formed(o4) && o3.page < |o3.used| && o4.page < |o4.used| && o2.page < |o4.used|
    ensures EnterElse(o2, IfLine(o1), typed, |o1.a.stack|) == Some(o3) &&
            CompileBlock(o3, ElseBody, typed, other) == Some(o4)
    ensures CompileInstr(o, If(typed, yes, Some(other))).value == LeaveElse(o4, o2.page)
  {
    hide EnterIf, CompileBlock, EnterElse, LeaveElse, Patch;
    assert CompileInstr(o, If(typed, yes, Some(other))) == CompileIf(o, typed, yes, Some(other))
        == CompileElse(o2, IfLine(o1), typed, |o1.a.stack|, other);
    o3 := EnterElse(o2, IfLine(o1), typed, |o1.a.stack|).value;
    o4 := CompileBlock(o3, ElseBody, typed, other).value;
  }

  lemma {:induction false} IfGrows(o: Comp, typed: bool, yes: Code, no: Option<Code>)
    requires Built(o) && PermitsInstr(o, If(typed, yes, no)) && CompileInstr(o, If(typed, yes, no)).Some?
    ensures var p := CompileInstr(o, If(typed, yes, no)).value;
            && Built(p) && Grew(o, p) && (Steady(o.a) ==> Steady(p.a)) && |p.a.scopes| > 0 && |o.a.scopes| > 0
            && Polymorphic(p.a) == Polymorphic(o.a)
    decreases If(typed, yes, no), 0
  {
    hide *;
    BuiltFormed(o);
    var o1, o2 := YesParts(o, typed, yes, no);
    PermitsYes(o, typed, yes, no);
    var at := IfLine(o1);
    EnterIfGrows(o);
    EnterIfSteady(o, o1);
    BlockGrows(o1, IfBody, typed, yes);
    GrewOn(o, o1, o2);
    ReservedStays(o1, o2, at);
    match no {
      case None => FillGrows(o, o2, at, Here(o2));
      case Some(other) =>
        var o3, o4 := NoParts(o, typed, yes, other, o1, o2);
        ElseGrows(o, o1, o2, at, typed);
        PermitsNo(o, typed, yes, other, o1, o2, o3);
        BlockGrows(o3, ElseBody, typed, other);
        GrewOn(o, o3, o4);
        LeaveElseGrows(o, o4, o2.page);
    }
  }

  lemma PermitsYes(o: Comp, typed: bool, yes: Code, no: Option<Code>)
    requires Formed(o) && EnterIf(o).Some? && PermitsInstr(o, If(typed, yes, no))
    ensures PermitsBlock(EnterIf(o).value, IfBody, typed, yes)
  {
    hide Permits, PermitsBlock;
  }

  lemma PermitsNo(o: Comp, typed: bool, yes: Code, other: Code, o1: Comp, o2: Comp, o3: Comp)
    requires Formed(o) && PermitsInstr(o, If(typed, yes, Some(other))) && EnterIf(o) == Some(o1)
    requires CompileBlock(o1, IfBody, typed, yes) == Some(o2)
    requires EnterElse(o2, IfLine(o1), typed, |o1.a.stack|) == Some(o3)
    ensures PermitsBlock(o3, ElseBody, typed, other)
  {
    hide Permits, PermitsBlock, EnterIf, EnterElse, CompileBlock;
  }

  lemma EnterIfSteady(o: Comp, o1: Comp)
    requires Formed(o) && EnterIf(o) == Some(o1) && (OneInRegister(o.a) ==> OneInRegister(o1.a))
    ensures |o.a.scopes| > 0 && |o1.a.scopes| > 0 && Polymorphic(o1.a) == Polymorphic(o.a) &&
            (Steady(o.a) ==> Steady(o1.a))
  {
    hide OneInRegister, EnterIf;
  }

  // The compilation after the first block of an if, with the pointer to the other one filled in.
  function Filled(o: Comp, at: Pc): Comp {
    o.(code := Patch(o.code, at, Pc(|o.used|, 0)))
  }

  lemma ElseGrows(o: Comp, o1: Comp, o2: Comp, at: Pc, typed: bool)
    requires Built(o1) && Grew(o, o1) && NoReferences(o1.a) && o1.a.regIndexPlusOne == 0 && at !in o.code
    requires Built(o2) && Grew(o1, o2) && BlockLeaves(o1.a, o2.a, typed, |o1.a.stack|) && Reserved(o2, at)
    requires EnterElse(o2, at, typed, |o1.a.stack|).Some? && Polymorphic(o2.a) == Polymorphic(o1.a)
    ensures var o3 := EnterElse(o2, at, typed, |o1.a.stack|).value;
            && Built(o3) && Grew(o, o3) && NoReferences(o3.a) && o3.a.regIndexPlusOne == 0 && o3.a.stack == o1.a.stack
            && (Steady(o1.a) && Steady(o2.a) ==> Steady(o3.a)) && Polymorphic(o3.a) == Polymorphic(o1.a)
            && Built(Filled(o2, at)) && Grew(Filled(o2, at), o3)
  {
    hide Sound, OneInRegister, Laid, Patchable, NoneBelow, Reserved;
    BuiltFormed(o2);
    var o3, o4 := EnterElse(o2, at, typed, |o1.a.stack|).value, Filled(o2, at);
    assert ScopeGrew(o1.code, o1.a.scopes[0], o2.a.scopes[0]);
    ElseAlloc(o1.a, o2.a, typed);
    GrewOn(o, o1, o2);
    FillGrows(o, o2, at, Pc(|o2.used|, 0));
    AllocGrows(o4, o3.a);
    NewPageGrows(o4, o4.(a := o3.a));
    GrewOn(o, o4, o3);
  }

  lemma LeaveElseGrows(o: Comp, p: Comp, page: nat)
    requires Built(p) && Grew(o, p) && page < |p.used|
    ensures Built(LeaveElse(p, page)) && Grew(o, LeaveElse(p, page)) && LeaveElse(p, page).a == p.a
  {
    var q := Emit(p, Jump(To(Pc(page, p.used[page]))));
    EmitGrows(p, Jump(To(Pc(page, p.used[page]))));
    GrewOn(o, p, q);
  }

  lemma {:induction false} InstrGrows(o: Comp, i: Instr)
    requires Built(o) && PermitsInstr(o, i) && CompileInstr(o, i).Some?
    ensures var p := CompileInstr(o, i).value;
            && Built(p) && Grew(o, p) && p.page == o.page && (Steady(o.a) ==> Steady(p.a))
    ensures !i.Br? ==> Polymorphic(CompileInstr(o, i).value.a) == Polymorphic(o.a)
    decreases i, 1
  {
    BuiltFormed(o);
    hide Built, OneInRegister, Grew, PermitsInstr;
    match i
    case Basic(p) => BasicGrows(o, p);
    case Block(typed, body) => EnteredGrows(o, typed, body);
    case Loop(typed, body) => LoopGrows(o, typed, body);
    case If(typed, yes, no) => IfGrows(o, typed, yes, no);
    case Br(depth) => BrGrows(o, depth);
    case BrIf(depth) => BrIfGrows(o, depth);
  }

  lemma BasicGrows(o: Comp, p: Plain)
    requires Built(o) && Shields(o.a, p) && CompileInstr(o, Basic(p)).Some?
    ensures var q := CompileInstr(o, Basic(p)).value;
            && Built(q) && Grew(o, q) && q.page == o.page && (Steady(o.a) ==> Steady(q.a))
            && Polymorphic(q.a) == Polymorphic(o.a)
  {
    hide Valid, Settled, OneInRegister, Laid, Patchable, Grew;
    ValidParts(o.a);
    PlainKeeps(o.a, p);
    OutGrows(o, CompilePlain(o.a, p).value);
  }

  lemma {:induction false} EnteredGrows(o: Comp, typed: bool, body: Code)
    requires Built(o) && PermitsInstr(o, Block(typed, body)) && CompileInstr(o, Block(typed, body)).Some?
    ensures var p := CompileInstr(o, Block(typed, body)).value;
            && Built(p) && Grew(o, p) && p.page == o.page && (Steady(o.a) ==> Steady(p.a))
            && Polymorphic(p.a) == Polymorphic(o.a)
    decreases body, 2
  {
    BuiltFormed(o);
    hide Valid, Settled, OneInRegister, Laid, Patchable, NoneBelow, Grew, PermitsBlock;
    PrepareGrows(o);
    BlockGrows(Prepare(o).value, BlockOp, typed, body);
    GrewOn(o, Prepare(o).value, CompileInstr(o, Block(typed, body)).value);
  }

  lemma {:induction false} LoopGrows(o: Comp, typed: bool, body: Code)
    requires Built(o) && PermitsInstr(o, Loop(typed, body)) && CompileInstr(o, Loop(typed, body)).Some?
    ensures var p := CompileInstr(o, Loop(typed, body)).value;
            && Built(p) && Grew(o, p) && p.page == o.page && (Steady(o.a) ==> Steady(p.a))
            && Polymorphic(p.a) == Polymorphic(o.a)
    decreases body, 2
  {
    BuiltFormed(o);
    hide Valid, Settled, OneInRegister, Laid, Patchable, NoneBelow, Grew, PermitsBlock, PermitsElse;
    PrepareGrows(o);
    var o1 := Prepare(o).value;
    EmitGrows(o1, LoopOp);
    var o2 := Emit(o1, LoopOp);
    BlockGrows(o2, LoopBody, typed, body);
    GrewOn(o, o1, o2);
    GrewOn(o, o2, CompileInstr(o, Loop(typed, body)).value);
  }
}
