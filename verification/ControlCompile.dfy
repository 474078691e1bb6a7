// Compiling structured control: blocks, loops, ifs and branches, with forward branches patched at
// the end of their block (kernel/wasm3/source/m3_compile.c:389-426, 542-552, 683-735, 896-912,
// 1171-1257, 1525-1635, 2164-2264; m3_emit.c:40-70).
// A page is one unbounded tape here.
module ControlCompile {
  import opened WasmSemantics
  import opened Wrappers
  import opened ThreadedMachine
  import opened SlotAllocator
  import opened PlainCompile

  // The allocation, the lines emitted so far, how many there are on each page, and the page that
  // is emitted to.
  datatype Comp = Comp(a: Alloc, code: Memory, used: seq<nat>, page: nat)

  predicate Formed(o: Comp) {
    Shaped(o.a) && o.page < |o.used|
  }

  // Only the current page and new ones are emitted to.
  predicate SamePages(o: Comp, p: Comp) {
    p.page == o.page && |o.used| <= |p.used| && forall k :: 0 <= k < |o.used| && k != o.page ==> p.used[k] == o.used[k]
  }

  // The address of the next line.
  function Here(o: Comp): Pc
    requires o.page < |o.used|
  {
    Pc(o.page, o.used[o.page])
  }

  function Emit(o: Comp, op: Op): (r: Comp)
    requires o.page < |o.used|
    ensures SamePages(o, r) && |r.used| == |o.used| && r.a == o.a
  {
    o.(code := o.code[Here(o) := op], used := o.used[o.page := o.used[o.page] + 1])
  }

  function EmitAll(o: Comp, ops: seq<Straight>): (r: Comp)
    requires o.page < |o.used|
    ensures SamePages(o, r) && |r.used| == |o.used| && r.a == o.a
    decreases |ops|
  {
    if ops == [] then o else EmitAll(Emit(o, Do(ops[0])), ops[1..])
  }

  function EmitOut(o: Comp, out: Out): (r: Comp)
    requires o.page < |o.used|
    ensures SamePages(o, r) && |r.used| == |o.used| && r.a == out.alloc
  {
    EmitAll(o.(a := out.alloc), out.ops)
  }

  // ---------------------------------------------------------------------------------
  // Pointers filled in later.

  predicate HasTarget(op: Op) {
    op.Jump? || op.BranchIfR? || op.BranchIfS? || op.BranchIfRS? || op.BranchIfSS? || op.IfR? || op.IfS?
  }

  function TargetOf(op: Op): Target
    requires HasTarget(op)
  {
    match op
    case Jump(t) => t
    case BranchIfR(t) => t
    case BranchIfS(_, t) => t
    case BranchIfRS(_, t) => t
    case BranchIfSS(_, _, t) => t
    case IfR(t) => t
    case IfS(_, t) => t
  }

  function Retarget(op: Op, t: Target): Op {
    match op
    case Jump(_) => Jump(t)
    case BranchIfR(_) => BranchIfR(t)
    case BranchIfS(c, _) => BranchIfS(c, t)
    case BranchIfRS(v, _) => BranchIfRS(v, t)
    case BranchIfSS(c, v, _) => BranchIfSS(c, v, t)
    case IfR(_) => IfR(t)
    case IfS(c, _) => IfS(c, t)
    case _ => op
  }

  predicate Pending(op: Op) {
    HasTarget(op) && TargetOf(op) == Open
  }

  function Patch(code: Memory, loc: Pc, pc: Pc): Memory {
    if loc in code then code[loc := Retarget(code[loc], To(pc))] else code
  }

  function PatchAll(code: Memory, locs: seq<Pc>, pc: Pc): Memory
    decreases |locs|
  {
    if locs == [] then code else PatchAll(Patch(code, locs[0], pc), locs[1..], pc)
  }

  // ---------------------------------------------------------------------------------
  // Operands on the way into and out of blocks.

  function UnwindTo(a: Alloc, height: nat): (r: Option<Alloc>)
    requires |a.scopes| > 0
    ensures r.Some? ==> SameShape(a, r.value)
    decreases |a.stack|
  {
    if |a.stack| <= height then Some(a)
    else
      var b :- PopTop(a);
      if |b.stack| < |a.stack| then UnwindTo(b, height) else None
  }

  function MoveTopToRegister(a: Alloc): (r: Option<Out>)
    requires Shaped(a)
    ensures r.Some? ==> SameShape(a, r.value.alloc)
  {
    if InRegister(a, 0) then Some(Out(a, []))
    else
      var p :- PreserveRegister(a);
      var b :- PopTop(p.alloc);
      PushResult(Out(b, p.ops), SetRegister(TopSlot(p.alloc)))
  }

  function PreserveNonTop(a: Alloc): (r: Option<Out>)
    requires Shaped(a)
    ensures r.Some? ==> SameShape(a, r.value.alloc)
  {
    if |a.stack| > 0 && a.regIndexPlusOne != |a.stack| then PreserveRegister(a) else Some(Out(a, []))
  }

  // Gives the operands that refer to locals slots of their own.  The index of a local is taken for
  // its slot.
  function PreserveLocalsFrom(a: Alloc, i: nat): (r: Option<Out>)
    requires Shaped(a)
    ensures r.Some? ==> SameShape(a, r.value.alloc)
    decreases a.numLocals - i
  {
    if i >= a.numLocals then Some(Out(a, []))
    else
      var f :- FindReferenced(a, i);
      var rest :- PreserveLocalsFrom(f.alloc, i + 1);
      Some(Out(rest.alloc, (if f.slot != i then [CopySlot(f.slot, i)] else []) + rest.ops))
  }

  function PreserveLocals(a: Alloc): (r: Option<Out>)
    requires Shaped(a)
    ensures r.Some? ==> SameShape(a, r.value.alloc)
  {
    if |a.stack| > a.numLocals then PreserveLocalsFrom(a, 0) else Some(Out(a, []))
  }

  // Before a block or a loop.
  function Prepare(o: Comp): (r: Option<Comp>)
    requires Formed(o)
    ensures r.Some? ==> Formed(r.value) && SameShape(o.a, r.value.a) && SamePages(o, r.value)
  {
    var p :- PreserveRegister(o.a);
    var q :- PreserveLocals(p.alloc);
    Some(EmitOut(EmitOut(o, p), q))
  }

  function EnterScope(o: Comp, opcode: Opcode, typed: bool): (r: Comp)
    requires Formed(o)
    ensures Formed(r) && r.a.scopes[1..] == o.a.scopes && SamePages(o, r)
  {
    o.(a := o.a.(scopes := [Scope(opcode, typed, |o.a.stack|, Polymorphic(o.a), Here(o), [])] + o.a.scopes))
  }

  // Leaves the value of the block, if it has one, in the register.
  function ValidateEnd(a: Alloc): (r: Option<Out>)
    requires Shaped(a)
    ensures r.Some? ==> SameShape(a, r.value.alloc)
  {
    var init := a.scopes[0].init;
    if !a.scopes[0].typed then
      var b :- UnwindTo(a, init);
      Some(Out(b, []))
    else if Polymorphic(a) then
      var b :- UnwindTo(a, init);
      var c :- PushAt(b, REG0);
      Some(Out(c, []))
    else if |a.stack| == init then Some(Out(a, []))
    else if |a.stack| == init + 1 then MoveTopToRegister(a)
    else None
  }

  // The end of a block: branches to it go here.
  function LeaveScope(o: Comp): (r: Option<Comp>)
    requires Formed(o) && |o.a.scopes| > 1
    ensures r.Some? ==> Formed(r.value) && r.value.a.scopes == o.a.scopes[1..] && SamePages(o, r.value)
  {
    var v :- ValidateEnd(o.a);
    var o1 := EmitOut(o, v);
    Some(o1.(code := PatchAll(o1.code, o1.a.scopes[0].patches, Here(o1)), a := o1.a.(scopes := o1.a.scopes[1..])))
  }

  // ---------------------------------------------------------------------------------
  // Branches.

  function MarkPolymorphic(a: Alloc): Alloc
    requires |a.scopes| > 0
  {
    a.(scopes := a.scopes[0 := a.scopes[0].(polymorphic := true)])
  }

  // Emits a branch whose target is the end of the scope at the given depth.
  function EmitForward(o: Comp, depth: nat, op: Op): (r: Comp)
    requires Formed(o) && depth < |o.a.scopes|
    ensures Formed(r) && |r.a.scopes| == |o.a.scopes| && SamePages(o, r)
  {
    var scope := o.a.scopes[depth];
    Emit(o.(a := o.a.(scopes := o.a.scopes[depth := scope.(patches := [Here(o)] + scope.patches)])), op)
  }

  function CompileBr(o: Comp, depth: nat): (r: Option<Comp>)
    requires Formed(o)
    ensures r.Some? ==> Formed(r.value) && |r.value.a.scopes| == |o.a.scopes| && SamePages(o, r.value)
  {
    if depth >= |o.a.scopes| then None
    else
      var scope := o.a.scopes[depth];
      if scope.opcode == LoopBody then
        Some(Emit(o.(a := MarkPolymorphic(o.a)), ContinueLoop(scope.pc)))
      else
        var m :- if scope.typed && !Polymorphic(o.a) then MoveTopToRegister(o.a) else Some(Out(o.a, []));
        var o1 := EmitOut(o, m);
        Some(EmitForward(o1.(a := MarkPolymorphic(o1.a)), depth, Jump(Open)))
  }

  // A value in a slot is copied to the register by the branch itself.
  function BranchOperation(a: Alloc, b: Alloc, typed: bool): Op {
    if typed && !InRegister(b, 0) then
      if InRegister(a, 0) then BranchIfRS(TopSlot(b), Open) else BranchIfSS(TopSlot(a), TopSlot(b), Open)
    else
      if InRegister(a, 0) then BranchIfR(Open) else BranchIfS(TopSlot(a), Open)
  }

  function CompileBrIf(o: Comp, depth: nat): (r: Option<Comp>)
    requires Formed(o)
    ensures r.Some? ==> Formed(r.value) && |r.value.a.scopes| == |o.a.scopes| && SamePages(o, r.value)
  {
    if depth >= |o.a.scopes| then None
    else
      var scope := o.a.scopes[depth];
      if scope.opcode == LoopBody then
        var m :- MoveTopToRegister(o.a);
        var b :- PopTop(m.alloc);
        Some(Emit(EmitOut(o, Out(b, m.ops)), ContinueLoopIf(scope.pc)))
      else
        var b :- PopTop(o.a);
        Some(EmitForward(o.(a := b), depth, BranchOperation(o.a, b, scope.typed)))
  }

  // ---------------------------------------------------------------------------------
  // Structured code.

  function IfOperation(a: Alloc): Op {
    if InRegister(a, 0) then IfR(Open) else IfS(TopSlot(a), Open)
  }

  // Up to the reserved pointer to the other branch.
  function EnterIf(o: Comp): (r: Option<Comp>)
    requires Formed(o)
    ensures r.Some? ==> Formed(r.value) && r.value.a.scopes == o.a.scopes && SamePages(o, r.value)
  {
    var p :- PreserveNonTop(o.a);
    var q :- PreserveLocals(p.alloc);
    var b :- PopTop(q.alloc);
    var o1 := EmitOut(EmitOut(o, p), q);
    Some(Emit(o1, IfOperation(q.alloc)).(a := b))
  }

  // The line of the operation that EnterIf emitted last.
  function IfLine(o: Comp): Pc
    requires o.page < |o.used|
  {
    Pc(o.page, if o.used[o.page] > 0 then o.used[o.page] - 1 else 0)
  }

  // The other branch is emitted to a page of its own, and comes back to where the first one ends.
  function EnterElse(o: Comp, at: Pc, typed: bool, height: nat): (r: Option<Comp>)
    requires Formed(o)
    ensures r.Some? ==>
              Formed(r.value) && r.value.a.scopes == o.a.scopes && r.value.used == o.used + [0] &&
              r.value.page == |o.used|
  {
    var b :- if typed && |o.a.stack| > height then PopTop(o.a) else Some(o.a);
    Some(Comp(b, Patch(o.code, at, Pc(|o.used|, 0)), o.used + [0], |o.used|))
  }

  function LeaveElse(o: Comp, page: nat): (r: Comp)
    requires Formed(o) && page < |o.used|
    ensures Formed(r) && r.a == o.a && r.page == page
  {
    Emit(o, Jump(To(Pc(page, o.used[page])))).(page := page)
  }

  function CompileCode(o: Comp, code: Code): (r: Option<Comp>)
    requires Formed(o)
    ensures r.Some? ==> Formed(r.value) && |r.value.a.scopes| == |o.a.scopes| && SamePages(o, r.value)
    decreases code, 0
  {
    match code
    case End => Some(o)
    case Then(head, rest) =>
      var o1 :- CompileInstr(o, head);
      CompileCode(o1, rest)
  }

  function CompileBlock(o: Comp, opcode: Opcode, typed: bool, body: Code): (r: Option<Comp>)
    requires Formed(o)
    ensures r.Some? ==> Formed(r.value) && |r.value.a.scopes| == |o.a.scopes| && SamePages(o, r.value)
    decreases body, 1
  {
    var o1 :- CompileCode(EnterScope(o, opcode, typed), body);
    LeaveScope(o1)
  }

  function CompileIf(o: Comp, typed: bool, yes: Code, no: Option<Code>): (r: Option<Comp>)
    requires Formed(o)
    ensures r.Some? ==> Formed(r.value) && |r.value.a.scopes| == |o.a.scopes| && SamePages(o, r.value)
    decreases If(typed, yes, no), 0
  {
    var o1 :- EnterIf(o);
    var o2 :- CompileBlock(o1, IfBody, typed, yes);
    match no
    case None => Some(o2.(code := Patch(o2.code, IfLine(o1), Here(o2))))
    case Some(other) => CompileElse(o2, IfLine(o1), typed, |o1.a.stack|, other)
  }

  function CompileElse(o: Comp, at: Pc, typed: bool, height: nat, other: Code): (r: Option<Comp>)
    requires Formed(o)
    ensures r.Some? ==> Formed(r.value) && |r.value.a.scopes| == |o.a.scopes| && SamePages(o, r.value)
    decreases other, 2
  {
    var o1 :- EnterElse(o, at, typed, height);
    var o2 :- CompileBlock(o1, ElseBody, typed, other);
    Some(LeaveElse(o2, o.page))
  }

  function CompileInstr(o: Comp, i: Instr): (r: Option<Comp>)
    requires Formed(o)
    ensures r.Some? ==> Formed(r.value) && |r.value.a.scopes| == |o.a.scopes| && SamePages(o, r.value)
    decreases i, 1
  {
    match i
    case Basic(p) =>
      var out :- CompilePlain(o.a, p);
      Some(EmitOut(o, out))
    case Block(typed, body) =>
      var o1 :- Prepare(o);
      CompileBlock(o1, BlockOp, typed, body)
    case Loop(typed, body) =>
      var o1 :- Prepare(o);
      CompileBlock(Emit(o1, LoopOp), LoopBody, typed, body)
    case If(typed, yes, no) => CompileIf(o, typed, yes, no)
    case Br(depth) => CompileBr(o, depth)
    case BrIf(depth) => CompileBrIf(o, depth)
  }
}
