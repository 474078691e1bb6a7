// Validation of i32 code (chapter 3 and the appendix on validation of the WebAssembly Core
// Specification): every operand is an i32, so a type is a height.  Valid code never gets stuck.
module WasmValidation {
  import opened WasmSemantics
  import opened Wrappers

  // How many locals there are, which globals may be assigned, and for each label around the code
  // whether a branch to it carries a value.
  datatype Context = Context(locals: nat, mutables: seq<bool>, labels: seq<bool>)

  // Operands above the beginning of the block, and whether this point cannot be reached.
  datatype Check = Check(height: nat, unreachable: bool)

  function Arity(typed: bool): nat {
    if typed then 1 else 0
  }

  function Within(ctx: Context, carries: bool): Context {
    ctx.(labels := [carries] + ctx.labels)
  }

  function Takes(p: Plain): nat {
    match p
    case Const(_) | LocalGet(_) | GlobalGet(_) => 0
    case LocalSet(_) | LocalTee(_) | GlobalSet(_) | Drop | Unop(_) | LoadOp(_, _) => 1
    case Binop(_) | StoreOp(_, _) => 2
    case Select => 3
  }

  function Gives(p: Plain): nat {
    match p
    case LocalSet(_) | GlobalSet(_) | Drop | StoreOp(_, _) => 0
    case _ => 1
  }

  predicate Named(ctx: Context, p: Plain) {
    match p
    case LocalGet(i) => i < ctx.locals
    case LocalSet(i) => i < ctx.locals
    case LocalTee(i) => i < ctx.locals
    case GlobalGet(g) => g < |ctx.mutables|
    case GlobalSet(g) => g < |ctx.mutables| && ctx.mutables[g]
    case _ => true
  }

  function Taken(c: Check, n: nat): Option<Check> {
    if n <= c.height then Some(c.(height := c.height - n))
    else if c.unreachable then Some(c.(height := 0)) else None
  }

  predicate Ends(c: Check, typed: bool) {
    c.height == Arity(typed) || (c.unreachable && c.height == 0)
  }

  function CheckCode(ctx: Context, code: Code, c: Check): Option<Check>
    decreases code, 0
  {
    match code
    case End => Some(c)
    case Then(head, rest) =>
      var c1 :- CheckInstr(ctx, head, c);
      CheckCode(ctx, rest, c1)
  }

  predicate ValidBlock(ctx: Context, carries: bool, typed: bool, body: Code)
    decreases body, 1
  {
    var r := CheckCode(Within(ctx, carries), body, Check(0, false));
    r.Some? && Ends(r.value, typed)
  }

  function CheckInstr(ctx: Context, i: Instr, c: Check): Option<Check>
    decreases i, 0
  {
    match i
    case Basic(p) =>
      var d :- Taken(c, Takes(p));
      if Named(ctx, p) then Some(d.(height := d.height + Gives(p))) else None
    case Block(typed, body) =>
      if ValidBlock(ctx, typed, typed, body) then Some(c.(height := c.height + Arity(typed))) else None
    case Loop(typed, body) =>
      if ValidBlock(ctx, false, typed, body) then Some(c.(height := c.height + Arity(typed))) else None
    case If(typed, yes, no) =>
      var d :- Taken(c, 1);
      if ValidBlock(ctx, typed, typed, yes) && (if no.Some? then ValidBlock(ctx, typed, typed, no.value) else !typed)
      then Some(d.(height := d.height + Arity(typed))) else None
    case Br(depth) =>
      if depth < |ctx.labels| && Taken(c, Arity(ctx.labels[depth])).Some? then Some(Check(0, true)) else None
    case BrIf(depth) =>
      var d :- Taken(c, 1);
      if depth < |ctx.labels| && Taken(d, Arity(ctx.labels[depth])).Some? then Some(d) else None
  }

  // ---------------------------------------------------------------------------------
  // Soundness.

  // The world has the shape the check supposes, with `base` operands below the block.
  predicate Fitting(ctx: Context, c: Check, base: nat, w: World) {
    !c.unreachable && |w.locals| == ctx.locals && |w.globals| == |ctx.mutables| && |w.stack| == base + c.height
  }

  // What the outcome of valid code can be.
  predicate Safe(ctx: Context, c1: Check, base: nat, r: Outcome) {
    match r
    case Normal(w) => Fitting(ctx, c1, base, w)
    case Branch(d, w) =>
      && d < |ctx.labels| && |w.locals| == ctx.locals && |w.globals| == |ctx.mutables|
      && |w.stack| >= base + Arity(ctx.labels[d])
    case Stuck => false
    case _ => true
  }

  lemma PlainSafe(ctx: Context, p: Plain, c: Check, base: nat, w: World)
    requires Fitting(ctx, c, base, w) && CheckInstr(ctx, Basic(p), c).Some?
    ensures Safe(ctx, CheckInstr(ctx, Basic(p), c).value, base, RunPlain(p, w))
  {
    match p
    case Binop(op) =>
    case LoadOp(kind, offset) =>
    case StoreOp(kind, offset) =>
    case _ =>
  }

  // Running valid code is never stuck, and leaves the stack as high as the check says.
  lemma {:induction false} CodeSafe(ctx: Context, code: Code, c: Check, base: nat, w: World, fuel: nat)
    requires Fitting(ctx, c, base, w) && CheckCode(ctx, code, c).Some?
    ensures Safe(ctx, CheckCode(ctx, code, c).value, base, RunCode(code, w, fuel))
    decreases fuel, code, 0
  {
    match code
    case End =>
    case Then(head, rest) =>
      InstrSafe(ctx, head, c, base, w, fuel);
      match RunInstr(head, w, fuel) {
        case Normal(w1) => CodeSafe(ctx, rest, CheckInstr(ctx, head, c).value, base, w1, fuel);
        case _ =>
      }
  }

  lemma {:induction false} BlockSafe(ctx: Context, typed: bool, body: Code, c: Check, base: nat, w: World, fuel: nat)
    requires Fitting(ctx, c, base, w) && ValidBlock(ctx, typed, typed, body)
    ensures Safe(ctx, c.(height := c.height + Arity(typed)), base, LeaveBlock(RunCode(body, w, fuel), |w.stack|, typed))
    decreases fuel, body, 1
  {
    CodeSafe(Within(ctx, typed), body, Check(0, false), |w.stack|, w, fuel);
  }

  lemma {:induction false} LoopSafe(ctx: Context, typed: bool, body: Code, c: Check, base: nat, w: World, fuel: nat)
    requires Fitting(ctx, c, base, w) && ValidBlock(ctx, false, typed, body)
    ensures Safe(ctx, c.(height := c.height + Arity(typed)), base, RunLoop(typed, body, w, fuel))
    decreases fuel, body, 1
  {
    CodeSafe(Within(ctx, false), body, Check(0, false), |w.stack|, w, fuel);
    match RunCode(body, w, fuel)
    case Branch(depth, w1) =>
      if depth == 0 && fuel > 0 {
        LoopSafe(ctx, typed, body, c, base, w1.(stack := w1.stack[..|w.stack|]), fuel - 1);
      }
    case _ =>
  }

  lemma {:induction false} InstrSafe(ctx: Context, i: Instr, c: Check, base: nat, w: World, fuel: nat)
    requires Fitting(ctx, c, base, w) && CheckInstr(ctx, i, c).Some?
    ensures Safe(ctx, CheckInstr(ctx, i, c).value, base, RunInstr(i, w, fuel))
    decreases fuel, i, 0
  {
    match i
    case Basic(p) => PlainSafe(ctx, p, c, base, w);
    case Block(typed, body) => BlockSafe(ctx, typed, body, c, base, w, fuel);
    case Loop(typed, body) => LoopSafe(ctx, typed, body, c, base, w, fuel);
    case If(typed, yes, no) =>
      var d, w1 := Taken(c, 1).value, Pop(w, 1);
      if Operand(w, 0) != 0 {
        BlockSafe(ctx, typed, yes, d, base, w1, fuel);
      } else if no.Some? {
        BlockSafe(ctx, typed, no.value, d, base, w1, fuel);
      }
    case Br(depth) =>
    case BrIf(depth) =>
  }
}
