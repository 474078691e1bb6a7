// What i32 functions mean: a big-step semantics of structured WebAssembly code (section 4.4 of
// the WebAssembly Core Specification).  Fuel is spent only where a branch goes back to a loop, so
// a run that lacks fuel is one that may go round for ever.
module WasmSemantics {
  import opened WasmValues
  import opened Wrappers

  datatype Plain =
    | Const(value: Word)
    | LocalGet(index: nat) | LocalSet(index: nat) | LocalTee(index: nat)
    | GlobalGet(index: nat) | GlobalSet(index: nat)
    | Drop | Select
    | Unop(unary: Unary) | Binop(binary: Binary)
    | LoadOp(load: Load, offset: Word) | StoreOp(store: Store, offset: Word)

  datatype Instr =
    | Basic(plain: Plain)
    | Block(typed: bool, body: Code)
    | Loop(typed: bool, body: Code)
    | If(typed: bool, yes: Code, no: Option<Code>)
    | Br(depth: nat)
    | BrIf(depth: nat)

  datatype Code = End | Then(head: Instr, rest: Code)

  datatype World = World(locals: seq<Word>, stack: seq<Word>, globals: seq<Word>, mem: seq<Octet>)

  // What a piece of code comes to.  Stuck is what validation rules out.
  datatype Outcome =
    | Normal(world: World)
    | Branch(depth: nat, world: World)
    | Trapping(trap: Trap, world: World)
    | OutOfFuel
    | Stuck

  // ---------------------------------------------------------------------------------
  // The operand stack.

  function Push(w: World, v: Word): World {
    w.(stack := w.stack + [v])
  }

  function Pop(w: World, n: nat): World
    requires n <= |w.stack|
  {
    w.(stack := w.stack[..|w.stack| - n])
  }

  // The operand n places below the top.
  function Operand(w: World, n: nat): Word
    requires n < |w.stack|
  {
    w.stack[|w.stack| - 1 - n]
  }

  // The world that leaving a block of the given height and type leaves.
  function Exit(w: World, height: nat, typed: bool): World
    requires height + (if typed then 1 else 0) <= |w.stack|
  {
    w.(stack := w.stack[..height] + (if typed then [Operand(w, 0)] else []))
  }

  // ---------------------------------------------------------------------------------
  // Instructions without control flow.

  function Complete(w: World, c: Computed): Outcome {
    match c
    case Value(v) => Normal(Push(w, v))
    case Trapped(t) => Trapping(t, w)
  }

  predicate Ready(p: Plain, w: World) {
    match p
    case Const(_) => true
    case LocalGet(i) => i < |w.locals|
    case LocalSet(i) => i < |w.locals| && |w.stack| >= 1
    case LocalTee(i) => i < |w.locals| && |w.stack| >= 1
    case GlobalGet(i) => i < |w.globals|
    case GlobalSet(i) => i < |w.globals| && |w.stack| >= 1
    case Drop => |w.stack| >= 1
    case Select => |w.stack| >= 3
    case Unop(_) => |w.stack| >= 1
    case Binop(_) => |w.stack| >= 2
    case LoadOp(_, _) => |w.stack| >= 1
    case StoreOp(_, _) => |w.stack| >= 2
  }

  function RunPlain(p: Plain, w: World): Outcome {
    if !Ready(p, w) then Stuck else
    match p
    case Const(v) => Normal(Push(w, v))
    case LocalGet(i) => Normal(Push(w, w.locals[i]))
    case LocalSet(i) => Normal(Pop(w, 1).(locals := w.locals[i := Operand(w, 0)]))
    case LocalTee(i) => Normal(w.(locals := w.locals[i := Operand(w, 0)]))
    case GlobalGet(i) => Normal(Push(w, w.globals[i]))
    case GlobalSet(i) => Normal(Pop(w, 1).(globals := w.globals[i := Operand(w, 0)]))
    case Drop => Normal(Pop(w, 1))
    case Select => Normal(Push(Pop(w, 3), if Operand(w, 0) != 0 then Operand(w, 2) else Operand(w, 1)))
    case Unop(op) => Normal(Push(Pop(w, 1), ApplyUnary(op, Operand(w, 0))))
    case Binop(op) => Complete(Pop(w, 2), ApplyBinary(op, Operand(w, 1), Operand(w, 0)))
    case LoadOp(kind, offset) => Complete(Pop(w, 1), LoadFrom(kind, w.mem, Operand(w, 0), offset))
    case StoreOp(kind, offset) =>
      match StoreTo(kind, w.mem, Operand(w, 1), offset, Operand(w, 0))
      case Memory(mem) => Normal(Pop(w, 2).(mem := mem))
      case Refused(t) => Trapping(t, Pop(w, 2))
  }

  // ---------------------------------------------------------------------------------
  // Structured control.

  // What a block of the given height and type makes of its body's outcome.
  function LeaveBlock(r: Outcome, height: nat, typed: bool): Outcome {
    var arity := if typed then 1 else 0;
    match r
    case Normal(w) => if |w.stack| == height + arity then r else Stuck
    case Branch(depth, w) =>
      if depth > 0 then Branch(depth - 1, w)
      else if |w.stack| >= height + arity then Normal(Exit(w, height, typed)) else Stuck
    case _ => r
  }

  function RunCode(code: Code, w: World, fuel: nat): Outcome
    decreases fuel, code, 0
  {
    match code
    case End => Normal(w)
    case Then(head, rest) =>
      match RunInstr(head, w, fuel)
      case Normal(w1) => RunCode(rest, w1, fuel)
      case r => r
  }

  function RunInstr(i: Instr, w: World, fuel: nat): Outcome
    decreases fuel, i, 0
  {
    match i
    case Basic(p) => RunPlain(p, w)
    case Block(typed, body) => LeaveBlock(RunCode(body, w, fuel), |w.stack|, typed)
    case Loop(typed, body) => RunLoop(typed, body, w, fuel)
    case If(typed, yes, no) =>
      if |w.stack| == 0 then Stuck
      else
        var w1 := Pop(w, 1);
        if Operand(w, 0) != 0 then LeaveBlock(RunCode(yes, w1, fuel), |w1.stack|, typed)
        else (match no
              case Some(code) => LeaveBlock(RunCode(code, w1, fuel), |w1.stack|, typed)
              case None => if typed then Stuck else Normal(w1))
    case Br(depth) => Branch(depth, w)
    case BrIf(depth) =>
      if |w.stack| == 0 then Stuck
      else if Operand(w, 0) != 0 then Branch(depth, Pop(w, 1)) else Normal(Pop(w, 1))
  }

  function RunLoop(typed: bool, body: Code, w: World, fuel: nat): Outcome
    decreases fuel, body, 1
  {
    match RunCode(body, w, fuel)
    case Branch(depth, w1) =>
      if depth > 0 then Branch(depth - 1, w1)
      else if |w1.stack| < |w.stack| then Stuck
      else if fuel == 0 then OutOfFuel
      else RunLoop(typed, body, w1.(stack := w1.stack[..|w.stack|]), fuel - 1)
    case r => LeaveBlock(r, |w.stack|, typed)
  }
}
