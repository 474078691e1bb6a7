// The machine that compiled code runs on: a frame of 32-bit slots, the register r0, and code
// lines that each hold an operation with its immediates
// (kernel/wasm3/source/m3_exec.h:31-70, 425-620, 720-880; m3_exec.c:28-61, 190-370).
// A loop is a native call: op_Loop runs what follows it and runs it again as long as that
// returns its own address.
module ThreadedMachine {
  import opened WasmValues

  const MAX_FUNCTION_SLOTS := 4000

  datatype Pc = Pc(page: nat, line: nat)

  // A pointer still to be filled in, or filled in.
  datatype Target = Open | To(pc: Pc)

  // Immediates are in the order in which they are emitted.  In the names R is the register and S
  // a slot, the top of the stack first.  NoOperation is a null pointer in place of an operation.
  datatype Straight =
    | Const32(value: Word, dst: nat)
    | CopySlot(dst: nat, src: nat) | SetSlot(dst: nat) | SetRegister(src: nat)
    | PreserveCopySlot(dst: nat, src: nat, preserve: nat) | PreserveSetSlot(dst: nat, preserve: nat)
    | GetGlobal(global: nat, dst: nat) | SetGlobalR(global: nat) | SetGlobalS(global: nat, src: nat)
    | UnaryR(unary: Unary) | UnaryS(unary: Unary, src: nat)
    | BinaryRS(binary: Binary, src: nat) | BinarySR(binary: Binary, src: nat)
    | BinarySS(binary: Binary, src: nat, src1: nat)
    | SelectRSS(src: nat, src1: nat) | SelectSRS(src: nat, src1: nat) | SelectSSR(src: nat, src1: nat)
    | SelectSSS(src: nat, src1: nat, src2: nat)
    | LoadR(load: Load, offset: Word) | LoadS(load: Load, src: nat, offset: Word)
    | StoreRS(store: Store, src: nat, offset: Word) | StoreSR(store: Store, src: nat, offset: Word)
    | StoreSS(store: Store, src: nat, src1: nat, offset: Word)
    | NoOperation

  datatype Op =
    | Do(straight: Straight)
    | Jump(target: Target)
    | BranchIfR(target: Target) | BranchIfS(condition: nat, target: Target)
    | BranchIfRS(src: nat, target: Target) | BranchIfSS(condition: nat, src: nat, target: Target)
    | IfR(target: Target) | IfS(condition: nat, target: Target)
    | LoopOp | ContinueLoop(loopId: Pc) | ContinueLoopIf(loopId: Pc)
    | Return

  // r0 is the 64-bit register, of which i32 code reads the low half.
  datatype State = State(slots: seq<Word>, r0: int, globals: seq<Word>, mem: seq<Octet>)

  datatype Stepped = Next(state: State) | Fault(trap: Trap, at: State) | Broken

  predicate Slot(s: State, slot: nat) {
    slot < |s.slots|
  }

  function SetR0(s: State, signed: bool, v: Word): State {
    s.(r0 := if signed then Signed(v) else v)
  }

  function Put(s: State, slot: nat, v: Word): State
    requires Slot(s, slot)
  {
    s.(slots := s.slots[slot := v])
  }

  function Register(s: State): Word {
    Wrap(s.r0)
  }

  function Result(s: State, signed: bool, c: Computed): Stepped {
    match c
    case Value(v) => Next(SetR0(s, signed, v))
    case Trapped(t) => Fault(t, s)
  }

  function StoreResult(s: State, r: Stored): Stepped {
    match r
    case Memory(mem) => Next(s.(mem := mem))
    case Refused(t) => Fault(t, s)
  }

  // Every slot and global an operation names is there.
  predicate Legal(op: Straight, s: State) {
    match op
    case Const32(_, dst) => Slot(s, dst)
    case CopySlot(dst, src) => Slot(s, dst) && Slot(s, src)
    case SetSlot(dst) => Slot(s, dst)
    case SetRegister(src) => Slot(s, src)
    case PreserveCopySlot(dst, src, preserve) => Slot(s, dst) && Slot(s, src) && Slot(s, preserve)
    case PreserveSetSlot(dst, preserve) => Slot(s, dst) && Slot(s, preserve)
    case GetGlobal(g, dst) => g < |s.globals| && Slot(s, dst)
    case SetGlobalR(g) => g < |s.globals|
    case SetGlobalS(g, src) => g < |s.globals| && Slot(s, src)
    case UnaryR(_) => true
    case UnaryS(_, src) => Slot(s, src)
    case BinaryRS(_, src) => Slot(s, src)
    case BinarySR(_, src) => Slot(s, src)
    case BinarySS(_, src, src1) => Slot(s, src) && Slot(s, src1)
    case SelectRSS(src, src1) => Slot(s, src) && Slot(s, src1)
    case SelectSRS(src, src1) => Slot(s, src) && Slot(s, src1)
    case SelectSSR(src, src1) => Slot(s, src) && Slot(s, src1)
    case SelectSSS(src, src1, src2) => Slot(s, src) && Slot(s, src1) && Slot(s, src2)
    case LoadR(_, _) => true
    case LoadS(_, src, _) => Slot(s, src)
    case StoreRS(_, src, _) => Slot(s, src)
    case StoreSR(_, src, _) => Slot(s, src)
    case StoreSS(_, src, src1, _) => Slot(s, src) && Slot(s, src1)
    case NoOperation => false
  }

  function Choose(s: State, condition: Word, operand1: Word, operand2: Word): Stepped {
    Next(SetR0(s, true, if condition != 0 then operand1 else operand2))
  }

  function Perform(op: Straight, s: State): Stepped {
    if !Legal(op, s) then Broken else
    match op
    case Const32(v, dst) => Next(Put(s, dst, v))
    case CopySlot(dst, src) => Next(Put(s, dst, s.slots[src]))
    case SetSlot(dst) => Next(Put(s, dst, Register(s)))
    case SetRegister(src) => Next(SetR0(s, true, s.slots[src]))
    case PreserveCopySlot(dst, src, preserve) =>
      var s1 := Put(s, preserve, s.slots[dst]);
      Next(Put(s1, dst, s1.slots[src]))
    case PreserveSetSlot(dst, preserve) => Next(Put(Put(s, preserve, s.slots[dst]), dst, Register(s)))
    case GetGlobal(g, dst) => Next(Put(s, dst, s.globals[g]))
    case SetGlobalR(g) => Next(s.(globals := s.globals[g := Register(s)]))
    case SetGlobalS(g, src) => Next(s.(globals := s.globals[g := s.slots[src]]))
    case UnaryR(u) => Next(SetR0(s, SignedUnary(u), ApplyUnary(u, Register(s))))
    case UnaryS(u, src) => Next(SetR0(s, SignedUnary(u), ApplyUnary(u, s.slots[src])))
    case BinaryRS(b, src) => Result(s, SignedBinary(b), ApplyBinary(b, s.slots[src], Register(s)))
    case BinarySR(b, src) => Result(s, SignedBinary(b), ApplyBinary(b, Register(s), s.slots[src]))
    case BinarySS(b, src, src1) => Result(s, SignedBinary(b), ApplyBinary(b, s.slots[src1], s.slots[src]))
    case SelectRSS(src, src1) => Choose(s, Register(s), s.slots[src1], s.slots[src])
    case SelectSRS(src, src1) => Choose(s, s.slots[src], s.slots[src1], Register(s))
    case SelectSSR(src, src1) => Choose(s, s.slots[src], Register(s), s.slots[src1])
    case SelectSSS(src, src1, src2) => Choose(s, s.slots[src], s.slots[src2], s.slots[src1])
    case LoadR(kind, offset) => Result(s, true, LoadFrom(kind, s.mem, Register(s), offset))
    case LoadS(kind, src, offset) => Result(s, true, LoadFrom(kind, s.mem, s.slots[src], offset))
    case StoreRS(kind, src, offset) => StoreResult(s, StoreTo(kind, s.mem, s.slots[src], offset, Register(s)))
    case StoreSR(kind, src, offset) => StoreResult(s, StoreTo(kind, s.mem, Register(s), offset, s.slots[src]))
    case StoreSS(kind, src, src1, offset) => StoreResult(s, StoreTo(kind, s.mem, s.slots[src1], offset, s.slots[src]))
  }

  // A stretch of straight operations.
  function PerformAll(ops: seq<Straight>, s: State): Stepped {
    if ops == [] then Next(s)
    else match Perform(ops[0], s)
         case Next(s1) => PerformAll(ops[1..], s1)
         case r => r
  }

  lemma {:induction false} PerformAppend(a: seq<Straight>, b: seq<Straight>, s: State)
    ensures PerformAll(a + b, s) ==
            (match PerformAll(a, s) case Next(s1) => PerformAll(b, s1) case r => r)
  {
    if a == [] {
      assert a + b == b;
    } else {
      assert (a + b)[0] == a[0] && (a + b)[1..] == a[1..] + b;
      match Perform(a[0], s)
      case Next(s1) => PerformAppend(a[1..], b, s1);
      case _ =>
    }
  }

  // ---------------------------------------------------------------------------------
  // Running code.

  type Memory = map<Pc, Op>

  // What the native call returns: the address of the loop to go round again, or the end.
  datatype Returned =
    | Done(state: State)
    | Again(loopId: Pc, state: State)
    | Died(trap: Trap, state: State)
    | Lost
    | Unfinished

  function After(pc: Pc): Pc {
    pc.(line := pc.line + 1)
  }

  // What one line does: go on at another line, enter a loop, or return.
  datatype Move = Go(pc: Pc, state: State) | Enter(loopId: Pc, state: State) | Leave(returned: Returned)

  function Goto(t: Target, s: State): Move {
    match t
    case Open => Leave(Lost)
    case To(pc) => Go(pc, s)
  }

  function Choice(yes: bool, t: Target, s: State, next: Pc, other: State): Move {
    if yes then Goto(t, s) else Go(next, other)
  }

  function Step(op: Op, next: Pc, s: State): Move {
    match op
    case Do(straight) =>
      (match Perform(straight, s)
       case Next(s1) => Go(next, s1)
       case Fault(t, s1) => Leave(Died(t, s1))
       case Broken => Leave(Lost))
    case Jump(t) => Goto(t, s)
    case BranchIfR(t) => Choice(Register(s) != 0, t, s, next, s)
    case BranchIfS(c, t) => if !Slot(s, c) then Leave(Lost) else Choice(s.slots[c] != 0, t, s, next, s)
    case BranchIfRS(v, t) =>
      if !Slot(s, v) then Leave(Lost) else Choice(Register(s) != 0, t, SetR0(s, true, s.slots[v]), next, s)
    case BranchIfSS(c, v, t) =>
      if !Slot(s, c) || !Slot(s, v) then Leave(Lost)
      else Choice(s.slots[c] != 0, t, SetR0(s, true, s.slots[v]), next, s)
    case IfR(t) => Choice(Register(s) == 0, t, s, next, s)
    case IfS(c, t) => if !Slot(s, c) then Leave(Lost) else Choice(s.slots[c] == 0, t, s, next, s)
    case LoopOp => Enter(next, s.(r0 := 0))
    case ContinueLoop(id) => Leave(Again(id, s))
    case ContinueLoopIf(id) => if Register(s) != 0 then Leave(Again(id, s)) else Go(next, s)
    case Return => Leave(Done(s))
  }

  function StepAt(code: Memory, pc: Pc, s: State): Move {
    if pc in code then Step(code[pc], After(pc), s) else Leave(Lost)
  }

  function Exec(code: Memory, pc: Pc, s: State, fuel: nat): Returned
    decreases fuel
  {
    if fuel == 0 then Unfinished
    else
      match StepAt(code, pc, s)
      case Go(pc1, s1) => Exec(code, pc1, s1, fuel - 1)
      case Enter(id, s1) => ExecLoop(code, id, s1, fuel - 1)
      case Leave(r) => r
  }

  // The registers are cleared before the first turn, and every turn starts with them so.
  function ExecLoop(code: Memory, id: Pc, s: State, fuel: nat): Returned
    decreases fuel
  {
    if fuel == 0 then Unfinished
    else
      match Exec(code, id, s, fuel - 1)
      case Again(id1, s1) => if id1 == id then ExecLoop(code, id, s1.(r0 := 0), fuel - 1) else Again(id1, s1)
      case r => r
  }
}
