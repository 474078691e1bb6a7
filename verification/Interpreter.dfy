// The machine at work on its memory: operations write slots, globals and linear memory in place and
// hand the register on; every operation goes on to the next by a tail call, a loop by a native one
// (kernel/wasm3/source/m3_exec.h:31-60, 104-220, 442-640, 720-850; m3_exec.c:28-61, 198-370).
module Interpreter {
  import opened WasmValues
  import opened WasmSemantics
  import opened Wrappers
  import opened ThreadedMachine

  // Why a run ends.
  datatype Exit = Finished | GoRound(loopId: Pc) | Trap(trap: Trap) | OutOfTime

  class Machine {
    const slots: array<Word>
    const globals: array<Word>
    const memory: array<Octet>

    constructor (slots: array<Word>, globals: array<Word>, memory: array<Octet>)
      ensures this.slots == slots && this.globals == globals && this.memory == memory
    {
      this.slots, this.globals, this.memory := slots, globals, memory;
    }

    // The state with this in the register, which is an argument of every operation.
    ghost function With(r0: int): (s: State)
      reads slots, globals, memory
    {
      State(slots[..], r0, globals[..], memory[..])
    }

    // -------------------------------------------------------------------------------
    // Linear memory.

    method Fetch(at: nat, size: nat) returns (v: nat)
      requires at + size <= memory.Length
      ensures v == ReadBytes(memory[..], at, size)
    {
      v := 0;
      var i: nat := size;
      while i > 0
        invariant i <= size && v == ReadBytes(memory[..], at + i, size - i)
      {
        i := i - 1;
        v := memory[at + i] + 256 * v;
      }
    }

    method StoreBytes(at: nat, size: nat, v: nat)
      requires at + size <= memory.Length
      modifies memory
      ensures memory[..] == WriteBytes(old(memory[..]), at, size, v)
    {
      var i, rest := 0, v;
      while i < size
        invariant i <= size
        invariant WriteBytes(memory[..], at + i, size - i, rest) == WriteBytes(old(memory[..]), at, size, v)
      {
        ghost var before := memory[..];
        memory[at + i] := rest % 256;
        assert memory[..] == before[at + i := rest % 256];
        rest := rest / 256;
        i := i + 1;
      }
    }

    method LoadValue(kind: Load, address: Word, offset: Word, r: int) returns (r0: int, trap: Option<Trap>)
      ensures Result(With(r), true, LoadFrom(kind, memory[..], address, offset)) ==
              match trap
              case None => Next(With(r0))
              case Some(t) => Fault(t, With(r0))
    {
      r0 := r;
      if address + offset + LoadSize(kind) > memory.Length {
        return r, Some(OutOfBoundsMemoryAccess);
      }
      var v := Fetch(address + offset, LoadSize(kind));
      trap := None;
      r0 := Signed(match kind
                   case Load8S => ApplyUnary(Extend8S, Wrap(v))
                   case Load16S => ApplyUnary(Extend16S, Wrap(v))
                   case _ => Wrap(v));
    }

    method StoreValue(kind: Store, address: Word, offset: Word, v: Word, ghost r: int) returns (trap: Option<Trap>)
      modifies memory
      ensures StoreResult(old(With(r)), StoreTo(kind, old(memory[..]), address, offset, v)) ==
              match trap
              case None => Next(With(r))
              case Some(t) => Fault(t, With(r))
    {
      if address + offset + StoreSize(kind) > memory.Length {
        return Some(OutOfBoundsMemoryAccess);
      }
      StoreBytes(address + offset, StoreSize(kind), v);
      trap := None;
    }

    // -------------------------------------------------------------------------------
    // Operations.

    predicate Moves(op: Straight) {
      op.Const32? || op.CopySlot? || op.SetSlot? || op.SetRegister? || op.PreserveCopySlot? || op.PreserveSetSlot? ||
      op.GetGlobal? || op.SetGlobalR? || op.SetGlobalS?
    }

    method Move(op: Straight, r: int) returns (r0: int)
      requires slots != globals && Moves(op) && Legal(op, With(r))
      modifies slots, globals
      ensures Perform(op, old(With(r))) == Next(With(r0))
    {
      ghost var s := With(r);
      r0 := r;
      match op
      case Const32(v, dst) => PutSlot(dst, v);
      case CopySlot(dst, src) => PutSlot(dst, slots[src]);
      case SetSlot(dst) => PutSlot(dst, Wrap(r));
      case SetRegister(src) => r0 := Signed(slots[src]);
      case PreserveCopySlot(dst, src, preserve) =>
        PutSlot(preserve, slots[dst]);
        PutSlot(dst, slots[src]);
      case PreserveSetSlot(dst, preserve) =>
        PutSlot(preserve, slots[dst]);
        PutSlot(dst, Wrap(r));
      case GetGlobal(g, dst) => PutSlot(dst, globals[g]);
      case SetGlobalR(g) => PutGlobal(g, Wrap(r));
      case SetGlobalS(g, src) => PutGlobal(g, slots[src]);
    }

    method PutSlot(dst: nat, v: Word)
      requires dst < slots.Length
      modifies slots
      ensures slots[..] == old(slots[..])[dst := v]
    {
      slots[dst] := v;
    }

    method PutGlobal(g: nat, v: Word)
      requires g < globals.Length
      modifies globals
      ensures globals[..] == old(globals[..])[g := v]
    {
      globals[g] := v;
    }

    predicate Operates(op: Straight) {
      op.UnaryR? || op.UnaryS? || op.BinaryRS? || op.BinarySR? || op.BinarySS? ||
      op.SelectRSS? || op.SelectSRS? || op.SelectSSR? || op.SelectSSS?
    }

    method Operate(op: Straight, r: int) returns (r0: int, trap: Option<Trap>)
      requires Operates(op) && Legal(op, With(r))
      ensures Perform(op, With(r)) ==
              match trap
              case None => Next(With(r0))
              case Some(t) => Fault(t, With(r0))
    {
      hide ApplyUnary, ApplyBinary, SignedUnary, SignedBinary;
      r0, trap := r, None;
      match op
      case UnaryR(u) => r0 := Extended(SignedUnary(u), ApplyUnary(u, Wrap(r)));
      case UnaryS(u, src) => r0 := Extended(SignedUnary(u), ApplyUnary(u, slots[src]));
      case BinaryRS(b, src) => r0, trap := Apply(b, slots[src], Wrap(r), r);
      case BinarySR(b, src) => r0, trap := Apply(b, Wrap(r), slots[src], r);
      case BinarySS(b, src, src1) => r0, trap := Apply(b, slots[src1], slots[src], r);
      case SelectRSS(src, src1) => r0 := Signed(if Wrap(r) != 0 then slots[src1] else slots[src]);
      case SelectSRS(src, src1) => r0 := Signed(if slots[src] != 0 then slots[src1] else Wrap(r));
      case SelectSSR(src, src1) => r0 := Signed(if slots[src] != 0 then Wrap(r) else slots[src1]);
      case SelectSSS(src, src1, src2) => r0 := Signed(if slots[src] != 0 then slots[src2] else slots[src1]);
    }

    // A 32-bit value in the 64-bit register.
    function Extended(signed: bool, v: Word): int {
      if signed then Signed(v) else v
    }

    method Apply(b: Binary, x: Word, y: Word, r: int) returns (r0: int, trap: Option<Trap>)
      ensures Result(With(r), SignedBinary(b), ApplyBinary(b, x, y)) ==
              match trap
              case None => Next(With(r0))
              case Some(t) => Fault(t, With(r0))
    {
      hide ApplyBinary, SignedBinary;
      match ApplyBinary(b, x, y)
      case Value(v) => r0, trap := Extended(SignedBinary(b), v), None;
      case Trapped(t) => r0, trap := r, Some(t);
    }

    method Execute(op: Straight, r: int) returns (r0: int, trap: Option<Trap>)
      requires slots != globals && Legal(op, With(r))
      modifies slots, globals, memory
      ensures Perform(op, old(With(r))) ==
              match trap
              case None => Next(With(r0))
              case Some(t) => Fault(t, With(r0))
    {
      r0, trap := r, None;
      if Moves(op) {
        r0 := Move(op, r);
      } else if Operates(op) {
        r0, trap := Operate(op, r);
      } else {
        match op
        case LoadR(kind, offset) => r0, trap := LoadValue(kind, Wrap(r), offset, r);
        case LoadS(kind, src, offset) => r0, trap := LoadValue(kind, slots[src], offset, r);
        case StoreRS(kind, src, offset) => trap := StoreValue(kind, slots[src], offset, Wrap(r), r);
        case StoreSR(kind, src, offset) => trap := StoreValue(kind, Wrap(r), offset, slots[src], r);
        case StoreSS(kind, src, src1, offset) => trap := StoreValue(kind, slots[src1], offset, slots[src], r);
      }
    }

    // -------------------------------------------------------------------------------
    // Running code.

    ghost function Ended(e: Exit, r0: int): (r: Returned)
      reads slots, globals, memory
    {
      match e
      case Finished => Done(With(r0))
      case GoRound(id) => Again(id, With(r0))
      case Trap(t) => Died(t, With(r0))
      case OutOfTime => Unfinished
    }

    predicate Branches(op: Op) {
      op.Jump? || op.BranchIfR? || op.BranchIfS? || op.BranchIfRS? || op.BranchIfSS? || op.IfR? || op.IfS?
    }

    method Branch(op: Op, pc: Pc, r: int) returns (next: Pc, r0: int)
      requires Branches(op) && Step(op, After(pc), With(r)).Go?
      ensures Step(op, After(pc), With(r)) == Go(next, With(r0))
    {
      next, r0 := After(pc), r;
      match op
      case Jump(t) => next := t.pc;
      case BranchIfR(t) =>
        if Wrap(r) != 0 {
          next := t.pc;
        }
      case BranchIfS(c, t) =>
        if slots[c] != 0 {
          next := t.pc;
        }
      case BranchIfRS(v, t) =>
        if Wrap(r) != 0 {
          next, r0 := t.pc, Signed(slots[v]);
        }
      case BranchIfSS(c, v, t) =>
        if slots[c] != 0 {
          next, r0 := t.pc, Signed(slots[v]);
        }
      case IfR(t) =>
        if Wrap(r) == 0 {
          next := t.pc;
        }
      case IfS(c, t) =>
        if slots[c] == 0 {
          next := t.pc;
        }
    }

    // Tail calls from line to line.
    method Run(code: Memory, start: Pc, r: int, fuel: nat) returns (r0: int, e: Exit)
      requires slots != globals && Exec(code, start, With(r), fuel) != Lost
      modifies slots, globals, memory
      ensures Exec(code, start, old(With(r)), fuel) == Ended(e, r0)
      decreases fuel
    {
      var pc := start;
      var left: nat := fuel;
      r0 := r;
      while left > 0
        invariant left <= fuel && Exec(code, pc, With(r0), left) == Exec(code, start, old(With(r)), fuel)
        decreases left
      {
        left := left - 1;
        var op := code[pc];
        match op
        case Do(straight) =>
          var trap;
          r0, trap := Execute(straight, r0);
          if trap.Some? {
            return r0, Trap(trap.value);
          }
          pc := After(pc);
        case LoopOp =>
          r0, e := GoAround(code, After(pc), left);
          return;
        case ContinueLoop(id) => return r0, GoRound(id);
        case ContinueLoopIf(id) =>
          if Wrap(r0) != 0 {
            return r0, GoRound(id);
          }
          pc := After(pc);
        case Return => return r0, Finished;
        case _ => pc, r0 := Branch(op, pc, r0);
      }
      e := OutOfTime;
    }

    // The native call of a loop: as long as its own address comes back it goes round again.
    method GoAround(code: Memory, id: Pc, fuel: nat) returns (r0: int, e: Exit)
      requires slots != globals && ExecLoop(code, id, With(0), fuel) != Lost
      modifies slots, globals, memory
      ensures ExecLoop(code, id, old(With(0)), fuel) == Ended(e, r0)
      decreases fuel
    {
      var left: nat := fuel;
      r0 := 0;
      while left > 0
        invariant left <= fuel && ExecLoop(code, id, With(0), left) == ExecLoop(code, id, old(With(0)), fuel)
        decreases left
      {
        left := left - 1;
        r0, e := Run(code, id, 0, left);
        if e != GoRound(id) {
          return;
        }
      }
      e := OutOfTime;
    }
  }
}
