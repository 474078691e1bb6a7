// Compiling instructions without control flow: what is emitted and where operands go
// (kernel/wasm3/source/m3_compile.c:554-658, 739-892, 918-926, 1028-1168, 1637-1930).
module PlainCompile {
  import opened WasmValues
  import opened WasmSemantics
  import opened Wrappers
  import opened ThreadedMachine
  import opened SlotAllocator

  // ---------------------------------------------------------------------------------
  // Constants.

  // A stored constant is compared, zero-extended, with the sign-extended word.
  function FindConst(consts: seq<Word>, v: Word): (r: Option<nat>)
    ensures r.Some? ==> r.value < |consts| && consts[r.value] == v
  {
    if |consts| == 0 then None
    else
      var r := FindConst(consts[..|consts| - 1], v);
      if r.Some? then r
      else if consts[|consts| - 1] == Signed(v) then Some(|consts| - 1) else None
  }

  function SetConst(consts: seq<Word>, index: nat, v: Word): seq<Word> {
    if index < |consts| then consts[index := v] else consts + [v]
  }

  function PushConst(a: Alloc, v: Word): (r: Option<Out>)
    requires |a.slots| == MAX_FUNCTION_SLOTS && a.firstConst <= a.firstDynamic <= MAX_FUNCTION_SLOTS
    ensures r.Some? ==> SameShape(a, r.value.alloc)
  {
    var found := FindConst(a.consts, v);
    if found.Some? then
      var b :- PushAt(a, a.firstConst + found.value);
      Some(Out(b, []))
    else
      var spare := AllocateWithin(a, a.firstConst, a.firstDynamic);
      if spare.Some? then
        var a1 := spare.value.alloc;
        var b :- PushAt(a1.(consts := SetConst(a1.consts, spare.value.slot - a.firstConst, v)), spare.value.slot);
        Some(Out(b, []))
      else
        var s :- PushAllocated(a);
        Some(Out(s.alloc, [Const32(v, s.slot)]))
  }

  // ---------------------------------------------------------------------------------
  // Locals.

  // Blocks share the search of the scope around them.
  function SearchStart(scopes: seq<Scope>): nat {
    if |scopes| == 0 then 0
    else if scopes[0].opcode == BlockOp && |scopes| > 1 then SearchStart(scopes[1..])
    else scopes[0].init
  }

  function Min(a: nat, b: nat): nat {
    if a < b then a else b
  }

  function Moved(stack: seq<nat>, from: nat, slot: nat, to: nat): (r: seq<nat>)
    ensures |r| == |stack|
    ensures forall i :: 0 <= i < |stack| ==> r[i] == if from <= i && stack[i] == slot then to else stack[i]
  {
    if |stack| == 0 then []
    else
      var last := |stack| - 1;
      Moved(stack[..last], from, slot, to) + [if from <= last && stack[last] == slot then to else stack[last]]
  }

  function Uses(stack: seq<nat>, from: nat, slot: nat): nat {
    if |stack| == 0 then 0
    else
      var last := |stack| - 1;
      Uses(stack[..last], from, slot) + if from <= last && stack[last] == slot then 1 else 0
  }

  // Operands that are only a reference to the local are given a slot of their own.
  function FindReferenced(a: Alloc, local: nat): (r: Option<Slotted>)
    requires |a.slots| == MAX_FUNCTION_SLOTS
    ensures r.Some? ==> SameShape(a, r.value.alloc)
  {
    var from := SearchStart(a.scopes);
    var uses := Uses(a.stack, from, local);
    if uses == 0 then Some(Slotted(a, local))
    else
      var s :- AllocateSlot(a);
      if uses > MAX_USAGE then None
      else
        Some(Slotted(s.alloc.(stack := Moved(a.stack, from, local, s.slot),
                              slots := s.alloc.slots[s.slot := uses]), s.slot))
  }

  function CopyTop(a: Alloc, dst: nat): Straight {
    if InRegister(a, 0) then SetSlot(dst) else CopySlot(dst, TopSlot(a))
  }

  function PreservedCopyTop(a: Alloc, dst: nat, preserve: nat): Straight {
    if InRegister(a, 0) then PreserveSetSlot(dst, preserve) else PreserveCopySlot(dst, TopSlot(a), preserve)
  }

  function AssignLocal(a: Alloc, index: nat): (r: Option<Out>)
    requires |a.slots| == MAX_FUNCTION_SLOTS
    ensures r.Some? ==> SameShape(a, r.value.alloc)
  {
    if index >= a.numLocals || index >= |a.stack| then None
    else
      var local := a.stack[index];
      var f :- FindReferenced(a, local);
      Some(Out(f.alloc,
          [if f.slot == local then CopyTop(f.alloc, local) else PreservedCopyTop(f.alloc, local, f.slot)]))
  }

  // ---------------------------------------------------------------------------------
  // Operators: the top operand, or the top two, come from the register or from slots.

  datatype One = R | S(src: nat)
  datatype Two = RS(src: nat) | SR(src: nat) | SS(src: nat, src1: nat)

  datatype ReadOne = ReadOne(out: Out, operand: One)
  datatype ReadTwo = ReadTwo(out: Out, operands: Two)

  function TakeOne(a: Alloc): (r: Option<ReadOne>)
    requires |a.slots| == MAX_FUNCTION_SLOTS && |a.scopes| > 0
    ensures r.Some? ==> SameShape(a, r.value.out.alloc)
  {
    if InRegister(a, 0) then
      var b :- PopTop(a);
      Some(ReadOne(Out(b, []), R))
    else
      var p :- PreserveRegister(a);
      var b :- PopTop(p.alloc);
      Some(ReadOne(Out(b, p.ops), S(TopSlot(p.alloc))))
  }

  function TakeTwo(a: Alloc): (r: Option<ReadTwo>)
    requires |a.slots| == MAX_FUNCTION_SLOTS && |a.scopes| > 0
    ensures r.Some? ==> SameShape(a, r.value.out.alloc)
  {
    if InRegister(a, 0) then
      if InRegister(a, 1) then None
      else
        var b :- PopTop(a);
        var c :- PopTop(b);
        Some(ReadTwo(Out(c, []), RS(TopSlot(b))))
    else if InRegister(a, 1) then
      var b :- PopTop(a);
      var c :- PopTop(b);
      Some(ReadTwo(Out(c, []), SR(TopSlot(a))))
    else
      var p :- PreserveRegister(a);
      var b :- PopTop(p.alloc);
      var c :- PopTop(b);
      Some(ReadTwo(Out(c, p.ops), SS(TopSlot(p.alloc), TopSlot(b))))
  }

  function UnaryOperation(op: Unary, x: One): Straight {
    match x
    case R => UnaryR(op)
    case S(src) => UnaryS(op, src)
  }

  // A commutative operator has one operation for both ways of finding one operand in the register.
  function BinaryOperation(op: Binary, x: Two): Straight {
    match x
    case RS(src) => BinaryRS(op, src)
    case SR(src) => if Commutative(op) then BinaryRS(op, src) else BinarySR(op, src)
    case SS(src, src1) => BinarySS(op, src, src1)
  }

  function LoadOperation(kind: Load, offset: Word, x: One): Straight {
    match x
    case R => LoadR(kind, offset)
    case S(src) => LoadS(kind, src, offset)
  }

  function StoreOperation(kind: Store, offset: Word, x: Two): Straight {
    match x
    case RS(src) => StoreRS(kind, src, offset)
    case SR(src) => StoreSR(kind, src, offset)
    case SS(src, src1) => StoreSS(kind, src, src1, offset)
  }

  function PushResult(out: Out, op: Straight): (r: Option<Out>)
    ensures r.Some? ==> SameShape(out.alloc, r.value.alloc)
  {
    var b :- PushAt(out.alloc, REG0);
    Some(Out(b, out.ops + [op]))
  }

  function SelectOperation(reg0: bool, reg1: bool, reg2: bool, s0: nat, s1: nat, s2: nat): Straight {
    if reg2 then SelectSSR(s0, s1)
    else if reg1 then SelectSRS(s0, s2)
    else if reg0 then SelectRSS(s1, s2)
    else SelectSSS(s0, s1, s2)
  }

  // With fewer than two entries on a polymorphic stack there is no type to select for.
  function CompileSelect(a: Alloc): (r: Option<Out>)
    requires |a.slots| == MAX_FUNCTION_SLOTS && |a.scopes| > 0
    ensures r.Some? ==> SameShape(a, r.value.alloc)
  {
    if |a.stack| < 2 then
      if Polymorphic(a) then PushResult(Out(a, []), NoOperation) else None
    else
      var p :- if InRegister(a, 0) || InRegister(a, 1) ||
          InRegister(a, 2) then Some(Out(a, [])) else PreserveRegister(a);
      var b :- PopTop(p.alloc);
      var c :- PopTop(b);
      var d :- PopTop(c);
      PushResult(Out(d, p.ops),
                 SelectOperation(InRegister(p.alloc, 0), InRegister(b, 0), InRegister(c, 0),
                                 TopSlot(p.alloc), TopSlot(b), TopSlot(c)))
  }

  function CompilePlain(a: Alloc, p: Plain): (r: Option<Out>)
    requires Shaped(a)
    ensures r.Some? ==> SameShape(a, r.value.alloc)
  {
    match p
    case Const(v) => PushConst(a, v)
    case LocalGet(i) =>
      if i >= a.numLocals || i >= |a.stack| then None
      else
        var b :- PushAt(a, a.stack[i]);
        Some(Out(b, []))
    case LocalSet(i) =>
      var out :- AssignLocal(a, i);
      var b :- PopTop(out.alloc);
      Some(Out(b, out.ops))
    case LocalTee(i) => AssignLocal(a, i)
    case GlobalGet(g) =>
      if g >= |a.mutables| then None
      else
        var s :- PushAllocated(a);
        Some(Out(s.alloc, [GetGlobal(g, s.slot)]))
    case GlobalSet(g) =>
      if g >= |a.mutables| || !a.mutables[g] then None
      else
        var b :- PopTop(a);
        Some(Out(b, [if InRegister(a, 0) then SetGlobalR(g) else SetGlobalS(g, TopSlot(a))]))
    case Drop =>
      var b :- PopTop(a);
      Some(Out(b, []))
    case Select => CompileSelect(a)
    case Unop(op) =>
      var r :- TakeOne(a);
      PushResult(r.out, UnaryOperation(op, r.operand))
    case Binop(op) =>
      var r :- TakeTwo(a);
      PushResult(r.out, BinaryOperation(op, r.operands))
    case LoadOp(kind, offset) =>
      var r :- TakeOne(a);
      PushResult(r.out, LoadOperation(kind, offset, r.operand))
    case StoreOp(kind, offset) =>
      var r :- TakeTwo(a);
      Some(Out(r.out.alloc, r.out.ops + [StoreOperation(kind, offset, r.operands)]))
  }
}
