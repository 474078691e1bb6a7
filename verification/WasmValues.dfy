// The i32 values of WebAssembly and the operators on them, as the C macros of the
// interpreter compute them (kernel/wasm3/source/m3_exec.h:104-260, m3_math_utils.h:84-182).
module WasmValues {
  import opened Arith

  const TWO_32 := 0x1_0000_0000
  const TWO_31 := 0x8000_0000

  type Word = x: int | 0 <= x < TWO_32
  type Octet = x: int | 0 <= x < 256

  datatype Trap = DivisionByZero | IntegerOverflow | OutOfBoundsMemoryAccess

  datatype Computed = Value(value: Word) | Trapped(trap: Trap)

  // (u32) x and (i32) x.
  function Wrap(x: int): Word {
    x % TWO_32
  }

  function Signed(x: Word): int {
    if x < TWO_31 then x else x - TWO_32
  }

  lemma WrapSigned(x: Word)
    ensures Wrap(Signed(x)) == x
  {
  }

  datatype Unary = EqualToZero | Clz | Ctz | Popcnt | Extend8S | Extend16S

  datatype Binary =
    | Equal | NotEqual | LessThanS | LessThanU | GreaterThanS | GreaterThanU
    | LessThanOrEqualS | LessThanOrEqualU | GreaterThanOrEqualS | GreaterThanOrEqualU
    | Add | Subtract | Multiply | DivideS | DivideU | RemainderS | RemainderU
    | And | Or | Xor | ShiftLeft | ShiftRightS | ShiftRightU | Rotl | Rotr

  function Flag(b: bool): Word {
    if b then 1 else 0
  }

  function LeadingZeros(x: Word, width: nat): (n: nat)
    ensures n <= width
  {
    if x == 0 then width else if width == 0 then 0 else LeadingZeros(x / 2, width - 1)
  }

  function TrailingZeros(x: Word, width: nat): (n: nat)
    ensures n <= width
  {
    if width == 0 || x % 2 == 1 then 0 else 1 + TrailingZeros(x / 2, width - 1)
  }

  function OneBits(x: Word, width: nat): (n: nat)
    ensures n <= width
  {
    if width == 0 then 0 else x % 2 + OneBits(x / 2, width - 1)
  }

  function ApplyUnary(op: Unary, x: Word): Word {
    match op
    case EqualToZero => Flag(x == 0)
    case Clz => LeadingZeros(x, 32)
    case Ctz => TrailingZeros(x, 32)
    case Popcnt => OneBits(x, 32)
    case Extend8S => Wrap(if x % 256 < 128 then x % 256 else x % 256 - 256)
    case Extend16S => Wrap(if x % 65536 < 32768 then x % 65536 else x % 65536 - 65536)
  }

  // Division rounding toward zero.
  function Quotient(a: int, b: int): int
    requires b != 0
  {
    if a >= 0 then a / b else -((-a) / b)
  }

  // One bit of each of &, | and ^.
  function OneBit(op: Binary, p: bool, q: bool): nat {
    Flag(match op
         case And => p && q
         case Or => p || q
         case _ => p != q)
  }

  function Bitwise(op: Binary, a: nat, b: nat, width: nat): nat {
    if width == 0 then 0
    else OneBit(op, a % 2 == 1, b % 2 == 1) + 2 * Bitwise(op, a / 2, b / 2, width - 1)
  }

  lemma {:induction false} BitwiseSwapped(op: Binary, a: nat, b: nat, width: nat)
    ensures Bitwise(op, a, b, width) == Bitwise(op, b, a, width)
  {
    if width > 0 {
      BitwiseSwapped(op, a / 2, b / 2, width - 1);
    }
  }

  function LeftBits(a: Word, n: nat): Word { Wrap(a * Pow2(n)) }

  function RightBits(a: Word, n: nat): Word { Wrap(a / Pow2(n)) }

  // Shifting right copies of the sign.
  function Arithmetic(a: Word, n: nat): Word {
    if a < TWO_31 then RightBits(a, n) else TWO_32 - 1 - RightBits(TWO_32 - 1 - a, n)
  }

  function ApplyBinary(op: Binary, a: Word, b: Word): Computed {
    match op
    case Equal => Value(Flag(a == b))
    case NotEqual => Value(Flag(a != b))
    case LessThanS => Value(Flag(Signed(a) < Signed(b)))
    case LessThanU => Value(Flag(a < b))
    case GreaterThanS => Value(Flag(Signed(a) > Signed(b)))
    case GreaterThanU => Value(Flag(a > b))
    case LessThanOrEqualS => Value(Flag(Signed(a) <= Signed(b)))
    case LessThanOrEqualU => Value(Flag(a <= b))
    case GreaterThanOrEqualS => Value(Flag(Signed(a) >= Signed(b)))
    case GreaterThanOrEqualU => Value(Flag(a >= b))
    case Add => Value(Wrap(a + b))
    case Subtract => Value(Wrap(a - b))
    case Multiply => Value(Wrap(a * b))
    case DivideS =>
      if b == 0 then Trapped(DivisionByZero)
      else if Signed(b) == -1 && Signed(a) == -TWO_31 then Trapped(IntegerOverflow)
      else Value(Wrap(Quotient(Signed(a), Signed(b))))
    case DivideU => if b == 0 then Trapped(DivisionByZero) else Value(Wrap(a / b))
    case RemainderS =>
      if b == 0 then Trapped(DivisionByZero)
      else if Signed(b) == -1 && Signed(a) == -TWO_31 then Value(0)
      else Value(Wrap(Signed(a) - Quotient(Signed(a), Signed(b)) * Signed(b)))
    case RemainderU => if b == 0 then Trapped(DivisionByZero) else Value(a % b)
    case And => Value(Wrap(Bitwise(op, a, b, 32)))
    case Or => Value(Wrap(Bitwise(op, a, b, 32)))
    case Xor => Value(Wrap(Bitwise(op, a, b, 32)))
    case ShiftLeft => Value(LeftBits(a, b % 32))
    case ShiftRightS => Value(Arithmetic(a, b % 32))
    case ShiftRightU => Value(RightBits(a, b % 32))
    case Rotl => Value(Wrap(Bitwise(Or, LeftBits(a, b % 32), RightBits(a, (32 - b % 32) % 32), 32)))
    case Rotr => Value(Wrap(Bitwise(Or, RightBits(a, b % 32), LeftBits(a, (32 - b % 32) % 32), 32)))
  }

  // The operators that have no form with the second operand in the register.
  predicate Commutative(op: Binary) {
    op == Equal || op == NotEqual || op == Add || op == Multiply || op == And || op == Or || op == Xor
  }

  // Those whose operands are i32 in the C code, so that the result is sign-extended on its
  // way into the 64-bit register; the others zero-extend it.
  predicate SignedBinary(op: Binary) {
    match op
    case LessThanU | GreaterThanU | LessThanOrEqualU | GreaterThanOrEqualU | DivideU | RemainderU => false
    case And | Or | Xor | ShiftLeft | ShiftRightU | Rotl | Rotr => false
    case _ => true
  }

  predicate SignedUnary(op: Unary) {
    op == EqualToZero || op == Extend8S || op == Extend16S
  }

  lemma SwappedOperands(op: Binary, a: Word, b: Word)
    requires Commutative(op)
    ensures ApplyBinary(op, a, b) == ApplyBinary(op, b, a)
  {
    match op
    case And => BitwiseSwapped(op, a, b, 32);
    case Or => BitwiseSwapped(op, a, b, 32);
    case Xor => BitwiseSwapped(op, a, b, 32);
    case Multiply => assert a * b == b * a;
    case Equal =>
    case NotEqual =>
    case Add =>
  }

  // ---------------------------------------------------------------------------------
  // Linear memory, little-endian.

  datatype Load = Load8S | Load8U | Load16S | Load16U | Load32
  datatype Store = Store8 | Store16 | Store32

  function LoadSize(kind: Load): (n: nat)
    ensures 1 <= n <= 4
  {
    match kind
    case Load8S | Load8U => 1
    case Load16S | Load16U => 2
    case Load32 => 4
  }

  function StoreSize(kind: Store): (n: nat)
    ensures 1 <= n <= 4
  {
    match kind
    case Store8 => 1
    case Store16 => 2
    case Store32 => 4
  }

  function ReadBytes(mem: seq<Octet>, at: nat, size: nat): (v: nat)
    requires at + size <= |mem|
    decreases size
  {
    if size == 0 then 0 else mem[at] + 256 * ReadBytes(mem, at + 1, size - 1)
  }

  function WriteBytes(mem: seq<Octet>, at: nat, size: nat, v: nat): (r: seq<Octet>)
    requires at + size <= |mem|
    ensures |r| == |mem|
    decreases size
  {
    if size == 0 then mem else WriteBytes(mem[at := v % 256], at + 1, size - 1, v / 256)
  }

  // Storing keeps the other bytes and puts the low bytes of the value in order.
  lemma {:induction false} WrittenBytes(mem: seq<Octet>, at: nat, size: nat, v: nat)
    requires at + size <= |mem|
    ensures forall i :: 0 <= i < |mem| && !(at <= i < at + size) ==> WriteBytes(mem, at, size, v)[i] == mem[i]
    ensures ReadBytes(WriteBytes(mem, at, size, v), at, size) == Low(v, size)
    decreases size
  {
    if size > 0 {
      WrittenBytes(mem[at := v % 256], at + 1, size - 1, v / 256);
    }
  }

  // The low bytes of v.
  function Low(v: nat, size: nat): nat {
    if size == 0 then 0 else v % 256 + 256 * Low(v / 256, size - 1)
  }

  function LoadFrom(kind: Load, mem: seq<Octet>, address: Word, offset: Word): Computed {
    if address + offset + LoadSize(kind) > |mem| then Trapped(OutOfBoundsMemoryAccess)
    else
      var v := ReadBytes(mem, address + offset, LoadSize(kind));
      Value(match kind
            case Load8S => ApplyUnary(Extend8S, Wrap(v))
            case Load16S => ApplyUnary(Extend16S, Wrap(v))
            case _ => Wrap(v))
  }

  datatype Stored = Memory(mem: seq<Octet>) | Refused(trap: Trap)

  function StoreTo(kind: Store, mem: seq<Octet>, address: Word, offset: Word, v: Word): Stored {
    if address + offset + StoreSize(kind) > |mem| then Refused(OutOfBoundsMemoryAccess)
    else Memory(WriteBytes(mem, address + offset, StoreSize(kind), v))
  }

  // What a load makes of the value whose low bytes were stored.
  function Loaded(kind: Load, v: Word): Word {
    match kind
    case Load8S => ApplyUnary(Extend8S, v)
    case Load8U => v % 256
    case Load16S => ApplyUnary(Extend16S, v)
    case Load16U => v % 65536
    case Load32 => v
  }

  lemma LowTwo(v: nat)
    ensures Low(v, 1) == v % 256 && Low(v, 2) == v % 65536
  {
    assert Low(v, 1) == v % 256 + 256 * Low(v / 256, 0);
    assert Low(v / 256, 1) == v / 256 % 256 + 256 * Low(v / 256 / 256, 0);
    assert Low(v, 2) == v % 256 + 256 * Low(v / 256, 1);
    TwoDigits(v, v / 256, v / 256 / 256, v % 256, v / 256 % 256);
  }

  lemma TwoDigits(v: nat, q: nat, p: nat, a: nat, b: nat)
    requires v == 256 * q + a && q == 256 * p + b && a < 256 && b < 256
    ensures v % 65536 == a + 256 * b
  {
  }

  lemma LowFour(v: Word)
    ensures Low(v, 4) == v
  {
    var q := v / 256;
    LowTwo(q / 256);
    assert Low(q, 3) == q % 256 + 256 * Low(q / 256, 2);
    assert Low(v, 4) == v % 256 + 256 * Low(q, 3);
  }

  lemma LoadBack(load: Load, mem: seq<Octet>, from: Word, skip: Word, v: Word)
    requires from + skip + LoadSize(load) <= |mem|
    requires ReadBytes(mem, from + skip, LoadSize(load)) == Low(v, LoadSize(load))
    ensures LoadFrom(load, mem, from, skip) == Value(Loaded(load, v))
  {
    hide ReadBytes, Low;
    LowTwo(v);
    LowFour(v);
  }

  lemma {:induction false} ReadSame(mem: seq<Octet>, mem': seq<Octet>, at: nat, size: nat)
    requires at + size <= |mem| == |mem'| && forall i :: at <= i < at + size ==> mem[i] == mem'[i]
    ensures ReadBytes(mem, at, size) == ReadBytes(mem', at, size)
    decreases size
  {
    if size > 0 {
      ReadSame(mem, mem', at + 1, size - 1);
    }
  }

  // A load of as many bytes as were stored gives them back, extended as it says; loads of other bytes
  // give what they gave before, traps included.
  lemma LoadAfterStore(kind: Store, mem: seq<Octet>, address: Word, offset: Word, v: Word, load: Load, from: Word,
      skip: Word)
    requires StoreTo(kind, mem, address, offset, v).Memory?
    ensures var mem' := StoreTo(kind, mem, address, offset, v).mem;
            && |mem'| == |mem|
            && (LoadSize(load) == StoreSize(kind) && from + skip == address + offset ==>
                  LoadFrom(load, mem', from, skip) == Value(Loaded(load, v)))
            && (from + skip + LoadSize(load) <= address + offset ||
                address + offset + StoreSize(kind) <= from + skip ==>
                  LoadFrom(load, mem', from, skip) == LoadFrom(load, mem, from, skip))
  {
    hide ReadBytes, WriteBytes, Low, ApplyUnary;
    var at, l, mem' := from + skip, LoadSize(load), StoreTo(kind, mem, address, offset, v).mem;
    WrittenBytes(mem, address + offset, StoreSize(kind), v);
    if l == StoreSize(kind) && at == address + offset {
      LoadBack(load, mem', from, skip, v);
    }
    if at + l <= |mem| && (at + l <= address + offset || address + offset + StoreSize(kind) <= at) {
      ReadSame(mem, mem', at, l);
    }
  }
}
