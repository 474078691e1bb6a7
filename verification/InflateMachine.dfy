// What decompression does, one step at a time (RFC 1951): the reference that both the
// compressor and the resumable decompressor are compared with.  The control states follow
// tinfl_decompress (kernel/miniz/miniz.c:2404-2797).
module InflateMachine {
  import opened Bits
  import opened Canonical
  import opened FastTable
  import opened CodeSizeRle
  import opened Tokens

  datatype State =
    | BlockHead
    | RawHead(fin: bool, head: seq<nat>)
    | RawBody(fin: bool, left: nat)
    | RawOut(fin: bool, left: nat, b: Byte)
    | TableSizes(fin: bool, ts: seq<nat>)
    | ClSizes(fin: bool, ts: seq<nat>, got: seq<nat>)
    | Lens(fin: bool, ts: seq<nat>, cl: seq<nat>, got: seq<nat>)
    | LensRepeat(fin: bool, ts: seq<nat>, cl: seq<nat>, got: seq<nat>, code: nat)
    | Sym(fin: bool, ls: seq<nat>, ds: seq<nat>)
    | Emit(fin: bool, ls: seq<nat>, ds: seq<nat>, b: Byte)
    | LenBits(fin: bool, ls: seq<nat>, ds: seq<nat>, row: nat)
    | Dist(fin: bool, ls: seq<nat>, ds: seq<nat>, len: nat)
    | DistBits(fin: bool, ls: seq<nat>, ds: seq<nat>, len: nat, row: nat)
    | Copy(fin: bool, ls: seq<nat>, ds: seq<nat>, len: nat, dist: nat)
    | Done
    | Failed
    | Malformed

  // Position in the bit stream and everything written so far.
  datatype Machine = Machine(st: State, pos: nat, out: seq<Byte>)

  datatype Read = Got(value: nat, pos: nat) | Starved | Bad

  function ReadBits(bits: seq<bool>, pos: nat, n: nat): Read {
    if pos + n <= |bits| then Got(LsbValue(bits[pos..pos + n]), pos + n) else Starved
  }

  ghost predicate CodeAt(sizes: seq<nat>, bits: seq<bool>, pos: nat, s: nat)
  {
    pos <= |bits| && Used(sizes, s) && Codeword(sizes, s) <= bits[pos..]
  }

  ghost predicate SomeCodeAt(sizes: seq<nat>, bits: seq<bool>, pos: nat)
  {
    exists s: nat :: CodeAt(sizes, bits, pos, s)
  }

  ghost function CodeFound(sizes: seq<nat>, bits: seq<bool>, pos: nat): (s: nat)
    requires SomeCodeAt(sizes, bits, pos)
    ensures CodeAt(sizes, bits, pos, s)
  {
    var s: nat :| CodeAt(sizes, bits, pos, s);
    s
  }

  // The symbol whose code comes next.
  ghost function ReadSym(sizes: seq<nat>, bits: seq<bool>, pos: nat): Read {
    if SomeCodeAt(sizes, bits, pos) then Got(CodeFound(sizes, bits, pos), pos + sizes[CodeFound(sizes, bits, pos)])
    else if pos + MAX_CODE_SIZE <= |bits| then Bad
    else Starved
  }

  // With a complete code there is always a symbol to read, and with no other.
  lemma NeverBad(sizes: seq<nat>)
    requires Feasible(MAX_CODE_SIZE, sizes)
    ensures Complete(MAX_CODE_SIZE, sizes) <==>
            forall bits: seq<bool>, pos: nat :: !ReadSym(sizes, bits, pos).Bad?
  {
    hide Feasible, Complete, Codeword;
    AlwaysDecodes(MAX_CODE_SIZE, sizes);
    forall bits: seq<bool>, pos: nat | Complete(MAX_CODE_SIZE, sizes)
      ensures !ReadSym(sizes, bits, pos).Bad?
    {
      if pos + MAX_CODE_SIZE <= |bits| {
        var s: nat :| Used(sizes, s) && Codeword(sizes, s) <= bits[pos..pos + MAX_CODE_SIZE];
        assert bits[pos..pos + MAX_CODE_SIZE] <= bits[pos..];
        assert CodeAt(sizes, bits, pos, s);
      }
    }
    forall bits: seq<bool> | (forall b: seq<bool>, pos: nat :: !ReadSym(sizes, b, pos).Bad?) && |bits| == MAX_CODE_SIZE
      ensures exists s: nat :: Used(sizes, s) && Codeword(sizes, s) <= bits
    {
      assert !ReadSym(sizes, bits, 0).Bad?;
      var s: nat :| CodeAt(sizes, bits, 0, s);
      assert bits[0..] == bits;
    }
  }

  function Aligned(pos: nat): nat {
    (pos + 7) / 8 * 8
  }

  // The fixed codes of RFC 1951 section 3.2.6.
  function StaticLitSize(i: nat): nat {
    if i < 144 then 8 else if i < 256 then 9 else if i < 280 then 7 else 8
  }

  function StaticLit(): (r: seq<nat>)
    ensures |r| == 288 && forall i :: 0 <= i < 288 ==> r[i] == StaticLitSize(i)
  {
    seq(288, i requires 0 <= i < 288 => StaticLitSize(i))
  }

  function StaticDist(): (r: seq<nat>)
    ensures |r| == 32 && forall i :: 0 <= i < 32 ==> r[i] == 5
  {
    seq(32, _ => 5)
  }

  // s_length_dezigzag
  const DEZIGZAG: seq<nat> := [16, 17, 18, 0, 8, 7, 9, 6, 10, 5, 11, 4, 12, 3, 13, 2, 14, 1, 15]

  function Dezigzag(i: nat): (s: nat)
    requires i < 19
    ensures s < 19
  {
    DEZIGZAG[i]
  }

  function FieldBits(i: nat): nat {
    if i < 2 then 5 else 4
  }

  // s_min_table_sizes
  function FieldBase(i: nat): nat {
    if i == 0 then 257 else if i == 1 then 1 else 4
  }

  // Sizes of the code-length codes, put in symbol order.
  function ClArray(got: seq<nat>): (r: seq<nat>)
    requires |got| <= 19
    ensures |r| == 19
  {
    if got == [] then seq(19, _ => 0)
    else ClArray(got[..|got| - 1])[Dezigzag(|got| - 1) := got[|got| - 1]]
  }

  function EndBlock(fin: bool): State {
    if fin then Done else BlockHead
  }

  function RawLength(head: seq<nat>): nat
    requires |head| == 4
  {
    head[0] + 256 * head[1]
  }

  function AfterRawHead(fin: bool, head: seq<nat>): State {
    if |head| < 4 then RawHead(fin, head)
    else if |head| == 4 && RawLength(head) + head[2] + 256 * head[3] == 0xFFFF then RawBody(fin, RawLength(head))
    else Failed
  }

  ghost function AfterLens(fin: bool, ts: seq<nat>, got: seq<nat>): State
    requires |ts| == 3
  {
    if |got| == ts[0] + ts[1] && Decodable(got[..ts[0]]) &&
        Decodable(got[ts[0]..]) then Sym(fin, got[..ts[0]], got[ts[0]..])
    else Failed
  }

  function StartCopy(fin: bool, ls: seq<nat>, ds: seq<nat>, len: nat, dist: nat, have: nat): State {
    if dist > have then Failed else if dist == 0 then Malformed else Copy(fin, ls, ds, len, dist)
  }

  ghost predicate AllAtMost(s: seq<nat>, n: nat) {
    forall i :: 0 <= i < |s| ==> s[i] <= n
  }

  // HLIT + 257, HDIST + 1 and HCLEN + 4.
  ghost predicate TableSizesOK(ts: seq<nat>) {
    |ts| == 3 && 257 <= ts[0] <= 288 && 1 <= ts[1] <= 32 && 4 <= ts[2] <= 19
  }

  ghost predicate SomeSizesOK(ts: seq<nat>) {
    (|ts| > 0 ==> 257 <= ts[0] <= 288) && (|ts| > 1 ==> 1 <= ts[1] <= 32)
  }

  ghost predicate ClOK(cl: seq<nat>) {
    |cl| == 19 && Decodable(cl)
  }

  ghost predicate CodesOK(ls: seq<nat>, ds: seq<nat>) {
    Decodable(ls) && Decodable(ds) && |ds| <= 32
  }

  // What the states hold.
  ghost predicate WellFormed(st: State, have: nat)
  {
    && (st.RawHead? ==> |st.head| < 4)
    && (st.TableSizes? ==> |st.ts| < 3 && SomeSizesOK(st.ts))
    && (st.ClSizes? ==> TableSizesOK(st.ts) && |st.got| <= st.ts[2] && AllAtMost(st.got, 7))
    && (st.Lens? || st.LensRepeat? ==> TableSizesOK(st.ts) && ClOK(st.cl) && AllAtMost(st.got, 15))
    && (st.Lens? ==> |st.got| <= st.ts[0] + st.ts[1] + 137)
    && (st.LensRepeat? ==>
          && |st.got| < st.ts[0] + st.ts[1]
          && 16 <= st.code <= 18 && (st.code == 16 ==> st.got != []))
    && (st.Sym? || st.Emit? || st.LenBits? || st.Dist? || st.DistBits? || st.Copy? ==> CodesOK(st.ls, st.ds))
    && (st.LenBits? ==> st.row < 31)
    && (st.DistBits? ==> st.row < 32)
    && (st.Copy? ==> 1 <= st.dist <= have && st.dist <= LZ_DICT_SIZE)
  }

  ghost predicate Good(m: Machine)
  {
    WellFormed(m.st, |m.out|)
  }

  datatype Outcome = Next(m: Machine) | Wait | Stop

  // After a block header (r holds its three bits).
  function AfterHead(m: Machine, r: Read): Outcome {
    if !r.Got? then Wait
    else if r.value / 2 == 0 then Next(Machine(RawHead(r.value % 2 == 1, []), Aligned(r.pos), m.out))
    else if r.value / 2 == 1 then Next(Machine(Sym(r.value % 2 == 1, StaticLit(), StaticDist()), r.pos, m.out))
    else if r.value / 2 == 2 then Next(Machine(TableSizes(r.value % 2 == 1, []), r.pos, m.out))
    else Next(Machine(Failed, r.pos, m.out))
  }

  function AfterField(m: Machine, fin: bool, ts: seq<nat>): State {
    if |ts| < 3 then TableSizes(fin, ts) else ClSizes(fin, ts, [])
  }

  ghost function AfterClSizes(fin: bool, ts: seq<nat>, cl: seq<nat>): State
    requires |ts| == 3
  {
    if Decodable(cl) then Lens(fin, ts[2 := 19], cl, []) else Failed
  }

  function AfterLenCode(m: Machine, fin: bool, ts: seq<nat>, cl: seq<nat>, got: seq<nat>, r: Read): Outcome {
    if r.Bad? then Next(Machine(Malformed, m.pos, m.out))
    else if r.Starved? then Wait
    else if r.value < 16 then Next(Machine(Lens(fin, ts, cl, got + [r.value]), r.pos, m.out))
    else if r.value == 16 && got == [] then Next(Machine(Failed, r.pos, m.out))
    else Next(Machine(LensRepeat(fin, ts, cl, got, r.value), r.pos, m.out))
  }

  function AfterSym(m: Machine, fin: bool, ls: seq<nat>, ds: seq<nat>, r: Read): Outcome {
    if r.Bad? then Next(Machine(Malformed, m.pos, m.out))
    else if r.Starved? then Wait
    else if r.value < 256 then Next(Machine(Emit(fin, ls, ds, r.value), r.pos, m.out))
    else if r.value == 256 then Next(Machine(EndBlock(fin), r.pos, m.out))
    else if r.value >= 288 then Next(Machine(Malformed, r.pos, m.out))
    else if RowLengthExtra(r.value - 257) == 0
        then Next(Machine(Dist(fin, ls, ds, RowLength(r.value - 257)), r.pos, m.out))
    else Next(Machine(LenBits(fin, ls, ds, r.value - 257), r.pos, m.out))
  }

  function AfterDist(m: Machine, fin: bool, ls: seq<nat>, ds: seq<nat>, len: nat, r: Read): Outcome {
    if r.Bad? then Next(Machine(Malformed, m.pos, m.out))
    else if r.Starved? then Wait
    else if r.value >= 32 then Next(Machine(Malformed, r.pos, m.out))
    else if RowDistExtra(r.value) == 0
        then Next(Machine(StartCopy(fin, ls, ds, len, RowDist(r.value), |m.out|), r.pos, m.out))
    else Next(Machine(DistBits(fin, ls, ds, len, r.value), r.pos, m.out))
  }

  function Then(m: Machine, r: Read, st: State): Outcome {
    if r.Got? then Next(Machine(st, r.pos, m.out)) else Wait
  }

  function ValueOf(r: Read): nat {
    if r.Got? then r.value else 0
  }

  function RawStep(bits: seq<bool>, m: Machine): Outcome
    requires m.st.RawHead? || m.st.RawBody? || m.st.RawOut?
  {
    var st, r := m.st, ReadBits(bits, m.pos, 8);
    if st.RawHead? then Then(m, r, AfterRawHead(st.fin, st.head + [ValueOf(r)]))
    else if st.RawOut? then Next(Machine(RawBody(st.fin, st.left), m.pos, m.out + [st.b]))
    else if st.left == 0 then Next(Machine(EndBlock(st.fin), m.pos, m.out))
    else Then(m, r, RawOut(st.fin, st.left - 1, ValueOf(r) % 256))
  }

  ghost function TableStep(bits: seq<bool>, m: Machine): Outcome
    requires m.st.TableSizes? || m.st.ClSizes? || m.st.Lens? || m.st.LensRepeat?
    requires WellFormed(m.st, |m.out|)
  {
    var st := m.st;
    if st.TableSizes? then
      var r := ReadBits(bits, m.pos, FieldBits(|st.ts|));
      Then(m, r, AfterField(m, st.fin, st.ts + [ValueOf(r) + FieldBase(|st.ts|)]))
    else if st.ClSizes? then
      var r := ReadBits(bits, m.pos, 3);
      if |st.got| < st.ts[2] then Then(m, r, ClSizes(st.fin, st.ts, st.got + [ValueOf(r)]))
      else Next(Machine(AfterClSizes(st.fin, st.ts, ClArray(st.got)), m.pos, m.out))
    else if st.Lens? then
      if |st.got| >= st.ts[0] + st.ts[1] then Next(Machine(AfterLens(st.fin, st.ts, st.got), m.pos, m.out))
      else AfterLenCode(m, st.fin, st.ts, st.cl, st.got, ReadSym(st.cl, bits, m.pos))
    else
      var r := ReadBits(bits, m.pos, ExtraBits(st.code));
      Then(m, r, Lens(st.fin, st.ts, st.cl, st.got + Expansion(Item(st.code, ValueOf(r)), st.got)))
  }

  ghost function DataStep(bits: seq<bool>, m: Machine): Outcome
    requires m.st.Sym? || m.st.Emit? || m.st.LenBits? || m.st.Dist? || m.st.DistBits? || m.st.Copy?
    requires WellFormed(m.st, |m.out|)
  {
    var st, ls, ds := m.st, m.st.ls, m.st.ds;
    if st.Sym? then AfterSym(m, st.fin, ls, ds, ReadSym(ls, bits, m.pos))
    else if st.Emit? then Next(Machine(Sym(st.fin, ls, ds), m.pos, m.out + [st.b]))
    else if st.LenBits? then
      var r := ReadBits(bits, m.pos, RowLengthExtra(st.row));
      Then(m, r, Dist(st.fin, ls, ds, RowLength(st.row) + ValueOf(r)))
    else if st.Dist? then AfterDist(m, st.fin, ls, ds, st.len, ReadSym(ds, bits, m.pos))
    else if st.DistBits? then
      var r := ReadBits(bits, m.pos, RowDistExtra(st.row));
      Then(m, r, StartCopy(st.fin, ls, ds, st.len, RowDist(st.row) + ValueOf(r), |m.out|))
    else if st.len == 0 then Next(Machine(Sym(st.fin, ls, ds), m.pos, m.out))
    else Next(Machine(Copy(st.fin, ls, ds, st.len - 1, st.dist), m.pos, m.out + [m.out[|m.out| - st.dist]]))
  }

  // One step; Wait when the bits needed have not arrived, Stop in a final state.
  ghost function Step(bits: seq<bool>, m: Machine): (r: Outcome)
    requires Good(m)
  {
    if m.st.BlockHead? then AfterHead(m, ReadBits(bits, m.pos, 3))
    else if m.st.RawHead? || m.st.RawBody? || m.st.RawOut? then RawStep(bits, m)
    else if m.st.TableSizes? || m.st.ClSizes? || m.st.Lens? || m.st.LensRepeat? then TableStep(bits, m)
    else if m.st.Done? || m.st.Failed? || m.st.Malformed? then Stop
    else DataStep(bits, m)
  }
}
