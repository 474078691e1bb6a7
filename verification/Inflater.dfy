// The resumable decompressor (kernel/miniz/miniz.c:2245-2820).  A call stops wherever input
// or room runs out and the next call goes on from there; every call follows the steps of the
// inflate machine.
module Inflater {
  import opened Arith
  import opened Bits
  import opened Canonical
  import opened FastTable
  import opened CodeSizeRle
  import opened Tokens
  import opened InflateMachine
  import opened InflateRun
  import opened InflateWait
  import opened BitWriter
  import opened BlockDecode
  import opened InflateBits
  import opened InflateOut
  import opened InflateSteps

  // One of the three Huffman tables.
  class HuffTable {
    const lookUp: array<int>
    const tree: array<int>
    var sizes: seq<nat>
    ghost var paths: seq<seq<bool>>

    ghost predicate Built()
      reads this, lookUp, tree
    {
      && lookUp.Length == FAST_LOOKUP_SIZE && tree.Length == TREE_SIZE
      && Decodable(sizes) && Table(sizes, |sizes|, lookUp[..], tree[..], paths)
    }

    constructor ()
      ensures lookUp.Length == FAST_LOOKUP_SIZE && tree.Length == TREE_SIZE && fresh(lookUp) && fresh(tree) &&
              sizes == []
    {
      lookUp := new int[FAST_LOOKUP_SIZE](_ => 0);
      tree := new int[TREE_SIZE](_ => 0);
      sizes, paths := [], [];
    }

    // Source lines 2513-2572 for one table.
    method Build(s: seq<nat>) returns (ok: bool)
      requires Bounded(MAX_CODE_SIZE, s) && |s| <= MAX_HUFF_SYMBOLS && lookUp != tree
      requires lookUp.Length == FAST_LOOKUP_SIZE && tree.Length == TREE_SIZE
      modifies this, lookUp, tree
      ensures sizes == s && (ok <==> Decodable(s)) && (ok ==> Built())
    {
      hide Decodable, Table, Bounded;
      sizes := s;
      ok, paths := BuildTable(s, lookUp, tree);
    }

    // The test of TINFL_HUFF_BITBUF_FILL: are the n buffered bits enough for the next symbol?
    method Enough(bitBuf: nat, n: nat, ghost stream: seq<bool>, ghost pos: nat, ghost k: nat, ghost s: nat)
      returns (found: bool)
      requires Built() && Buffered(stream, pos, k, bitBuf, n) && Used(sizes, s) && At(stream, pos, Codeword(sizes, s))
      ensures found <==> sizes[s] <= n
    {
      hide Table, Decodable, Codeword, LsbBits, LsbValue, Chain, Pow2, Buffered;
      ghost var L, T := lookUp[..], tree[..];
      ShortIsNext(sizes, L, T, paths, stream, pos, k, bitBuf, n, s);
      var temp := lookUp[bitBuf % FAST_LOOKUP_SIZE];
      if sizes[s] <= n && sizes[s] <= FAST_LOOKUP_BITS {
        BufferedCode(stream, pos, k, bitBuf, n, Codeword(sizes, s));
        LowBits(bitBuf, sizes[s]);
        ShortEntry(sizes, L, T, paths, s, bitBuf % FAST_LOOKUP_SIZE);
      }
      if temp >= 0 {
        var codeLen := temp / 512;
        found := codeLen != 0 && n >= codeLen;
        if sizes[s] <= n && sizes[s] > FAST_LOOKUP_BITS {
          ghost var ks := LongLookup(stream, pos, k, bitBuf, n, s);
        }
      } else if n > FAST_LOOKUP_BITS {
        TreeIsNext(sizes, L, T, paths, stream, pos, k, bitBuf, n, s);
        found := Walk(temp, bitBuf, n, stream, pos, k, s);
      } else {
        found := false;
        if n == FAST_LOOKUP_BITS {
          TreeIsNext(sizes, L, T, paths, stream, pos, k, bitBuf, n, s);
        }
      }
    }

    // With ten bits of a long code buffered, the lookup leads into the tree.
    lemma LongLookup(stream: seq<bool>, pos: nat, k: nat, bitBuf: nat, n: nat, s: nat) returns (ks: seq<nat>)
      requires Built() && Buffered(stream, pos, k, bitBuf, n) && Used(sizes, s) && At(stream, pos, Codeword(sizes, s))
      requires n >= FAST_LOOKUP_BITS && sizes[s] > FAST_LOOKUP_BITS
      ensures ks != [] && lookUp[bitBuf % FAST_LOOKUP_SIZE] == NodeName(ks[0])
      ensures var c := Codeword(sizes, s);
              && Chain(tree[..], paths, c[..|c| - 1], ks) && |ks| == |c| - FAST_LOOKUP_BITS
              && 2 * ks[|ks| - 1] + Bit(c[|c| - 1]) < TREE_SIZE && tree[2 * ks[|ks| - 1] + Bit(c[|c| - 1])] == s
    {
      hide Table, Decodable, Codeword, LsbBits, LsbValue, Chain, Pow2, Buffered;
      var c := Codeword(sizes, s);
      ks := LongChain(sizes, lookUp[..], tree[..], paths, s);
      var q := c[..FAST_LOOKUP_BITS];
      assert stream[pos..pos + |c|][..FAST_LOOKUP_BITS] == stream[pos..pos + FAST_LOOKUP_BITS];
      BufferedCode(stream, pos, k, bitBuf, n, q);
      LowTen(bitBuf, q);
    }

    // The tree steps of the test.
    method Walk(temp0: int, bitBuf: nat, n: nat, ghost stream: seq<bool>, ghost pos: nat, ghost k: nat, ghost s: nat)
      returns (found: bool)
      requires Built() && Buffered(stream, pos, k, bitBuf, n) && Used(sizes, s) && At(stream, pos, Codeword(sizes, s))
      requires n > FAST_LOOKUP_BITS && sizes[s] > FAST_LOOKUP_BITS && temp0 == lookUp[bitBuf % FAST_LOOKUP_SIZE] < 0
      ensures found <==> sizes[s] <= n
    {
      hide Table, Decodable, Codeword, LsbBits, LsbValue, Chain, Pow2, Buffered, High;
      ghost var ks := LongLookup(stream, pos, k, bitBuf, n, s);
      ghost var c := Codeword(sizes, s);
      var temp, codeLen := temp0, FAST_LOOKUP_BITS;
      ghost var j := 0;
      while true
        invariant 0 <= j < |ks| && codeLen == FAST_LOOKUP_BITS + j < n && temp == NodeName(ks[j])
        decreases |ks| - j
      {
        BufferedBit(stream, pos, k, bitBuf, n, codeLen, c);
        if j + 1 < |ks| {
          ChainStep(tree[..], paths, c, ks, j);
        }
        temp := tree[-temp - 1 + High(bitBuf, codeLen) % 2];
        codeLen := codeLen + 1;
        if !(temp < 0 && n >= codeLen + 1) {
          break;
        }
        j := j + 1;
      }
      found := temp >= 0;
    }
  }

  // Where a call may have stopped; the numbers are the source's values of m_state.
  datatype Point =
    | AtHead        // 3
    | AtRawHeader   // 6, 7
    | AtRawBits     // 51
    | AtRawByte     // 52
    | AtRawCopy     // 9, 38
    | AtFields      // 11
    | AtClSizes     // 14
    | AtCode        // 16
    | AtRepeat      // 18
    | AtSymbol      // 23
    | AtLiteral     // 24
    | AtLenExtra    // 25
    | AtDist        // 26
    | AtDistExtra   // 27
    | AtCopy        // 53
    | AtDone        // 34
    | AtFailed      // 10, 17, 21, 35, 37, 39

  // How a piece of the coroutine ends: it goes on, or it needs input or room.
  datatype Verdict = Continue | NeedInput | NeedRoom

  // tinfl_status
  datatype Status = Finished | Broken | NeedsMoreInput | CannotMakeProgress | HasMoreOutput

  class Decompressor {
    const t0: HuffTable
    const t1: HuffTable
    const t2: HuffTable
    // The caller's output buffer, and whether it is used as a ring.
    const buf: array<Byte>
    const wrap: bool

    var point: Point
    var numBits: nat
    var bitBuf: nat
    var dist: nat
    var counter: nat
    var numExtra: nat
    var final: bool
    var rawHeader: seq<nat>
    var tableSizes: seq<nat>
    var lenCodes: seq<nat>

    // Locals of a call: its input, and the cursors into both buffers.
    var input: seq<Byte>
    var inCur: nat
    var outCur: nat
    var outEnd: nat

    // The whole stream, the machine's state, and the run that is still ahead of it.
    ghost var stream: seq<bool>
    ghost var m: Machine
    ghost var left: nat
    ghost var goal: Machine
    // Bytes of the stream taken by earlier calls.
    ghost var taken: nat
    // Output bytes that lie before the start of the buffer.
    ghost var outBase: nat
    ghost var got: seq<nat>
    ghost var row: nat

    ghost predicate Shape()
    {
      && t0 != t1 && t0 != t2 && t1 != t2
      && {t0.lookUp, t0.tree} !! {t1.lookUp, t1.tree, t2.lookUp, t2.tree} &&
        {t1.lookUp, t1.tree} !! {t2.lookUp, t2.tree}
      && t0.lookUp != t0.tree && t1.lookUp != t1.tree && t2.lookUp != t2.tree
      && t0.lookUp.Length == t1.lookUp.Length == t2.lookUp.Length == FAST_LOOKUP_SIZE
      && t0.tree.Length == t1.tree.Length == t2.tree.Length == TREE_SIZE
    }

    // The machine state that the saved fields stand for.
    ghost function Abstract(): State
      reads `point, `dist, `counter, `final, `rawHeader, `tableSizes, `lenCodes, `got, `row, t0`sizes, t1`sizes,
            t2`sizes
    {
      match point
      case AtHead => BlockHead
      case AtRawHeader => RawHead(final, rawHeader)
      case AtRawBits => RawBody(final, counter)
      case AtRawByte => if counter > 0 then RawOut(final, counter - 1, dist % 256) else Malformed
      case AtRawCopy => RawBody(final, counter)
      case AtFields => TableSizes(final, tableSizes)
      case AtClSizes => ClSizes(final, tableSizes, got)
      case AtCode => Lens(final, tableSizes, t2.sizes, lenCodes)
      case AtRepeat => LensRepeat(final, tableSizes, t2.sizes, lenCodes, dist)
      case AtSymbol => Sym(final, t0.sizes, t1.sizes)
      case AtLiteral => Emit(final, t0.sizes, t1.sizes, counter % 256)
      case AtLenExtra => LenBits(final, t0.sizes, t1.sizes, row)
      case AtDist => Dist(final, t0.sizes, t1.sizes, counter)
      case AtDistExtra => DistBits(final, t0.sizes, t1.sizes, counter, row)
      case AtCopy => Copy(final, t0.sizes, t1.sizes, counter + 1, dist)
      case AtDone => Done
      case AtFailed => Failed
    }

    // What the fields must be apart from standing for the machine's state.
    ghost predicate Fields()
      reads `point, `dist, `counter, `numExtra, `tableSizes, `got, `row, t0, t1, t2
      reads t0.lookUp, t0.tree, t1.lookUp, t1.tree, t2.lookUp, t2.tree
    {
      && (point.AtClSizes? ==> |got| <= 19 && t2.sizes == ClArray(got) && counter == |got|)
      && (point.AtCode? || point.AtRepeat? ==> t2.Built())
      && (Decoding(point) ==> t0.Built() && t1.Built())
      && (point.AtLenExtra? ==>
          row < 31 && counter == RowLength(row) && numExtra == RowLengthExtra(row) && numExtra > 0)
      && (point.AtDistExtra? ==> row < 32 && dist == RowDist(row) && numExtra == RowDistExtra(row) && numExtra > 0)
    }

    // Stored blocks are read in whole bytes.
    ghost predicate Whole()
      reads `point, `numBits
    {
      && (point.AtRawBits? || point.AtRawByte? || point.AtRawHeader? ==> numBits % 8 == 0)
      && (point.AtRawCopy? || point.AtDone? ==> numBits == 0)
    }

    static predicate Decoding(p: Point) {
      p.AtSymbol? || p.AtLiteral? || p.AtLenExtra? || p.AtDist? || p.AtDistExtra? || p.AtCopy?
    }

    // Stream position: the end of the last byte once the stream is done.
    ghost function Position(): nat
      reads `point, `m
    {
      if point.AtDone? then Aligned(m.pos) else m.pos
    }

    // The bit buffer holds the bits from pos on that have been read, never more than 61.
    ghost predicate BitsHeld(pos: nat)
      reads `stream, `taken, `inCur, `bitBuf, `numBits, `input
    {
      && Buffered(stream, pos, taken + inCur, bitBuf, numBits) && numBits <= 61
      && inCur <= |input| && 8 * (taken + |input|) <= |stream|
    }

    ghost predicate InputIs()
      reads `stream, `taken, `input
    {
      8 * (taken + |input|) <= |stream| && forall i :: 0 <= i < |input| ==> input[i] == ByteAt(stream, taken + i)
    }

    // No byte was taken before it was needed.
    ghost predicate Thrifty()
      reads `stream, `taken, `m
    {
      Frugal(stream, taken, m)
    }

    ghost predicate Running()
      reads `stream, `m, `left, `goal
    {
      Ends(stream, m, left, goal) && (wrap ==> goal.st.Done?)
    }

    ghost predicate OutputIs()
      reads `m, `outCur, `outEnd, `outBase, buf
    {
      Mirror(buf[..], outCur, wrap, m.out) && outCur <= outEnd <= buf.Length && |m.out| == outBase + outCur
    }

    ghost predicate Inv()
      reads this, buf, t0, t1, t2, t0.lookUp, t0.tree, t1.lookUp, t1.tree, t2.lookUp, t2.tree
    {
      && Shape() && m.st == Abstract() && Fields() && Whole() && BitsHeld(Position()) && InputIs()
      && Running() && OutputIs() && Thrifty()
    }

    // tinfl_init, and what the first call resets.  The stream and its run are known only to
    // the proof.
    constructor (out: array<Byte>, ring: bool, ghost s: seq<bool>, ghost k: nat, ghost f: Machine)
      requires ring ==> out.Length >= LZ_DICT_SIZE
      requires Ends(s, Machine(BlockHead, 0, []), k, f) && (ring ==> f.st.Done?)
      ensures Inv() && buf == out && wrap == ring && m == Machine(BlockHead, 0, []) && stream == s && left == k &&
              goal == f
      ensures taken == 0 && outCur == 0 && inCur == 0 && input == [] && point == AtHead
      ensures fresh(t0) && fresh(t1) && fresh(t2) && fresh(t0.lookUp) && fresh(t0.tree)
      ensures fresh(t1.lookUp) && fresh(t1.tree) && fresh(t2.lookUp) && fresh(t2.tree)
    {
      t0 := new HuffTable();
      t1 := new HuffTable();
      t2 := new HuffTable();
      buf, wrap := out, ring;
      point, numBits, bitBuf, dist, counter, numExtra, final := AtHead, 0, 0, 0, 0, 0, false;
      rawHeader, tableSizes, lenCodes := [], [], [];
      input, inCur, outCur, outEnd := [], 0, 0, 0;
      stream, m, left, goal, taken, outBase, got, row := s, Machine(BlockHead, 0, []), k, f, 0, 0, [], 0;
    }

    // -------------------------------------------------------------------------------
    // Bits.

    // TINFL_NEED_BITS
    method NeedBits(n: nat, ghost pos: nat) returns (ok: bool)
      requires BitsHeld(pos) && InputIs() && numBits < n <= 16
      modifies `inCur, `bitBuf, `numBits
      ensures BitsHeld(pos) && (ok ==> numBits >= n) && (!ok ==> inCur == |input| && numBits < n)
    {
      hide LsbValue, Pow2;
      ok := true;
      while true
        invariant BitsHeld(pos) && numBits < n
        decreases |input| - inCur
      {
        if inCur >= |input| {
          return false;
        }
        BufferedByte(stream, pos, taken + inCur, bitBuf, numBits);
        var c: nat := input[inCur];
        inCur := inCur + 1;
        bitBuf := bitBuf + c * Pow2(numBits);
        numBits := numBits + 8;
        if numBits >= n {
          break;
        }
      }
    }

    // TINFL_GET_BITS
    method GetBits(n: nat, ghost pos: nat) returns (ok: bool, v: nat)
      requires BitsHeld(pos) && InputIs() && n <= 16 && pos + n <= |stream|
      modifies `inCur, `bitBuf, `numBits
      ensures ok ==> BitsHeld(pos + n) && v == Field(stream, pos, n)
      ensures !ok ==> BitsHeld(pos) && inCur == |input| && numBits < n
      ensures old(numBits) >= n ==> ok && numBits == old(numBits) - n
    {
      hide LsbValue, Low, High;
      ok, v := true, 0;
      if numBits < n {
        ok := NeedBits(n, pos);
        if !ok {
          return;
        }
      }
      BufferedTake(stream, pos, taken + inCur, bitBuf, numBits, n);
      v := Low(bitBuf, n);
      bitBuf := High(bitBuf, n);
      numBits := numBits - n;
    }

    // TINFL_HUFF_BITBUF_FILL: no byte is read beyond those the symbol needs.
    method FillForSymbol(t: HuffTable, ghost pos: nat, ghost s: nat) returns (ok: bool)
      requires BitsHeld(pos) && InputIs() && t.Built() && numBits < 15
      requires Used(t.sizes, s) && At(stream, pos, Codeword(t.sizes, s)) && pos + t.sizes[s] <= |stream|
      modifies `inCur, `bitBuf, `numBits
      ensures BitsHeld(pos) && (ok ==> numBits >= t.sizes[s]) && (!ok ==> inCur == |input| && numBits < t.sizes[s])
    {
      hide LsbValue, Pow2, Codeword, Table;
      DecodableSmall(t.sizes);
      SizeAtMost(t.sizes, s);
      ok := true;
      while true
        invariant BitsHeld(pos) && numBits < 15
        decreases |input| - inCur
      {
        var found := t.Enough(bitBuf, numBits, stream, pos, taken + inCur, s);
        if found {
          break;
        }
        if inCur >= |input| {
          return false;
        }
        BufferedByte(stream, pos, taken + inCur, bitBuf, numBits);
        var c: nat := input[inCur];
        inCur := inCur + 1;
        bitBuf := bitBuf + c * Pow2(numBits);
        numBits := numBits + 8;
        if numBits >= 15 {
          break;
        }
      }
    }

    // TINFL_HUFF_DECODE
    method HuffDecode(t: HuffTable, ghost pos: nat, ghost s: nat) returns (ok: bool, sym: nat)
      requires BitsHeld(pos) && InputIs() && t.Built()
      requires Used(t.sizes, s) && At(stream, pos, Codeword(t.sizes, s)) && pos + t.sizes[s] <= |stream|
      modifies `inCur, `bitBuf, `numBits
      ensures ok ==> BitsHeld(pos + t.sizes[s]) && sym == s
      ensures !ok ==> BitsHeld(pos) && inCur == |input| && numBits < t.sizes[s]
    {
      hide LsbValue, Pow2, Codeword, Table, LsbBits;
      DecodableSmall(t.sizes);
      SizeAtMost(t.sizes, s);
      ok, sym := true, 0;
      if numBits < 15 {
        if |input| - inCur < 2 {
          ok := FillForSymbol(t, pos, s);
          if !ok {
            return;
          }
        } else {
          TwoMore(pos);
        }
      }
      sym := DecodeNext(t, pos, s);
    }

    // The lookahead of two bytes at once.
    method TwoMore(ghost pos: nat)
      requires BitsHeld(pos) && InputIs() && |input| - inCur >= 2 && numBits <= 45
      modifies `inCur, `bitBuf, `numBits
      ensures BitsHeld(pos) && numBits == old(numBits) + 16 && inCur == old(inCur) + 2
    {
      hide LsbValue, Pow2;
      BufferedByte(stream, pos, taken + inCur, bitBuf, numBits);
      var a: nat, b: nat := input[inCur], input[inCur + 1];
      BufferedByte(stream, pos, taken + inCur + 1, bitBuf + a * Pow2(numBits), numBits + 8);
      bitBuf := bitBuf + a * Pow2(numBits) + b * Pow2(numBits + 8);
      inCur := inCur + 2;
      numBits := numBits + 16;
    }

    // The lookup proper, with enough bits at hand.
    method DecodeNext(t: HuffTable, ghost pos: nat, ghost s: nat) returns (sym: nat)
      requires BitsHeld(pos) && t.Built() && Used(t.sizes, s) && At(stream, pos, Codeword(t.sizes, s)) &&
               t.sizes[s] <= numBits
      modifies `bitBuf, `numBits
      ensures BitsHeld(pos + t.sizes[s]) && sym == s && numBits == old(numBits) - t.sizes[s]
    {
      hide LsbValue, Pow2, Codeword, Table, LsbBits, High, Low;
      BufferedCode(stream, pos, taken + inCur, bitBuf, numBits, Codeword(t.sizes, s));
      assert Spells(t.sizes, bitBuf, s);
      var codeLen;
      sym, codeLen := DecodeSymbol(t.sizes, t.lookUp, t.tree, bitBuf, t.paths);
      BufferedTake(stream, pos, taken + inCur, bitBuf, numBits, t.sizes[s]);
      bitBuf := High(bitBuf, codeLen);
      numBits := numBits - codeLen;
    }

    // -------------------------------------------------------------------------------
    // The pieces of the coroutine.

    // What holds when a piece ends.
    ghost predicate Stopped(v: Verdict)
      reads `inCur, `input, `taken, `stream, `m, `outCur, `outEnd
    {
      && (v.NeedInput? ==>
          inCur == |input| && 8 * (taken + inCur) <= |stream| && Good(m) &&
          Step(stream[..8 * (taken + inCur)], m).Wait?)
      && (v.NeedRoom? ==> outCur == outEnd && Owes(m.st))
    }

    // The machine moves along.
    ghost method Move(m': Machine)
      requires Running() && Thrifty() && Follows(stream, m, left, goal, m')
      modifies `m, `left
      ensures m == m' && left == old(left) - 1 && Running() && Thrifty() && old(m.out) <= m.out &&
              Aligned(m.pos) >= 8 * taken
    {
      hide Ends, Follows, Frugal;
      FollowsMeans(stream, m, left, goal, m');
      FrugalStep(stream, taken, m, left, goal, m');
      m := m';
      left := left - 1;
    }

    // The parts of the invariant, put together again.
    lemma Close()
      requires Held(Position()) && m.st == Abstract() && Fields() && Whole()
      ensures Inv()
    {
    }

    // A step that puts no byte out.
    ghost method Glide(m': Machine)
      requires Held(m'.pos) && Follows(stream, m, left, goal, m') && m'.out == m.out
      modifies `m, `left
      ensures m == m' && left == old(left) - 1 && Held(m.pos)
    {
      hide Ends, Follows, Frugal, Mirror, Buffered;
      Move(m');
    }

    // A step that puts one byte out.
    method Deliver(b: Byte, ghost m': Machine)
      requires Held(m'.pos) && Follows(stream, m, left, goal, m') && outCur < outEnd && m'.out == m.out + [b]
      modifies `outCur, `m, `left, buf
      ensures m == m' && left == old(left) - 1 && Held(m.pos) && outCur == old(outCur) + 1
    {
      hide Ends, Follows, Frugal, Mirror, Buffered;
      PutByte(b);
      Move(m');
    }

    // The next output byte.
    method PutByte(b: Byte)
      requires Mirror(buf[..], outCur, wrap, m.out) && outCur < outEnd <= buf.Length
      modifies `outCur, buf
      ensures outCur == old(outCur) + 1 && Mirror(buf[..], outCur, wrap, m.out + [b])
    {
      hide Mirror;
      ghost var was := buf[..];
      MirrorWrite(was, outCur, wrap, m.out, b);
      buf[outCur] := b;
      assert buf[..] == was[outCur := b];
      outCur := outCur + 1;
    }

    // TINFL_SKIP_BITS(n, num_bits & 7)
    method SkipToByte(ghost pos: nat)
      requires BitsHeld(pos)
      modifies `bitBuf, `numBits
      ensures BitsHeld(Aligned(pos)) && numBits % 8 == 0
    {
      hide LsbValue, Pow2, High, Low;
      var n := numBits % 8;
      BufferedTake(stream, pos, taken + inCur, bitBuf, numBits, n);
      bitBuf := High(bitBuf, n);
      numBits := numBits - n;
    }

    // The fixed tables.
    method BuildStatic()
      requires Shape()
      modifies t0, t0.lookUp, t0.tree, t1, t1.lookUp, t1.tree
      ensures t0.Built() && t1.Built() && t0.sizes == StaticLit() && t1.sizes == StaticDist()
    {
      hide Decodable, Table, StaticLit, StaticDist;
      StaticCodes();
      DecodableBounded(StaticLit());
      DecodableBounded(StaticDist());
      var ok := t1.Build(StaticDist());
      ok := t0.Build(StaticLit());
    }

    // The invariant without what ties the fields to the machine's state.
    ghost predicate Held(pos: nat)
      reads `stream, `taken, `inCur, `bitBuf, `numBits, `input, `m, `left, `goal, `outCur, `outEnd, `outBase, buf
    {
      Shape() && BitsHeld(pos) && InputIs() && Running() && OutputIs() && Thrifty()
    }

    lemma Ahead()
      requires Held(m.pos)
      ensures Ends(stream, m, left, goal)
    {
      hide Ends;
    }

    method AlignHeld(ghost pos: nat)
      requires Held(pos)
      modifies `numBits, `bitBuf
      ensures Held(Aligned(pos)) && numBits % 8 == 0
    {
      hide Buffered, Mirror, Ends, Frugal;
      SkipToByte(pos);
    }

    // A stored block begins at the next byte.
    method StartRaw(ghost m': Machine)
      requires Held(m.pos + 3) && Follows(stream, m, left, goal, m') &&
               m' == Machine(RawHead(final, []), Aligned(m.pos + 3), m.out)
      modifies `point, `numBits, `bitBuf, `rawHeader, `m, `left
      ensures Inv() && left < old(left) && m == m'
    {
      hide Ends, Frugal, Follows, Decompressor.Inv, Decompressor.Held;
      AlignHeld(m.pos + 3);
      rawHeader := [];
      point := AtRawHeader;
      Glide(m');
      Close();
    }

    method StartStatic(ghost m': Machine)
      requires Held(m.pos + 3) && Follows(stream, m, left, goal, m') &&
               m' == Machine(Sym(final, StaticLit(), StaticDist()), m.pos + 3, m.out)
      modifies `point, `m, `left, t0, t0.lookUp, t0.tree, t1, t1.lookUp, t1.tree
      ensures Inv() && left < old(left) && m == m'
    {
      hide LsbValue, Buffered, Mirror, Ends, Frugal, Follows, StaticLit, StaticDist, Table, Decodable;
      BuildStatic();
      point := AtSymbol;
      Move(m');
    }

    method StartFields(ghost m': Machine)
      requires Held(m.pos + 3) && Follows(stream, m, left, goal, m') &&
               m' == Machine(TableSizes(final, []), m.pos + 3, m.out)
      modifies `point, `tableSizes, `m, `left
      ensures Inv() && left < old(left) && m == m'
    {
      hide LsbValue, Buffered, Mirror, Ends, Frugal, Follows;
      tableSizes := [];
      point := AtFields;
      Move(m');
    }

    // The states a failed stream never leaves.
    method Fail(ghost m': Machine)
      requires Held(m'.pos) && Follows(stream, m, left, goal, m') && m'.st.Failed? && m'.out == m.out
      modifies `point, `m, `left
      ensures Inv() && left < old(left) && m == m'
    {
      hide LsbValue, Buffered, Mirror, Ends, Frugal, Follows;
      point := AtFailed;
      Move(m');
    }

    // Source lines 2427-2433, 2473-2494: the block header.
    method ReadHead() returns (v: Verdict)
      requires Inv() && point.AtHead?
      modifies `point, `numBits, `bitBuf, `inCur, `counter, `final, `rawHeader, `tableSizes, `m, `left
      modifies t0, t0.lookUp, t0.tree, t1, t1.lookUp, t1.tree
      ensures Inv() && Stopped(v) && (v.Continue? ==> left < old(left)) && (!v.Continue? ==> left == old(left))
      ensures old(m.out) <= m.out
    {
      hide LsbValue, Buffered, Mirror, Ends, Frugal, Follows, StaticLit, StaticDist, Table, Decodable, Step;
      TakeHead(stream, m, left, goal);
      var ok, x := GetBits(3, m.pos);
      if !ok {
        BufferedEnd(stream, m.pos, taken + inCur, bitBuf, numBits);
        StarvedBits(stream, taken + inCur, m, left, goal);
        return NeedInput;
      }
      v := Continue;
      final := x % 2 == 1;
      var kind := x / 2;
      if kind == 0 {
        StartRaw(Machine(RawHead(final, []), Aligned(m.pos + 3), m.out));
      } else if kind == 3 {
        Fail(Machine(Failed, m.pos + 3, m.out));
      } else if kind == 1 {
        StartStatic(Machine(Sym(final, StaticLit(), StaticDist()), m.pos + 3, m.out));
      } else {
        StartFields(Machine(TableSizes(final, []), m.pos + 3, m.out));
      }
    }

    // Whole bytes of the bit buffer go back to the input (source lines 2777-2782, 2807-2814).
    method PutBack(ghost pos: nat)
      requires BitsHeld(pos)
      modifies `inCur, `numBits, `bitBuf
      ensures BitsHeld(pos) && (inCur == 0 || numBits < 8) && inCur <= old(inCur) && numBits <= old(numBits)
      ensures numBits % 8 == old(numBits) % 8 && (old(numBits) < 8 ==> inCur == old(inCur))
    {
      hide LsbValue, Buffered, Low;
      ghost var value := bitBuf;
      LowAll(stream, pos, taken + inCur, bitBuf, numBits);
      while inCur > 0 && numBits >= 8
        invariant inCur <= old(inCur) && numBits <= old(numBits) && numBits % 8 == old(numBits) % 8
        invariant old(numBits) < 8 ==> inCur == old(inCur)
        invariant inCur <= |input| && bitBuf == old(bitBuf) &&
                  Buffered(stream, pos, taken + inCur, Low(bitBuf, numBits), numBits)
      {
        BufferedBack(stream, pos, taken + inCur, Low(bitBuf, numBits), numBits);
        LowLow(bitBuf, numBits, numBits - 8);
        inCur := inCur - 1;
        numBits := numBits - 8;
      }
      bitBuf := Low(bitBuf, numBits);
    }

    // After a block: the next one, or the end of the stream at a byte boundary with nothing
    // left in the bit buffer (source lines 2772-2783).
    method EndOfBlock(ghost m': Machine)
      requires Held(m'.pos) && Follows(stream, m, left, goal, m') && m'.st == EndBlock(final) && m'.out == m.out
      modifies `point, `inCur, `numBits, `bitBuf, `m, `left
      ensures Inv() && left < old(left) && m == m' && (point.AtDone? ==> numBits == 0)
    {
      hide LsbValue, Buffered, Mirror, Ends, Frugal, Follows;
      Move(m');
      if final {
        FinishStream();
      } else {
        point := AtHead;
      }
    }

    // Put back what was read ahead; the source asserts that nothing remains.
    method FinishStream()
      requires Held(m.pos) && m.st.Done? && Aligned(m.pos) >= 8 * taken
      modifies `point, `inCur, `numBits, `bitBuf
      ensures Inv() && point.AtDone? && numBits == 0
    {
      hide LsbValue, Buffered, Mirror, Ends, Frugal, Aligned;
      SkipToByte(m.pos);
      ghost var n := numBits;
      PutBack(Aligned(m.pos));
      BufferedEnd(stream, Aligned(m.pos), taken + inCur, bitBuf, numBits);
      NothingLeft(n, numBits, taken, inCur, Aligned(m.pos));
      point := AtDone;
    }

    // Source lines 2434-2444: the lengths in front of a stored block.
    method ReadRawHeader() returns (v: Verdict)
      requires Inv() && point.AtRawHeader?
      modifies `point, `numBits, `bitBuf, `inCur, `counter, `rawHeader, `m, `left
      ensures Inv() && Stopped(v) && (v.Continue? ==> left < old(left)) && (!v.Continue? ==> left == old(left)) &&
              old(m.out) <= m.out
    {
      hide LsbValue, Buffered, Mirror, Ends, Frugal, Follows, Step, AfterRawHead, Decompressor.Fields;
      TakeRawHead(stream, m, left, goal);
      var ok, x := ReadRawByte(m.pos);
      if !ok {
        BufferedEnd(stream, m.pos, taken + inCur, bitBuf, numBits);
        StarvedBits(stream, taken + inCur, m, left, goal);
        return NeedInput;
      }
      v := Continue;
      ghost var m' := Machine(AfterRawHead(final, rawHeader + [x]), m.pos + 8, m.out);
      rawHeader := rawHeader + [x];
      RawHeaderRead(m');
    }

    // A byte of a stored block's header, from the bit buffer or straight from the input.
    method ReadRawByte(ghost pos: nat) returns (ok: bool, x: nat)
      requires BitsHeld(pos) && InputIs() && numBits % 8 == 0 && pos + 8 <= |stream|
      modifies `numBits, `bitBuf, `inCur
      ensures ok ==> BitsHeld(pos + 8) && x == Field(stream, pos, 8) && numBits % 8 == 0
      ensures !ok ==> BitsHeld(pos) && inCur == |input| && numBits == 0
    {
      hide LsbValue;
      if numBits != 0 {
        ok, x := GetBits(8, pos);
      } else if inCur >= |input| {
        ok, x := false, 0;
      } else {
        ok, x := true, input[inCur];
        assert stream[pos + 8..8 * (taken + inCur + 1)] == stream[pos..pos] == [];
        inCur := inCur + 1;
      }
    }

    method RawHeaderRead(ghost m': Machine)
      requires Held(m.pos + 8) && Follows(stream, m, left, goal, m') && numBits % 8 == 0
      requires 0 < |rawHeader| <= 4 && m' == Machine(AfterRawHead(final, rawHeader), m.pos + 8, m.out) &&
               point.AtRawHeader?
      modifies `point, `counter, `m, `left
      ensures Inv() && left < old(left) && m == m'
    {
      hide LsbValue, Buffered, Mirror, Ends, Frugal, Follows, Decompressor.Inv, Decompressor.Held;
      if |rawHeader| < 4 {
        Glide(m');
        Close();
      } else {
        counter := rawHeader[0] + 256 * rawHeader[1];
        if counter + (rawHeader[2] + 256 * rawHeader[3]) != 0xFFFF {
          Fail(m');
        } else {
          point := if numBits != 0 then AtRawBits else AtRawCopy;
          Glide(m');
          Close();
        }
      }
    }

    // Source lines 2445-2454: stored bytes that are already in the bit buffer.
    method ReadRawBits() returns (v: Verdict)
      requires Inv() && point.AtRawBits?
      modifies `point, `numBits, `bitBuf, `inCur, `outCur, `dist, `counter, `m, `left, buf
      ensures Inv() && Stopped(v) && (v.Continue? ==> left < old(left)) && (!v.Continue? ==> left <= old(left)) &&
              old(m.out) <= m.out
    {
      hide LsbValue, Buffered, Mirror, Ends, Frugal, Follows, Step;
      if counter == 0 {
        TakeRawEnd(stream, m, left, goal);
        EndOfBlock(Machine(EndBlock(final), m.pos, m.out));
        v := Continue;
      } else if numBits == 0 {
        point := AtRawCopy;
        v := ReadRawCopy();
      } else {
        TakeRawBits();
        v := Continue;
      }
    }

    method TakeRawBits()
      requires Inv() && point.AtRawBits? && counter > 0 && numBits >= 8
      modifies `point, `numBits, `bitBuf, `inCur, `dist, `m, `left
      ensures Inv() && left < old(left) && m.out == old(m.out)
    {
      hide LsbValue, Buffered, Mirror, Ends, Frugal, Follows, Step, Decompressor.Fields, Decompressor.Inv;
      Open();
      TakeRaw(stream, m, left, goal);
      var ok, x := GetBits(8, m.pos);
      RawByteRead(x, Machine(RawOut(final, counter - 1, x % 256), m.pos + 8, m.out));
    }

    method RawByteRead(x: nat, ghost m': Machine)
      requires Held(m'.pos) && Follows(stream, m, left, goal, m') && m'.out == m.out && numBits % 8 == 0 && counter > 0
      requires m'.st == RawOut(final, counter - 1, x % 256)
      modifies `point, `dist, `m, `left
      ensures Inv() && left < old(left) && m == m'
    {
      hide LsbValue, Buffered, Mirror, Ends, Frugal, Follows, Step;
      dist := x;
      point := AtRawByte;
      Move(m');
    }

    method WriteRawByte() returns (v: Verdict)
      requires Inv() && point.AtRawByte?
      modifies `point, `outCur, `counter, `m, `left, buf
      ensures Inv() && Stopped(v) && (v.Continue? ==> left < old(left)) && (!v.Continue? ==> left == old(left)) &&
              old(m.out) <= m.out
    {
      hide LsbValue, Buffered, Mirror, Ends, Frugal, Follows, Step, Decompressor.Fields;
      NotMalformed(stream, m, left, goal);
      if outCur >= outEnd {
        return NeedRoom;
      }
      StoreRawBits(dist % 256);
      v := Continue;
    }

    method StoreRawBits(x: Byte)
      requires Held(m.pos) && counter > 0 && m.st == RawOut(final, counter - 1, x) && outCur < outEnd &&
               numBits % 8 == 0
      modifies `point, `outCur, `counter, `m, `left, buf
      ensures Inv() && left < old(left) && old(m.out) <= m.out
    {
      hide LsbValue, Buffered, Mirror, Ends, Frugal, Follows, Step, Decompressor.Inv, Decompressor.Held;
      Ahead();
      TakeRawOut(stream, m, left, goal);
      counter := counter - 1;
      point := AtRawBits;
      Deliver(x, Machine(RawBody(final, counter), m.pos, m.out + [x]));
      Close();
    }

    // Source lines 2455-2471: the rest of a stored block is copied from input to output.
    method ReadRawCopy() returns (v: Verdict)
      requires Inv() && point.AtRawCopy?
      modifies `point, `inCur, `outCur, `counter, `numBits, `bitBuf, `m, `left, buf
      ensures Inv() && Stopped(v) && (v.Continue? ==> left < old(left)) && (!v.Continue? ==> left <= old(left)) &&
              old(m.out) <= m.out
    {
      hide LsbValue, Buffered, Mirror, Ends, Frugal, Follows, Step;
      if counter == 0 {
        TakeRawEnd(stream, m, left, goal);
        EndOfBlock(Machine(EndBlock(final), m.pos, m.out));
        return Continue;
      }
      if outCur >= outEnd {
        return NeedRoom;
      }
      if inCur >= |input| {
        BufferedEnd(stream, m.pos, taken + inCur, bitBuf, numBits);
        StarvedBits(stream, taken + inCur, m, left, goal);
        return NeedInput;
      }
      var n := Least(Least(outEnd - outCur, |input| - inCur), counter);
      var i := 0;
      while i < n
        invariant i <= n && counter == old(counter) - i && inCur == old(inCur) + i && outCur == old(outCur) + i
        invariant point.AtRawCopy? && Inv() && left <= old(left) - i && old(m.out) <= m.out
      {
        CopyRawByte();
        i := i + 1;
      }
      v := Continue;
    }

    // One byte of the block copy.
    method CopyRawByte()
      requires Inv() && point.AtRawCopy? && counter > 0 && inCur < |input| && outCur < outEnd
      modifies `inCur, `outCur, `counter, `m, `left, buf
      ensures Inv() && left < old(left) && old(m.out) <= m.out && point.AtRawCopy?
      ensures counter == old(counter) - 1 && inCur == old(inCur) + 1 && outCur == old(outCur) + 1
    {
      hide LsbValue, Buffered, Mirror, Ends, Frugal, Follows, Step, Decompressor.Fields;
      TakeRaw(stream, m, left, goal);
      var x := input[inCur];
      StraightByte(stream, m.pos, taken + inCur, bitBuf);
      inCur := inCur + 1;
      Move(Machine(RawOut(final, counter - 1, x), m.pos + 8, m.out));
      StoreRaw(x);
    }

    method StoreRaw(x: Byte)
      requires Held(m.pos) && counter > 0 && m.st == RawOut(final, counter - 1, x) && outCur < outEnd &&
               point.AtRawCopy? && numBits == 0
      modifies `outCur, `counter, `m, `left, buf
      ensures Inv() && left < old(left) && old(m.out) <= m.out && counter == old(counter) - 1 &&
              outCur == old(outCur) + 1
    {
      hide LsbValue, Buffered, Mirror, Ends, Frugal, Follows, Step, Decompressor.Inv, Decompressor.Held;
      Ahead();
      TakeRawOut(stream, m, left, goal);
      counter := counter - 1;
      Deliver(x, Machine(RawBody(final, counter), m.pos, m.out + [x]));
      Close();
    }

    // Source lines 2497-2502: the three sizes of a dynamic header.
    method ReadField() returns (v: Verdict)
      requires Inv() && point.AtFields?
      modifies `point, `numBits, `bitBuf, `inCur, `counter, `tableSizes, `got, `m, `left, t2
      ensures Inv() && Stopped(v) && (v.Continue? ==> left < old(left)) && (!v.Continue? ==> left == old(left)) &&
              old(m.out) <= m.out
    {
      hide LsbValue, Buffered, Mirror, Ends, Frugal, Follows, Step, Decompressor.Fields, AfterField;
      TakeField(stream, m, left, goal);
      var k := |tableSizes|;
      var ok, x := GetBits(FieldBits(k), m.pos);
      if !ok {
        BufferedEnd(stream, m.pos, taken + inCur, bitBuf, numBits);
        StarvedBits(stream, taken + inCur, m, left, goal);
        return NeedInput;
      }
      v := Continue;
      tableSizes := tableSizes + [x + FieldBase(k)];
      FieldRead(Machine(AfterField(m, final, tableSizes), m.pos + FieldBits(k), m.out));
    }

    method FieldRead(ghost m': Machine)
      requires Held(m'.pos) && Follows(stream, m, left, goal, m') && m'.st == AfterField(m, final, tableSizes) &&
               m'.out == m.out
      requires point.AtFields?
      modifies `point, `counter, `got, `m, `left, t2
      ensures Inv() && left < old(left) && m == m'
    {
      hide LsbValue, Buffered, Mirror, Ends, Frugal, Follows;
      if |tableSizes| >= 3 {
        counter := 0;
        got := [];
        t2.sizes := seq(19, _ => 0);
        point := AtClSizes;
      }
      Move(m');
    }

    // Source lines 2503-2509: sizes of the code-length codes.
    method ReadClSize() returns (v: Verdict)
      requires Inv() && point.AtClSizes?
      modifies `point, `numBits, `bitBuf, `inCur, `counter, `tableSizes, `lenCodes, `got, `m, `left, t2, t2.lookUp,
               t2.tree
      ensures Inv() && Stopped(v) && (v.Continue? ==> left < old(left)) && (!v.Continue? ==> left == old(left)) &&
              old(m.out) <= m.out
    {
      hide LsbValue, Buffered, Mirror, Ends, Frugal, Follows, Step, ClArray, AfterClSizes;
      TakeCl(stream, m, left, goal);
      if counter < tableSizes[2] {
        var ok, x := GetBits(3, m.pos);
        if !ok {
          BufferedEnd(stream, m.pos, taken + inCur, bitBuf, numBits);
          StarvedBits(stream, taken + inCur, m, left, goal);
          return NeedInput;
        }
        ClSizeRead(x, Machine(ClSizes(final, tableSizes, got + [x]), m.pos + 3, m.out));
      } else {
        BuildClTable(Machine(AfterClSizes(final, tableSizes, ClArray(got)), m.pos, m.out));
      }
      v := Continue;
    }

    method ClSizeRead(x: nat, ghost m': Machine)
      requires Held(m.pos + 3) && Follows(stream, m, left, goal, m') &&
               m' == Machine(ClSizes(final, tableSizes, got + [x]), m.pos + 3, m.out)
      requires point.AtClSizes? && |got| < 19 && t2.sizes == ClArray(got) && counter == |got|
      modifies `counter, `got, `m, `left, t2`sizes
      ensures Inv() && left < old(left) && m == m'
    {
      hide Ends, Frugal, Follows, ClArray, Decompressor.Inv, Decompressor.Held;
      ClArrayNext(got, x);
      t2.sizes := t2.sizes[Dezigzag(counter) := x];
      counter := counter + 1;
      got := got + [x];
      Glide(m');
      Close();
    }

    method BuildClTable(ghost m': Machine)
      requires Held(m.pos) && Follows(stream, m, left, goal, m') && |tableSizes| == 3 && |got| <= 19 &&
               AllAtMost(got, 7) && t2.sizes == ClArray(got)
      requires m' == Machine(AfterClSizes(final, tableSizes, ClArray(got)), m.pos, m.out)
      modifies `point, `tableSizes, `lenCodes, `m, `left, t2, t2.lookUp, t2.tree
      ensures Inv() && left < old(left) && m == m'
    {
      hide LsbValue, Buffered, Mirror, Ends, Frugal, Follows, ClArray, Decodable, Table, HuffTable.Built,
           Decompressor.Inv;
      ClArrayBound(got);
      tableSizes := tableSizes[2 := 19];
      var ok := t2.Build(t2.sizes);
      if !ok {
        Fail(m');
      } else {
        CodesNext(m');
      }
    }

    method CodesNext(ghost m': Machine)
      requires Held(m'.pos) && Follows(stream, m, left, goal, m') && m'.out == m.out && t2.Built()
      requires m'.st == Lens(final, tableSizes, t2.sizes, [])
      modifies `point, `lenCodes, `m, `left
      ensures Inv() && left < old(left) && m == m'
    {
      hide LsbValue, Buffered, Mirror, Ends, Frugal, Follows, HuffTable.Built;
      lenCodes := [];
      point := AtCode;
      Move(m');
    }

    // -------------------------------------------------------------------------------
    // The packed code sizes.

    // Source lines 2575-2587: one code-length symbol.
    method ReadCode() returns (v: Verdict)
      requires Inv() && point.AtCode?
      modifies `point, `numBits, `bitBuf, `inCur, `dist, `numExtra, `lenCodes, `m, `left
      modifies t0, t0.lookUp, t0.tree, t1, t1.lookUp, t1.tree
      ensures Inv() && Stopped(v) && (v.Continue? ==> left < old(left)) && (!v.Continue? ==> left == old(left)) &&
              old(m.out) <= m.out
    {
      hide LsbValue, Buffered, Mirror, Ends, Frugal, Follows, Step, Table, Decodable, Codeword;
      SizesKnown();
      if |lenCodes| < tableSizes[0] + tableSizes[1] {
        v := ReadCodeSymbol();
      } else {
        TakeLensEnd(stream, m, left, goal);
        EndOfCodes(Machine(AfterLens(final, tableSizes, lenCodes), m.pos, m.out));
        v := Continue;
      }
    }

    lemma SizesKnown()
      requires Running() && m.st == Abstract() && point.AtCode?
      ensures TableSizesOK(tableSizes)
    {
      hide Step, Decodable, AllAtMost;
    }

    method ReadCodeSymbol() returns (v: Verdict)
      requires Inv() && point.AtCode? && TableSizesOK(tableSizes) && |lenCodes| < tableSizes[0] + tableSizes[1]
      modifies `point, `numBits, `bitBuf, `inCur, `dist, `numExtra, `lenCodes, `m, `left
      ensures Inv() && Stopped(v) && (v.Continue? ==> left < old(left)) && (!v.Continue? ==> left == old(left)) &&
              old(m.out) <= m.out
    {
      hide LsbValue, Buffered, Mirror, Ends, Frugal, Follows, Step, Table, Decodable, Codeword, AllAtMost;
      ghost var s := TakeLen(stream, m, left, goal);
      ghost var p := m.pos + t2.sizes[s];
      var ok, x := HuffDecode(t2, m.pos, s);
      if !ok {
        BufferedEnd(stream, m.pos, taken + inCur, bitBuf, numBits);
        StarvedSymbol(stream, taken + inCur, m, left, goal, s);
        return NeedInput;
      }
      v := Continue;
      if x < 16 {
        CodeRead(x, Machine(Lens(final, tableSizes, t2.sizes, lenCodes + [x]), p, m.out));
      } else if x == 16 && |lenCodes| == 0 {
        Fail(Machine(Failed, p, m.out));
      } else {
        RepeatRead(x, Machine(LensRepeat(final, tableSizes, t2.sizes, lenCodes, x), p, m.out));
      }
    }

    method CodeRead(x: nat, ghost m': Machine)
      requires Held(m'.pos) && Follows(stream, m, left, goal, m') && m'.out == m.out && point.AtCode? && t2.Built()
      requires m'.st == Lens(final, tableSizes, t2.sizes, lenCodes + [x])
      modifies `lenCodes, `m, `left
      ensures Inv() && left < old(left) && m == m'
    {
      hide LsbValue, Buffered, Mirror, Ends, Frugal, Follows, HuffTable.Built, Expansion;
      lenCodes := lenCodes + [x];
      Move(m');
    }

    method RepeatRead(x: nat, ghost m': Machine)
      requires Held(m'.pos) && Follows(stream, m, left, goal, m') && m'.out == m.out && point.AtCode? && t2.Built()
      requires m'.st == LensRepeat(final, tableSizes, t2.sizes, lenCodes, x)
      modifies `point, `dist, `numExtra, `m, `left
      ensures Inv() && left < old(left) && m == m'
    {
      hide LsbValue, Buffered, Mirror, Ends, Frugal, Follows, HuffTable.Built, Expansion;
      hide Decompressor.Inv, Decompressor.Held;
      dist := x;
      numExtra := ExtraBits(x);
      point := AtRepeat;
      Glide(m');
      Close();
    }

    // Source lines 2588-2592: the count of a repeat.
    method ReadRepeat() returns (v: Verdict)
      requires Inv() && point.AtRepeat?
      modifies `point, `numBits, `bitBuf, `inCur, `lenCodes, `m, `left
      ensures Inv() && Stopped(v) && (v.Continue? ==> left < old(left)) && (!v.Continue? ==> left == old(left)) &&
              old(m.out) <= m.out
    {
      hide LsbValue, Buffered, Mirror, Ends, Frugal, Follows, Step, Table, Decodable, AllAtMost, Expansion;
      hide Decompressor.Fields, Decompressor.Inv, Decompressor.Stopped;
      Open();
      TakeRepeat(stream, m, left, goal);
      var ok, x := GetBits(ExtraBits(dist), m.pos);
      if !ok {
        StopBits(ExtraBits(dist));
        return NeedInput;
      }
      v := Continue;
      StoppedContinue();
      lenCodes := lenCodes + Expansion(Item(dist, x), lenCodes);
      Repeated(Machine(Lens(final, tableSizes, t2.sizes, lenCodes), m.pos + ExtraBits(dist), m.out));
      StoppedContinue();
    }

    method Repeated(ghost m': Machine)
      requires Held(m'.pos) && Follows(stream, m, left, goal, m') && m'.out == m.out && point.AtRepeat? && Fields()
      requires m'.st == Lens(final, tableSizes, t2.sizes, lenCodes)
      modifies `point, `m, `left
      ensures Inv() && left < old(left) && m == m'
    {
      hide LsbValue, Buffered, Mirror, Ends, Frugal, Follows, HuffTable.Built, Expansion;
      point := AtCode;
      Move(m');
    }

    // Source lines 2594-2599, and the tables built from the sizes received.
    method EndOfCodes(ghost m': Machine)
      requires Held(m.pos) && Follows(stream, m, left, goal, m') && TableSizesOK(tableSizes) && AllAtMost(lenCodes, 15)
      requires |lenCodes| >= tableSizes[0] + tableSizes[1] &&
               m' == Machine(AfterLens(final, tableSizes, lenCodes), m.pos, m.out)
      modifies `point, `m, `left, t0, t0.lookUp, t0.tree, t1, t1.lookUp, t1.tree
      ensures Inv() && left < old(left) && m == m'
    {
      hide LsbValue, Buffered, Mirror, Ends, Frugal, Follows, Table, Decodable;
      if tableSizes[0] + tableSizes[1] != |lenCodes| {
        Fail(m');
      } else {
        var s0, s1 := lenCodes[..tableSizes[0]], lenCodes[tableSizes[0]..];
        var ok := t1.Build(s1);
        if ok {
          ok := t0.Build(s0);
        }
        if !ok {
          Fail(m');
        } else {
          SymbolsNext(m');
        }
      }
    }

    method SymbolsNext(ghost m': Machine)
      requires Held(m'.pos) && Follows(stream, m, left, goal, m') && m'.out == m.out && t0.Built() && t1.Built()
      requires m'.st == Sym(final, t0.sizes, t1.sizes)
      modifies `point, `m, `left
      ensures Inv() && left < old(left) && m == m' && point.AtSymbol?
    {
      hide LsbValue, Buffered, Mirror, Ends, Frugal, Follows, HuffTable.Built;
      point := AtSymbol;
      Move(m');
    }

    // -------------------------------------------------------------------------------
    // Symbols, lengths and distances.

    // What a symbol from 256 on starts (source lines 2685-2690).
    method AfterSymbol(s: nat, ghost m': Machine)
      requires Held(m'.pos) && m'.out == m.out && Follows(stream, m, left, goal, m') && t0.Built() && t1.Built() &&
               256 <= s < 288
      requires s == 256 ==> m'.st == EndBlock(final)
      requires s > 256 && RowLengthExtra(s - 257) == 0 ==> m'.st == Dist(final, t0.sizes, t1.sizes, RowLength(s - 257))
      requires s > 256 && RowLengthExtra(s - 257) > 0 ==> m'.st == LenBits(final, t0.sizes, t1.sizes, s - 257)
      modifies `point, `inCur, `numBits, `bitBuf, `counter, `numExtra, `row, `m, `left
      ensures Inv() && left < old(left) && m == m'
    {
      hide LsbValue, Buffered, Mirror, Ends, Frugal, Follows, HuffTable.Built, RowLength, RowLengthExtra,
           Decompressor.Inv, Decompressor.Held;
      if s == 256 {
        EndOfBlock(m');
      } else {
        LengthSymbol(s - 257, m');
      }
    }

    method LengthSymbol(x: nat, ghost m': Machine)
      requires Held(m'.pos) && m'.out == m.out && Follows(stream, m, left, goal, m') && t0.Built() && t1.Built() &&
               x < 31
      requires m'.st == if RowLengthExtra(x) == 0 then Dist(final, t0.sizes, t1.sizes, RowLength(x))
               else LenBits(final, t0.sizes, t1.sizes, x)
      modifies `point, `counter, `numExtra, `row, `m, `left
      ensures Inv() && left < old(left) && m == m'
    {
      hide LsbValue, Buffered, Mirror, Ends, Frugal, Follows, HuffTable.Built, RowLength, RowLengthExtra, RowDist,
           RowDistExtra;
      hide Decompressor.Inv, Decompressor.Held;
      numExtra := RowLengthExtra(x);
      counter := RowLength(x);
      row := x;
      point := if numExtra != 0 then AtLenExtra else AtDist;
      Glide(m');
      Close();
    }

    // Source lines 2607-2611: one symbol at a time near the end of either buffer.
    method ReadSymbol() returns (v: Verdict)
      requires Inv() && point.AtSymbol?
      modifies `point, `numBits, `bitBuf, `inCur, `counter, `numExtra, `row, `m, `left
      ensures Inv() && Stopped(v) && (v.Continue? ==> left < old(left)) && (!v.Continue? ==> left == old(left)) &&
              old(m.out) <= m.out
    {
      hide LsbValue, Buffered, Mirror, Ends, Frugal, Follows, Step, Table, Decodable, Codeword, RowLength,
           RowLengthExtra;
      ghost var s := TakeSym(stream, m, left, goal);
      ghost var p := m.pos + t0.sizes[s];
      var ok, x := HuffDecode(t0, m.pos, s);
      if !ok {
        BufferedEnd(stream, m.pos, taken + inCur, bitBuf, numBits);
        StarvedSymbol(stream, taken + inCur, m, left, goal, s);
        return NeedInput;
      }
      v := Continue;
      if x >= 256 {
        AfterSymbol(x, SymbolLeads(x, p));
      } else {
        LiteralRead(x, Machine(Emit(final, t0.sizes, t1.sizes, x), p, m.out));
      }
    }

    // The machine after symbol s from 256 on.
    ghost function SymbolLeads(s: nat, p: nat): Machine
      requires 256 <= s < 288
      reads `final, `m, t0`sizes, t1`sizes
    {
      if s == 256 then Machine(EndBlock(final), p, m.out)
      else if RowLengthExtra(s - 257) == 0 then Machine(Dist(final, t0.sizes, t1.sizes, RowLength(s - 257)), p, m.out)
      else Machine(LenBits(final, t0.sizes, t1.sizes, s - 257), p, m.out)
    }

    method LiteralRead(x: Byte, ghost m': Machine)
      requires Held(m'.pos) && Follows(stream, m, left, goal, m') && m'.out == m.out && t0.Built() && t1.Built()
      requires m'.st == Emit(final, t0.sizes, t1.sizes, x)
      modifies `point, `counter, `m, `left
      ensures Inv() && left < old(left) && m == m'
    {
      hide LsbValue, Buffered, Mirror, Ends, Frugal, Follows, HuffTable.Built;
      counter := x;
      point := AtLiteral;
      Move(m');
    }

    // Source lines 2612-2616.
    method WriteLiteral() returns (v: Verdict)
      requires Inv() && point.AtLiteral?
      modifies `point, `outCur, `m, `left, buf
      ensures Inv() && Stopped(v) && (v.Continue? ==> left < old(left)) && (!v.Continue? ==> left == old(left)) &&
              old(m.out) <= m.out
    {
      hide LsbValue, Buffered, Mirror, Ends, Frugal, Follows, Step, HuffTable.Built;
      if outCur >= outEnd {
        return NeedRoom;
      }
      StoreLiteral(counter % 256);
      v := Continue;
    }

    method StoreLiteral(x: Byte)
      requires Held(m.pos) && m.st == Emit(final, t0.sizes, t1.sizes, x) && outCur < outEnd && t0.Built() && t1.Built()
      modifies `point, `outCur, `m, `left, buf
      ensures Inv() && left < old(left) && old(m.out) <= m.out && point.AtSymbol? && outCur == old(outCur) + 1
    {
      hide LsbValue, Buffered, Mirror, Ends, Frugal, Follows, HuffTable.Built, Decompressor.Inv, Decompressor.Held;
      Ahead();
      TakeEmit(stream, m, left, goal);
      point := AtSymbol;
      Deliver(x, Machine(Sym(final, t0.sizes, t1.sizes), m.pos, m.out + [x]));
      Close();
    }

    lemma LenExtraFields()
      requires Fields() && point.AtLenExtra?
      ensures t0.Built() && t1.Built() && row < 31 && counter == RowLength(row) && numExtra == RowLengthExtra(row)
    {
    }

    lemma DistExtraFields()
      requires Fields() && point.AtDistExtra?
      ensures t0.Built() && t1.Built() && row < 32 && dist == RowDist(row) && numExtra == RowDistExtra(row)
    {
    }

    // Source lines 2690-2695.
    method ReadLenExtra() returns (v: Verdict)
      requires Inv() && point.AtLenExtra?
      modifies `point, `numBits, `bitBuf, `inCur, `counter, `m, `left
      ensures Inv() && Stopped(v) && (v.Continue? ==> left < old(left)) && (!v.Continue? ==> left == old(left)) &&
              old(m.out) <= m.out
    {
      hide LsbValue, Buffered, Mirror, Ends, Frugal, Follows, Step, HuffTable.Built, RowLength, RowLengthExtra,
           RowDist, RowDistExtra;
      hide Decompressor.Fields, Decompressor.Inv, Decompressor.Stopped;
      Open();
      LenExtraFields();
      TakeLenBits(stream, m, left, goal);
      LengthExtraRange(row);
      var ok, x := GetBits(numExtra, m.pos);
      if !ok {
        StopBits(numExtra);
        return NeedInput;
      }
      StoppedContinue();
      v := Continue;
      LengthRead(counter + x, Machine(Dist(final, t0.sizes, t1.sizes, counter + x), m.pos + numExtra, m.out));
      StoppedContinue();
    }

    lemma StoppedContinue()
      ensures Stopped(Continue)
    {
    }

    lemma Open()
      requires Inv()
      ensures Held(Position()) && m.st == Abstract() && Fields() && Whole()
    {
    }

    // Out of input: nothing more can be done with the bytes there are.
    lemma StopBits(n: nat)
      requires Held(m.pos) && m.st == Abstract() && Fields() && Whole() && !point.AtDone?
      requires Wanted(m.st) == SomeBits(n) && inCur == |input| && numBits < n
      ensures Inv() && Stopped(NeedInput)
    {
      hide LsbValue, Mirror, Ends, Frugal, Follows, Step, Wanted, Decompressor.Fields;
      StarvedBits(stream, taken + inCur, m, left, goal);
    }

    lemma StopSymbol(sizes: seq<nat>, s: nat)
      requires Held(m.pos) && m.st == Abstract() && Fields() && Whole() && !point.AtDone?
      requires Wanted(m.st) == Symbol(sizes) && inCur == |input|
      requires Used(sizes, s) && At(stream, m.pos, Codeword(sizes, s)) && numBits < sizes[s]
      ensures Inv() && Stopped(NeedInput)
    {
      hide LsbValue, Mirror, Ends, Frugal, Follows, Step, Wanted, Decompressor.Fields, Codeword;
      StarvedSymbol(stream, taken + inCur, m, left, goal, s);
    }

    method LengthRead(len: nat, ghost m': Machine)
      requires Held(m'.pos) && Follows(stream, m, left, goal, m') && m'.out == m.out && t0.Built() && t1.Built()
      requires m'.st == Dist(final, t0.sizes, t1.sizes, len)
      modifies `point, `counter, `m, `left
      ensures Inv() && left < old(left) && m == m'
    {
      hide LsbValue, Buffered, Mirror, Ends, Frugal, Follows, HuffTable.Built;
      counter := len;
      point := AtDist;
      Move(m');
    }

    // Source lines 2697-2699: the distance symbol.
    method ReadDist() returns (v: Verdict)
      requires Inv() && point.AtDist?
      modifies `point, `numBits, `bitBuf, `inCur, `outCur, `dist, `counter, `numExtra, `row, `m, `left, buf
      ensures Inv() && Stopped(v) && (v.Continue? ==> left < old(left)) && (!v.Continue? ==> left <= old(left)) &&
              old(m.out) <= m.out
    {
      hide LsbValue, Buffered, Mirror, Ends, Frugal, Follows, Step, HuffTable.Built, RowDist, RowDistExtra, StartCopy,
           Codeword, Decompressor.DistLeads;
      hide Decompressor.Fields, Decompressor.Inv, Decompressor.Stopped;
      Open();
      DecodingFields();
      ghost var s := NextDist();
      ghost var p := m.pos + t1.sizes[s];
      var ok, x := HuffDecode(t1, m.pos, s);
      if !ok {
        StopSymbol(t1.sizes, s);
        return NeedInput;
      }
      StoppedContinue();
      v := Continue;
      DistSymbol(x, p);
      StoppedContinue();
    }

    lemma NextDist() returns (s: nat)
      requires Running() && m.st == Abstract() && point.AtDist?
      ensures Wanted(m.st) == Symbol(t1.sizes) && Used(t1.sizes, s) && At(stream, m.pos, Codeword(t1.sizes, s)) &&
              s < 32
      ensures m.pos + t1.sizes[s] <= |stream| && Follows(stream, m, left, goal, DistLeads(s, m.pos + t1.sizes[s]))
    {
      hide Ends, Follows, Step, RowDist, RowDistExtra, StartCopy, Codeword, RowLength, RowLengthExtra;
      s := TakeDist(stream, m, left, goal);
    }

    // The machine after distance symbol s.
    ghost function DistLeads(s: nat, p: nat): Machine
      requires s < 32
      reads `final, `m, `counter, t0`sizes, t1`sizes
    {
      if RowDistExtra(s) == 0 then Machine(StartCopy(final, t0.sizes, t1.sizes, counter, RowDist(s), |m.out|), p, m.out)
      else Machine(DistBits(final, t0.sizes, t1.sizes, counter, s), p, m.out)
    }

    method DistSymbol(x: nat, ghost p: nat)
      requires Held(p) && x < 32 && t0.Built() && t1.Built() && Follows(stream, m, left, goal, DistLeads(x, p))
      modifies `point, `outCur, `dist, `counter, `numExtra, `row, `m, `left, buf
      ensures Inv() && left < old(left) && old(m.out) <= m.out
    {
      hide LsbValue, Buffered, Mirror, Ends, Frugal, Follows, HuffTable.Built, RowDist, RowDistExtra, StartCopy,
           Decompressor.Inv, Decompressor.Held;
      numExtra := RowDistExtra(x);
      dist := RowDist(x);
      if numExtra != 0 {
        DistRowRead(x, Machine(DistBits(final, t0.sizes, t1.sizes, counter, x), p, m.out));
      } else {
        BeginCopy(Machine(StartCopy(final, t0.sizes, t1.sizes, counter, dist, |m.out|), p, m.out));
      }
    }

    lemma DecodingFields()
      requires Fields() && Decoding(point)
      ensures t0.Built() && t1.Built()
    {
    }

    method DistRowRead(x: nat, ghost m': Machine)
      requires Held(m'.pos) && Follows(stream, m, left, goal, m') && m'.out == m.out && t0.Built() && t1.Built() &&
               x < 32
      requires m'.st == DistBits(final, t0.sizes, t1.sizes, counter, x) && dist == RowDist(x) &&
               numExtra == RowDistExtra(x) > 0
      modifies `point, `row, `m, `left
      ensures Inv() && left < old(left) && m == m'
    {
      hide LsbValue, Buffered, Mirror, Ends, Frugal, Follows, HuffTable.Built, RowDist, RowDistExtra;
      row := x;
      point := AtDistExtra;
      Move(m');
    }

    // Source lines 2700-2705.
    method ReadDistExtra() returns (v: Verdict)
      requires Inv() && point.AtDistExtra?
      modifies `point, `numBits, `bitBuf, `inCur, `outCur, `dist, `counter, `m, `left, buf
      ensures Inv() && Stopped(v) && (v.Continue? ==> left < old(left)) && (!v.Continue? ==> left <= old(left)) &&
              old(m.out) <= m.out
    {
      hide LsbValue, Buffered, Mirror, Ends, Frugal, Follows, Step, HuffTable.Built, RowDist, RowDistExtra, RowLength,
           RowLengthExtra, StartCopy;
      hide Decompressor.Fields, Decompressor.Inv, Decompressor.Stopped;
      Open();
      DistExtraFields();
      TakeDistBits(stream, m, left, goal);
      DistExtraRange(row);
      var ok, x := GetBits(numExtra, m.pos);
      if !ok {
        StopBits(numExtra);
        return NeedInput;
      }
      StoppedContinue();
      v := Continue;
      dist := dist + x;
      BeginCopy(Machine(StartCopy(final, t0.sizes, t1.sizes, counter, dist, |m.out|), m.pos + numExtra, m.out));
      StoppedContinue();
    }

    // -------------------------------------------------------------------------------
    // Copying matches.

    // What holds while a copy of n more bytes is under way.
    ghost predicate Copying(n: nat)
      reads `stream, `taken, `inCur, `bitBuf, `numBits, `input, `m, `left, `goal, `outCur, `outEnd, `outBase, buf
      reads `final, `dist, t0, t0.lookUp, t0.tree, t1, t1.lookUp, t1.tree
    {
      && Held(m.pos) && m.st == Copy(final, t0.sizes, t1.sizes, n, dist)
      && 1 <= dist <= |m.out| && dist <= LZ_DICT_SIZE && t0.Built() && t1.Built()
    }

    // Source lines 2707-2770: check the distance and choose how to copy.
    method BeginCopy(ghost m': Machine)
      requires Held(m'.pos) && Follows(stream, m, left, goal, m') && m'.out == m.out && t0.Built() && t1.Built()
      requires m'.st == StartCopy(final, t0.sizes, t1.sizes, counter, dist, |m.out|)
      modifies `point, `outCur, `counter, `m, `left, buf
      ensures Inv() && left < old(left) && old(m.out) <= m.out
    {
      hide LsbValue, Buffered, Mirror, Ends, Frugal, Follows, HuffTable.Built, StartCopy, Decompressor.Inv;
      CopyDecided(m');
      if dist > outCur && !wrap {
        Fail(m');
      } else {
        Move(m');
        CopyChosen();
      }
    }

    // The check of the distance against the cursor decides as the machine does.
    lemma CopyDecided(m': Machine)
      requires Running() && OutputIs() && Follows(stream, m, left, goal, m') && m'.out == m.out
      requires m'.st == StartCopy(final, t0.sizes, t1.sizes, counter, dist, |m.out|)
      ensures dist > outCur && !wrap ==> m'.st.Failed?
      ensures !(dist > outCur && !wrap) ==>
                1 <= dist <= |m.out| && dist <= LZ_DICT_SIZE && m'.st == Copy(final, t0.sizes, t1.sizes, counter, dist)
    {
      hide Mirror, Ends, Follows, StartCopy;
      FollowsMeans(stream, m, left, goal, m');
      CopyStarted(stream, m', left - 1, goal, final, t0.sizes, t1.sizes, counter, dist);
      MirrorBounds(buf[..], outCur, wrap, m.out);
      RingDone(stream, m', left - 1, goal);
    }

    // In a ring the run is one that ends well, so no distance reaches too far back.
    lemma RingDone(stream: seq<bool>, m': Machine, k: nat, f: Machine)
      requires Ends(stream, m', k, f) && (wrap ==> f.st.Done?)
      ensures wrap ==> !m'.st.Failed?
    {
      hide Step, Good;
      if m'.st.Failed? {
        EndsFinal(stream, m', k, f);
      }
    }

    method CopyChosen()
      requires Copying(counter)
      modifies `point, `outCur, `counter, `m, `left, buf
      ensures Inv() && left <= old(left) && old(m.out) <= m.out
    {
      hide LsbValue, Buffered, Mirror, Ends, Frugal, Follows, HuffTable.Built;
      MirrorBounds(buf[..], outCur, wrap, m.out);
      MirrorRead(buf[..], outCur, wrap, m.out, dist);
      var src := SourceAt(buf.Length, wrap, outCur, dist);
      if Most(outCur, src) + counter > outEnd {
        if counter == 0 {
          EndCopy();
        } else {
          counter := counter - 1;
          StartSlow();
        }
      } else {
        CopyFast(src);
      }
    }

    method StartSlow()
      requires Copying(counter + 1)
      modifies `point
      ensures Inv() && left == old(left)
    {
      hide LsbValue, Buffered, Mirror, Ends, Frugal, Follows, HuffTable.Built;
      point := AtCopy;
    }

    // All bytes are copied: the next symbol.
    method EndCopy()
      requires Copying(0)
      modifies `point, `m, `left
      ensures Inv() && left < old(left) && m.out == old(m.out)
    {
      hide LsbValue, Buffered, Mirror, Ends, Frugal, Follows, HuffTable.Built;
      TakeCopyEnd(stream, m, left, goal);
      SymbolsNext(Machine(Sym(final, t0.sizes, t1.sizes), m.pos, m.out));
    }

    // Source lines 2715-2726: one byte at a time, stopping when the room runs out.
    method SlowCopy() returns (v: Verdict)
      requires Inv() && point.AtCopy?
      modifies `point, `outCur, `counter, `m, `left, buf
      ensures Inv() && Stopped(v) && (v.Continue? ==> left < old(left)) && (!v.Continue? ==> left == old(left)) &&
              old(m.out) <= m.out
    {
      hide LsbValue, Buffered, Mirror, Ends, Frugal, Follows, HuffTable.Built, Step;
      hide Decompressor.Inv, Decompressor.Stopped;
      Open();
      CopyingHere();
      if outCur >= outEnd {
        StoppedRoom();
        return NeedRoom;
      }
      MirrorBounds(buf[..], outCur, wrap, m.out);
      MirrorRead(buf[..], outCur, wrap, m.out, dist);
      CopyByte(SourceAt(buf.Length, wrap, outCur, dist), counter + 1);
      StoppedContinue();
      v := Continue;
      if counter == 0 {
        EndCopy();
      } else {
        counter := counter - 1;
        StartSlow();
      }
      StoppedContinue();
    }

    lemma StoppedRoom()
      requires outCur == outEnd && Owes(m.st)
      ensures Stopped(NeedRoom)
    {
    }

    lemma CopyingHere()
      requires Held(m.pos) && m.st == Abstract() && Fields() && point.AtCopy?
      ensures Copying(counter + 1)
    {
      hide LsbValue, Buffered, Mirror, Frugal, HuffTable.Built, Decodable, Step;
      EndsGood(stream, m, left, goal);
    }

    // The source's *pOut_buf_cur++ = *pSrc++.
    method CopyByte(src: nat, ghost n: nat)
      requires Copying(n) && n > 0 && outCur < outEnd && src == SourceAt(buf.Length, wrap, outCur, dist) &&
               src < buf.Length
      modifies `outCur, `m, `left, buf
      ensures Copying(n - 1) && outCur == old(outCur) + 1 && left < old(left) && old(m.out) <= m.out
    {
      hide LsbValue, Buffered, Mirror, Ends, Frugal, Follows, HuffTable.Built;
      MirrorBounds(buf[..], outCur, wrap, m.out);
      MirrorRead(buf[..], outCur, wrap, m.out, dist);
      TakeCopy(stream, m, left, goal);
      PutByte(buf[src]);
      Move(Machine(Copy(final, t0.sizes, t1.sizes, n - 1, dist), m.pos, m.out + [m.out[|m.out| - dist]]));
    }

    // Where the fast copy stands: n bytes to go, all of them in front of both limits.
    ghost predicate Straight(src: nat, n: nat)
      reads `outCur, `outEnd, `dist
    {
      src + n <= buf.Length && outCur + n <= outEnd <= buf.Length &&
          (n > 0 ==> src == SourceAt(buf.Length, wrap, outCur, dist))
    }

    method StraightByte1(src: nat, ghost n: nat)
      requires Copying(n) && Straight(src, n) && n > 0
      modifies `outCur, `m, `left, buf
      ensures Copying(n - 1) && Straight(src + 1, n - 1) && left < old(left) && old(m.out) <= m.out
    {
      hide LsbValue, Buffered, Mirror, Ends, Frugal, Follows, HuffTable.Built, Decompressor.Copying;
      if n > 1 {
        SourceNext(buf.Length, wrap, outCur, dist, src);
      }
      CopyByte(src, n);
    }

    lemma CopyingShown(n: nat)
      requires Copying(n)
      ensures Mirror(buf[..], outCur, wrap, m.out) && 1 <= dist <= |m.out| && dist <= LZ_DICT_SIZE
      ensures |m.out| == outBase + outCur && outCur <= outEnd <= buf.Length
    {
      hide Mirror, Buffered, Ends, Frugal, HuffTable.Built;
    }

    // Eight bytes are read before any of them is written.
    method CopyBlock(src: nat, ghost n: nat)
      requires Copying(n) && Straight(src, n) && 8 <= n && dist >= 9
      modifies `outCur, `m, `left, buf
      ensures Copying(n - 8) && Straight(src + 8, n - 8) && left < old(left) && old(m.out) <= m.out
    {
      hide LsbValue, Buffered, Mirror, Ends, Frugal, Follows, HuffTable.Built, Decompressor.Copying;
      ghost var out0, b0 := m.out, buf[..];
      CopyingShown(n);
      MirrorBounds(b0, outCur, wrap, out0);
      BlockSource(b0, outCur, wrap, out0, dist, src);
      var w := buf[src..src + 8];
      ghost var src' := src;
      for i := 0 to 8
        invariant Copying(n - i) && Straight(src + i, n - i) && left <= old(left) - i && out0 <= m.out &&
                  |m.out| == |out0| + i
      {
        CopyingShown(n - i);
        WordByte(out0, m.out, dist, i, w[i]);
        StoreWordByte(w[i], src + i, n - i);
      }
    }

    method StoreWordByte(x: Byte, ghost src: nat, ghost n: nat)
      requires Copying(n) && Straight(src, n) && n > 0 && x == m.out[|m.out| - dist]
      modifies `outCur, `m, `left, buf
      ensures Copying(n - 1) && Straight(src + 1, n - 1) && left < old(left) && m.out == old(m.out) + [x]
    {
      hide LsbValue, Buffered, Mirror, Ends, Frugal, Follows, HuffTable.Built;
      if n > 1 {
        SourceNext(buf.Length, wrap, outCur, dist, src);
      }
      TakeCopy(stream, m, left, goal);
      PutByte(x);
      Move(Machine(Copy(final, t0.sizes, t1.sizes, n - 1, dist), m.pos, m.out + [m.out[|m.out| - dist]]));
    }

    // Source lines 2727-2769: whole words, then three bytes at a time, then the rest.
    method CopyFast(src0: nat)
      requires Copying(counter) && Straight(src0, counter)
      modifies `point, `outCur, `counter, `m, `left, buf
      ensures Inv() && left < old(left) && old(m.out) <= m.out
    {
      hide LsbValue, Buffered, Mirror, Ends, Frugal, Follows, HuffTable.Built, Decompressor.Copying,
           Decompressor.Straight, Decompressor.Inv;
      var src := src0;
      if 9 <= counter <= dist {
        src := CopyWords(src);
      }
      while counter > 2
        invariant Copying(counter) && Straight(src, counter) && left <= old(left) && old(m.out) <= m.out
      {
        StraightByte1(src, counter);
        StraightByte1(src + 1, counter - 1);
        StraightByte1(src + 2, counter - 2);
        src := src + 3;
        counter := counter - 3;
      }
      if counter > 0 {
        StraightByte1(src, counter);
        if counter > 1 {
          StraightByte1(src + 1, counter - 1);
        }
      }
      EndCopy();
    }

    // The 8-byte copies.
    method CopyWords(src0: nat) returns (src: nat)
      requires Copying(counter) && Straight(src0, counter) && 9 <= counter <= dist
      modifies `outCur, `counter, `m, `left, buf
      ensures counter < 8 && Copying(counter) && Straight(src, counter) && left <= old(left) && old(m.out) <= m.out
    {
      hide LsbValue, Buffered, Mirror, Ends, Frugal, Follows, HuffTable.Built, Decompressor.Copying,
           Decompressor.Straight;
      src := src0;
      var srcEnd := src + (counter - counter % 8);
      ghost var n := counter;
      while src < srcEnd
        invariant src <= srcEnd && (srcEnd - src) % 8 == 0 && n == srcEnd - src + counter % 8 && counter == old(counter)
        invariant Copying(n) && Straight(src, n) && left <= old(left) && old(m.out) <= m.out
      {
        CopyBlock(src, n);
        src := src + 8;
        n := n - 8;
      }
      counter := counter % 8;
    }

    // -------------------------------------------------------------------------------
    // Two symbols at a time while there is plenty of input and room (lines 2618-2683).

    // The lookahead of four bytes at once.
    method FourMore(ghost pos: nat)
      requires BitsHeld(pos) && InputIs() && |input| - inCur >= 4 && numBits < 30
      modifies `inCur, `bitBuf, `numBits
      ensures BitsHeld(pos) && numBits == old(numBits) + 32
    {
      hide LsbValue, Buffered;
      TwoMore(pos);
      TwoMore(pos);
    }

    // Decoding a symbol without looking at the end of the input.
    method FastSymbol() returns (literal: bool)
      requires Inv() && point.AtSymbol? && numBits >= MAX_CODE_SIZE && outCur < outEnd
      modifies `point, `numBits, `bitBuf, `inCur, `outCur, `counter, `numExtra, `row, `m, `left, buf
      ensures Inv() && left < old(left) && old(m.out) <= m.out
      ensures literal ==> point.AtSymbol? && outCur == old(outCur) + 1 && numBits + MAX_CODE_SIZE >= old(numBits)
    {
      hide LsbValue, Buffered, Mirror, Ends, Frugal, Follows, Step, HuffTable.Built, Codeword, RowLength,
           RowLengthExtra;
      hide Decompressor.Fields, Decompressor.Inv, Decompressor.SymbolLeads;
      Open();
      DecodingFields();
      ghost var s := NextSymbol();
      ghost var p := m.pos + t0.sizes[s];
      var x := DecodeNext(t0, m.pos, s);
      literal := x < 256;
      if !literal {
        AfterSymbol(x, SymbolLeads(x, p));
      } else {
        FastLiteral(x, p);
      }
    }

    method FastLiteral(x: Byte, ghost p: nat)
      requires Held(p) && Follows(stream, m, left, goal, Machine(Emit(final, t0.sizes, t1.sizes, x), p, m.out)) &&
               t0.Built() && t1.Built()
      requires outCur < outEnd
      modifies `point, `outCur, `m, `left, buf
      ensures Inv() && left < old(left) && old(m.out) <= m.out && point.AtSymbol? && outCur == old(outCur) + 1
    {
      hide LsbValue, Buffered, Mirror, Ends, Frugal, Follows, HuffTable.Built;
      Move(Machine(Emit(final, t0.sizes, t1.sizes, x), p, m.out));
      StoreLiteral(x);
    }

    lemma NextSymbol() returns (s: nat)
      requires Running() && m.st == Abstract() && point.AtSymbol?
      ensures Wanted(m.st) == Symbol(t0.sizes) && Used(t0.sizes, s) && At(stream, m.pos, Codeword(t0.sizes, s)) &&
              s < 288
      ensures m.pos + t0.sizes[s] <= |stream| && t0.sizes[s] <= MAX_CODE_SIZE
      ensures s < 256 ==>
                Follows(stream, m, left, goal, Machine(Emit(final, t0.sizes, t1.sizes, s), m.pos + t0.sizes[s], m.out))
      ensures s >= 256 ==> Follows(stream, m, left, goal, SymbolLeads(s, m.pos + t0.sizes[s]))
      ensures s == 256 ==> SymbolLeads(s, m.pos + t0.sizes[s]).st == EndBlock(final)
      ensures s > 256 && RowLengthExtra(s - 257) == 0 ==>
                SymbolLeads(s, m.pos + t0.sizes[s]).st == Dist(final, t0.sizes, t1.sizes, RowLength(s - 257))
      ensures s > 256 && RowLengthExtra(s - 257) > 0 ==>
                SymbolLeads(s, m.pos + t0.sizes[s]).st == LenBits(final, t0.sizes, t1.sizes, s - 257)
      ensures s >= 256 ==> SymbolLeads(s, m.pos + t0.sizes[s]).pos == m.pos + t0.sizes[s]
      ensures s >= 256 ==> SymbolLeads(s, m.pos + t0.sizes[s]).out == m.out
    {
      hide Ends, Follows, Step, RowDist, RowDistExtra, Codeword, RowLength, RowLengthExtra, Decodable;
      s := TakeSym(stream, m, left, goal);
      DecodableSmall(t0.sizes);
      SizeAtMost(t0.sizes, s);
    }

    method FastPair()
      requires Inv() && point.AtSymbol? && |input| - inCur >= 4 && outEnd - outCur >= 2
      modifies `point, `numBits, `bitBuf, `inCur, `outCur, `counter, `numExtra, `row, `m, `left, buf
      ensures Inv() && left < old(left) && old(m.out) <= m.out
    {
      hide LsbValue, Buffered, Mirror, Ends, Frugal, Follows, Step, HuffTable.Built, Decompressor.Abstract,
           Decompressor.Fields;
      if numBits < 30 {
        FourMore(m.pos);
      }
      var literal := FastSymbol();
      if literal {
        literal := FastSymbol();
      }
    }

    // Source lines 2605-2684.
    method ReadSymbols() returns (v: Verdict)
      requires Inv() && point.AtSymbol?
      modifies `point, `numBits, `bitBuf, `inCur, `outCur, `counter, `numExtra, `row, `m, `left, buf
      ensures Inv() && Stopped(v) && (v.Continue? ==> left < old(left)) && (!v.Continue? ==> left <= old(left)) &&
              old(m.out) <= m.out
    {
      hide Decompressor.Inv, Decompressor.Stopped;
      OpenCursor();
      if |input| - inCur < 4 || outEnd - outCur < 2 {
        v := ReadSymbol();
      } else {
        FastPair();
        v := Continue;
        StoppedContinue();
      }
    }

    lemma OpenCursor()
      requires Inv()
      ensures inCur <= |input| && outCur <= outEnd <= buf.Length
    {
    }

    // -------------------------------------------------------------------------------
    // The coroutine.

    // Everything a piece of the coroutine may change.
    method Resume() returns (v: Verdict)
      requires Inv() && !point.AtDone? && !point.AtFailed?
      modifies `point, `numBits, `bitBuf, `inCur, `outCur, `dist, `counter, `numExtra, `final, `rawHeader, `tableSizes,
               `lenCodes
      modifies `got, `row, `m, `left, buf
      modifies t0, t0.lookUp, t0.tree, t1, t1.lookUp, t1.tree, t2, t2.lookUp, t2.tree
      ensures Inv() && Stopped(v) && (v.Continue? ==> left < old(left)) && (!v.Continue? ==> left <= old(left)) &&
              old(m.out) <= m.out
    {
      hide Decompressor.Inv, Decompressor.Stopped;
      match point {
        case AtHead => v := ReadHead();
        case AtRawHeader => v := ReadRawHeader();
        case AtRawBits => v := ReadRawBits();
        case AtRawByte => v := WriteRawByte();
        case AtRawCopy => v := ReadRawCopy();
        case AtFields => v := ReadField();
        case AtClSizes => v := ReadClSize();
        case AtCode => v := ReadCode();
        case AtRepeat => v := ReadRepeat();
        case AtSymbol => v := ReadSymbols();
        case AtLiteral => v := WriteLiteral();
        case AtLenExtra => v := ReadLenExtra();
        case AtDist => v := ReadDist();
        case AtDistExtra => v := ReadDistExtra();
        case AtCopy => v := SlowCopy();
      }
    }

    method Run() returns (v: Verdict)
      requires Inv()
      modifies `point, `numBits, `bitBuf, `inCur, `outCur, `dist, `counter, `numExtra, `final, `rawHeader, `tableSizes,
               `lenCodes
      modifies `got, `row, `m, `left, buf
      modifies t0, t0.lookUp, t0.tree, t1, t1.lookUp, t1.tree, t2, t2.lookUp, t2.tree
      ensures Inv() && Stopped(v) && old(m.out) <= m.out && (v.Continue? ==> point.AtDone? || point.AtFailed?)
    {
      hide Decompressor.Inv, Decompressor.Stopped;
      v := Continue;
      StoppedContinue();
      while v.Continue? && !point.AtDone? && !point.AtFailed?
        invariant Inv() && Stopped(v) && old(m.out) <= m.out
        decreases left, v.Continue?
      {
        v := Resume();
      }
    }

    // The arrays of the source's record are never written past their ends, and its 64-bit
    // bit buffer never overflows.
    lemma ArraysFit()
      requires Inv()
      ensures point.AtRawHeader? ==> |rawHeader| < 4
      ensures point.AtFields? ==> |tableSizes| < 3
      ensures point.AtClSizes? || point.AtCode? || point.AtRepeat? ==> |tableSizes| == 3
      ensures point.AtCode? || point.AtRepeat? ==> |lenCodes| <= 288 + 32 + 137
      ensures bitBuf < Pow2(61)
    {
      hide LsbValue, Mirror, Frugal, Step, Pow2, Decompressor.Fields, AllAtMost, Decodable;
      BufferedRange(stream, Position(), taken + inCur, bitBuf, numBits);
      Pow2Monotone(numBits, 61);
    }

    // Between calls no input is at hand.
    ghost predicate Resting()
      reads this, buf, t0, t1, t2, t0.lookUp, t0.tree, t1.lookUp, t1.tree, t2.lookUp, t2.tree
    {
      Inv() && input == [] && inCur == 0
    }

    // The bytes of a call are the next ones of the stream.
    ghost predicate Continues(bytes: seq<Byte>)
      reads `stream, `taken
    {
      8 * (taken + |bytes|) <= |stream| && forall i :: 0 <= i < |bytes| ==> bytes[i] == ByteAt(stream, taken + i)
    }

    // tinfl_decompress: from wherever the last call stopped to the end of the input, of the
    // room, or of the stream.
    method Decompress(bytes: seq<Byte>, next: nat, end: nat, more: bool) returns (status: Status, used: nat, made: nat)
      requires Resting() && Continues(bytes) && next <= end <= buf.Length && Mirror(buf[..], next, wrap, m.out)
      modifies this, buf, t0, t0.lookUp, t0.tree, t1, t1.lookUp, t1.tree, t2, t2.lookUp, t2.tree
      ensures Resting() && stream == old(stream) && goal == old(goal)
      ensures used <= |bytes| && taken == old(taken) + used && next + made <= end
      ensures old(m.out) <= m.out && |m.out| == |old(m.out)| + made && Mirror(buf[..], next + made, wrap, m.out)
      ensures status.Finished? ==> m == goal && goal.st.Done? && 8 * taken == Aligned(m.pos)
      ensures status.Broken? ==> m == goal && goal.st.Failed?
      ensures status.NeedsMoreInput? || status.CannotMakeProgress? ==>
                used == |bytes| && 8 * taken <= |stream| && Good(m) && Step(stream[..8 * taken], m).Wait?
      ensures status.HasMoreOutput? ==> next + made == end && Owes(m.st)
      ensures status.NeedsMoreInput? ==> more
      ensures status.CannotMakeProgress? ==> !more
    {
      hide Decompressor.Inv, Decompressor.Stopped, Mirror;
      BeginCall(bytes, next, end);
      var v := Run();
      OutNow();
      status := if v.NeedInput? then (if more then NeedsMoreInput else CannotMakeProgress)
                else if v.NeedRoom? then HasMoreOutput
                else if point.AtDone? then Finished else Broken;
      AtEnd(v);
      used, made := EndCall(v, next);
    }

    lemma OutNow()
      requires Inv()
      ensures |m.out| == outBase + outCur && outCur <= outEnd && Mirror(buf[..], outCur, wrap, m.out)
    {
      hide Mirror;
    }

    method BeginCall(bytes: seq<Byte>, next: nat, end: nat)
      requires Resting() && Continues(bytes) && next <= end <= buf.Length && Mirror(buf[..], next, wrap, m.out)
      modifies `input, `inCur, `outCur, `outEnd, `outBase
      ensures Inv() && input == bytes && inCur == 0 && outCur == next && outEnd == end && |m.out| == outBase + outCur
    {
      hide Decompressor.Inv, Decompressor.Held, Decompressor.Fields, Decompressor.Abstract, Decompressor.Whole, Mirror;
      Open();
      SetBuffers(bytes, next, end);
      Close();
    }

    method SetBuffers(bytes: seq<Byte>, next: nat, end: nat)
      requires Held(Position()) && input == [] && inCur == 0
      requires Continues(bytes) && next <= end <= buf.Length && Mirror(buf[..], next, wrap, m.out)
      modifies `input, `inCur, `outCur, `outEnd, `outBase
      ensures Held(Position()) && input == bytes && inCur == 0 && outCur == next && outEnd == end
      ensures |m.out| == outBase + outCur
    {
      hide Buffered, Mirror, Ends, Frugal;
      MirrorBounds(buf[..], next, wrap, m.out);
      input, inCur, outCur, outEnd := bytes, 0, next, end;
      outBase := |m.out| - next;
    }

    // What each way of stopping says about the run.
    lemma AtEnd(v: Verdict)
      requires Inv() && Stopped(v) && (v.Continue? ==> point.AtDone? || point.AtFailed?)
      ensures v.Continue? ==> m == goal && (point.AtDone? <==> goal.st.Done?) && (point.AtFailed? <==> goal.st.Failed?)
      ensures v.Continue? && point.AtDone? ==> numBits == 0 && Aligned(m.pos) == 8 * (taken + inCur)
      ensures v.NeedInput? ==>
                inCur == |input| && 8 * (taken + inCur) <= |stream| && Good(m) &&
                Step(stream[..8 * (taken + inCur)], m).Wait?
      ensures v.NeedRoom? ==> outCur == outEnd && Owes(m.st)
    {
      hide LsbValue, Mirror, Ends, Frugal, Follows, Step, Decompressor.Fields;
      if v.Continue? {
        EndsFinal(stream, m, left, goal);
      }
    }

    // Putting bytes back and forgetting the buffers (source lines 2801-2820).
    method EndCall(v: Verdict, next: nat) returns (used: nat, made: nat)
      requires Inv() && Stopped(v) && (v.Continue? ==> point.AtDone? || point.AtFailed?) && next <= outCur
      modifies `input, `inCur, `numBits, `bitBuf, `taken
      ensures Resting() && used <= |old(input)| && taken == old(taken) + used && made == outCur - next
      ensures v.NeedInput? || (v.Continue? && point.AtDone?) ==> used == old(inCur)
    {
      hide Decompressor.Inv, Decompressor.Stopped;
      if !v.NeedInput? {
        GiveBack(v);
      } else {
        StarvedFrugal();
      }
      OpenCursor();
      used, made := inCur, outCur - next;
      Rest();
    }

    method GiveBack(v: Verdict)
      requires Inv() && !v.NeedInput?
      modifies `inCur, `numBits, `bitBuf
      ensures Inv() && inCur <= old(inCur) && Frugal(stream, taken + inCur, m) &&
              (point.AtDone? ==> inCur == old(inCur))
    {
      hide LsbValue, Buffered, Mirror, Ends, Follows, Step, Decompressor.Fields, Decompressor.Abstract, Aligned;
      PutBack(Position());
      RestFrugal();
    }

    lemma StarvedFrugal()
      requires Inv() && Stopped(NeedInput)
      ensures Frugal(stream, taken + inCur, m)
    {
      hide LsbValue, Mirror, Ends, Follows, Step, Decompressor.Fields, Decompressor.Abstract;
    }

    // Counting the bytes of this call as taken keeps the decompressor frugal.
    lemma RestFrugal()
      requires Buffered(stream, Position(), taken + inCur, bitBuf, numBits) && Thrifty() && Whole() &&
               (inCur == 0 || numBits < 8)
      ensures Frugal(stream, taken + inCur, m)
    {
      hide LsbValue, Step;
    }

    method Rest()
      requires Inv() && Frugal(stream, taken + inCur, m)
      modifies `input, `inCur, `taken
      ensures Resting() && taken == old(taken + inCur)
    {
      hide LsbValue, Buffered, Mirror, Ends, Follows, Frugal, Decompressor.Fields, Decompressor.Abstract;
      BufferedEnd(stream, Position(), taken + inCur, bitBuf, numBits);
      taken := taken + inCur;
      input, inCur := [], 0;
    }
  }

  lemma LowAll(stream: seq<bool>, pos: nat, k: nat, buf: nat, n: nat)
    requires Buffered(stream, pos, k, buf, n)
    ensures Low(buf, n) == buf
  {
    hide LsbValue, Pow2;
    BufferedTake(stream, pos, k, buf, n, n);
    assert stream[pos..pos + n] == stream[pos..8 * k];
  }

  function Least(a: nat, b: nat): nat {
    if a < b then a else b
  }

  lemma StraightByte(stream: seq<bool>, pos: nat, k: nat, buf: nat)
    requires Buffered(stream, pos, k, buf, 0) && 8 * k + 8 <= |stream|
    ensures Buffered(stream, pos + 8, k + 1, buf, 0) &&
            ByteAt(stream, k) == Field(stream, pos, 8) == Field(stream, pos, 8) % 256
  {
    hide LsbValue;
    assert stream[pos + 8..8 * (k + 1)] == stream[pos..8 * k] == [];
  }

  lemma ClArrayNext(got: seq<nat>, x: nat)
    requires |got| < 19
    ensures ClArray(got + [x]) == ClArray(got)[Dezigzag(|got|) := x]
  {
    hide Dezigzag;
    assert (got + [x])[..|got|] == got;
  }

  lemma {:induction false} ClArrayBound(got: seq<nat>)
    requires |got| <= 19 && AllAtMost(got, 7)
    ensures Bounded(MAX_CODE_SIZE, ClArray(got))
  {
    hide Dezigzag;
    if got != [] {
      ClArrayBound(got[..|got| - 1]);
    }
  }

  lemma NothingLeft(n0: nat, n: nat, taken: nat, cur: nat, pos: nat)
    requires n0 % 8 == 0 && n % 8 == n0 % 8 && (cur == 0 || n < 8) && pos + n == 8 * (taken + cur) && pos >= 8 * taken
    ensures n == 0
  {
  }

  lemma BufferedEnd(stream: seq<bool>, pos: nat, k: nat, buf: nat, n: nat)
    requires Buffered(stream, pos, k, buf, n)
    ensures pos + n == 8 * k <= |stream|
  {
  }

  lemma DecodableBounded(sizes: seq<nat>)
    requires Decodable(sizes)
    ensures Bounded(MAX_CODE_SIZE, sizes) && |sizes| <= MAX_HUFF_SYMBOLS
  {
  }

  lemma LowTen(v: nat, q: seq<bool>)
    requires |q| == FAST_LOOKUP_BITS && LsbBits(v, FAST_LOOKUP_BITS) == q
    ensures LsbValue(q) == v % FAST_LOOKUP_SIZE
  {
    hide LsbValue, LsbBits;
    LsbMod(v, FAST_LOOKUP_BITS);
    SmallPowers();
  }

  lemma BufferedBit(stream: seq<bool>, pos: nat, k: nat, buf: nat, n: nat, i: nat, c: seq<bool>)
    requires Buffered(stream, pos, k, buf, n) && i < n && i < |c| && At(stream, pos, c)
    ensures High(buf, i) % 2 == Bit(c[i])
  {
    hide LsbValue, LsbBits, Pow2;
    BufferedCode(stream, pos, k, buf, n, stream[pos..pos + i + 1]);
    LsbAt(buf, i + 1, i);
    assert stream[pos..pos + i + 1][i] == stream[pos..pos + |c|][i];
  }

  lemma LengthExtraRange(row: nat)
    requires row < 31
    ensures RowLengthExtra(row) <= 5
  {
    if row < 29 {
      LengthRow(row);
    }
  }

  lemma DistExtraRange(row: nat)
    requires row < 32
    ensures RowDistExtra(row) <= 13
  {
    if row < 30 {
      DistRow(row);
    }
  }


  // The word read in advance holds the bytes the copy will need.
  lemma BlockSource(b: seq<Byte>, cur: nat, wrap: bool, out: seq<Byte>, dist: nat, src: nat)
    requires Mirror(b, cur, wrap, out) && 9 <= dist <= |out| && dist <= |b| && src == SourceAt(|b|, wrap, cur, dist) &&
             src + 8 <= |b|
    ensures b[src..src + 8] == out[|out| - dist..|out| - dist + 8]
  {
    hide Mirror;
    var w, v := b[src..src + 8], out[|out| - dist..|out| - dist + 8];
    forall t | 0 <= t < 8
      ensures w[t] == v[t]
    {
      MirrorAhead(b, cur, wrap, out, dist, t);
    }
  }

  lemma WordByte(out0: seq<Byte>, out: seq<Byte>, dist: nat, t: nat, x: Byte)
    requires out0 <= out && |out| == |out0| + t && t < 8 < dist <= |out0| &&
             x == out0[|out0| - dist..|out0| - dist + 8][t]
    ensures x == out[|out| - dist]
  {
  }

  function Most(a: int, b: int): int {
    if a < b then b else a
  }
}
