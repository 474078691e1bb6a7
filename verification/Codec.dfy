// The two halves put together: whatever is compressed comes back, however the compressed
// bytes are cut up on the way (kernel/miniz/miniz.c:1877-2009, 2381-2928).
module Codec {
  import opened Bits
  import opened Tokens
  import opened InflateMachine
  import opened InflateRun
  import opened InflateWait
  import opened BitWriter
  import opened BlockRoundTrip
  import opened Compressor
  import opened InflateOut
  import opened InflateSteps
  import opened Inflater

  // The bits of a byte string, in stream order.
  ghost function BitsOf(z: seq<Byte>): (b: seq<bool>)
    ensures |b| == 8 * |z|
  {
    if z == [] then [] else BitsOf(z[..|z| - 1]) + LsbBits(z[|z| - 1], 8)
  }

  lemma {:induction false} ByteOfBits(z: seq<Byte>, k: nat)
    requires k < |z|
    ensures ByteAt(BitsOf(z), k) == z[k]
  {
    hide LsbValue, LsbBits;
    var r, x := z[..|z| - 1], z[|z| - 1];
    if k < |r| {
      ByteOfBits(r, k);
      ByteAtPrefix(BitsOf(r), BitsOf(z), k);
    } else {
      assert BitsOf(z)[8 * k..8 * k + 8] == LsbBits(x, 8);
      SmallPowers();
      LsbValueOfBits(x, 8);
    }
  }

  // Delivered bytes spell the bits that were put.
  lemma {:induction false} DeliveredBits(z: seq<Byte>, bits: seq<bool>)
    requires Delivered(z, bits, 0)
    ensures BitsOf(z) == bits[..8 * |z|]
  {
    hide LsbValue, LsbBits, ByteAt;
    if z != [] {
      var r, n := z[..|z| - 1], |z| - 1;
      DeliveredBits(r, bits);
      ByteAtBits(bits, n);
      assert bits[..8 * |z|] == bits[..8 * n] + bits[8 * n..8 * n + 8];
    }
  }

  lemma ByteAtBits(bits: seq<bool>, k: nat)
    requires 8 * k + 8 <= |bits|
    ensures LsbBits(ByteAt(bits, k), 8) == bits[8 * k..8 * k + 8]
  {
    hide LsbValue, LsbBits;
    LsbBitsOfValue(bits[8 * k..8 * k + 8]);
  }

  const START := Machine(BlockHead, 0, [])

  // z is a complete DEFLATE stream that stands for data and ends in its last byte.
  ghost predicate Inflates(z: seq<Byte>, data: seq<Byte>)
  {
    exists k: nat, p: nat :: p <= 8 * |z| < p + 8 && Ends(BitsOf(z), START, k, Machine(Done, p, data))
  }

  // A stream stands for one string of bytes only.
  lemma InflatesUnique(z: seq<Byte>, a: seq<Byte>, b: seq<Byte>)
    requires Inflates(z, a) && Inflates(z, b)
    ensures a == b
  {
    hide Step, Good;
    var k: nat, p: nat :| p <= 8 * |z| < p + 8 && Ends(BitsOf(z), START, k, Machine(Done, p, a));
    var k': nat, p': nat :| p' <= 8 * |z| < p' + 8 && Ends(BitsOf(z), START, k', Machine(Done, p', b));
    FinalUnique(BitsOf(z), START, Machine(Done, p, a), Machine(Done, p', b));
  }

  lemma StartGood()
    ensures Good(START)
  {
  }

  lemma StreamInflates(z: seq<Byte>, bits: seq<bool>, data: seq<Byte>)
    requires StreamEnds(bits, data) && Delivered(z, bits, 0) && |z| == |bits| / 8
    ensures Inflates(z, data)
  {
    hide Step, Good, ByteAt;
    DeliveredBits(z, bits);
    assert bits[..8 * |z|] == bits;
    var n: nat :| n <= |bits| < n + 8 && Decodes([], bits[..n], Done, [], data);
    assert bits[..n] <= bits && [] + data == data && |bits[..n]| == n;
    assert Reaches(bits, START, Machine(Done, n, data));
    var k: nat :| StepsTo(bits, START, k, Machine(Done, n, data));
    StartGood();
    assert n <= 8 * |z| < n + 8 && Ends(BitsOf(z), START, k, Machine(Done, n, data));
  }

  // tdefl_compress_mem_to_output: whichever way tdefl_compress_normal parses and whatever
  // blocks it is told to use, the output is a complete stream for the input.
  method CompressBuffer(data: seq<Byte>, forceRaw: bool, forceStatic: bool, greedy: bool, rle: bool, filter: bool,
      fast: bool,
      maxProbes0: nat, maxProbes1: nat) returns (z: seq<Byte>)
    requires maxProbes0 > 0 && maxProbes1 > 0
    ensures Inflates(z, data)
  {
    hide StreamEnds, Delivered, Decodes;
    var c := new Compressor(forceRaw, forceStatic, greedy, rle, filter, fast, maxProbes0, maxProbes1);
    z := c.Compress(data, Finish);
    assert [] + data == data;
    StreamInflates(z, c.w.bits, data);
  }

  // ---------------------------------------------------------------------------------
  // Decompressing in pieces.

  // The run that a complete stream promises.
  lemma Promise(z: seq<Byte>, data: seq<Byte>) returns (k: nat, f: Machine)
    requires Inflates(z, data)
    ensures Ends(BitsOf(z), START, k, f) && f.st.Done? && f.out == data && f.pos <= 8 * |z| < f.pos + 8
  {
    var kk: nat, p: nat :| p <= 8 * |z| < p + 8 && Ends(BitsOf(z), START, kk, Machine(Done, p, data));
    k, f := kk, Machine(Done, p, data);
  }

  // What has been fed is part of the stream.
  lemma PieceContinues(z: seq<Byte>, from: nat, to: nat)
    requires from <= to <= |z|
    ensures 8 * to <= |BitsOf(z)|
    ensures forall i :: 0 <= i < to - from ==> z[from..to][i] == ByteAt(BitsOf(z), from + i)
  {
    hide ByteAt;
    forall i | 0 <= i < to - from
      ensures z[from..to][i] == ByteAt(BitsOf(z), from + i)
    {
      ByteOfBits(z, from + i);
    }
  }

  // The bytes a call has made, at the place it put them.
  lemma {:induction false} MadeBytes(b: seq<Byte>, cur: nat, wrap: bool, out: seq<Byte>, n: nat)
    requires Mirror(b, cur, wrap, out) && n <= cur
    ensures b[cur - n..cur] == out[|out| - n..]
    decreases n
  {
    hide Mirror;
    MirrorBounds(b, cur, wrap, out);
    if n > 0 {
      MadeBytes(b, cur, wrap, out, n - 1);
      LastByte(b, cur, wrap, out, n);
      assert b[cur - n..cur] == [b[cur - n]] + b[cur - (n - 1)..cur];
      assert out[|out| - n..] == [out[|out| - n]] + out[|out| - (n - 1)..];
    }
  }

  lemma LastByte(b: seq<Byte>, cur: nat, wrap: bool, out: seq<Byte>, n: nat)
    requires Mirror(b, cur, wrap, out) && 1 <= n <= cur
    ensures n <= |out| && b[cur - n] == out[|out| - n]
  {
    var i := |out| - n;
    if wrap {
      var q := (|out| - cur) / |b|;
      assert i == |b| * q + (cur - n);
      DivUnique(i, |b|, q, cur - n);
    }
    assert Slot(|b|, wrap, i) == cur - n;
  }

  // tinfl_decompress_mem_to_callback: decompression through a 32 KB ring, whose contents are
  // passed on piece by piece.
  method DecompressToCallback(z: seq<Byte>, ghost data: seq<Byte>) returns (done: bool, out: seq<Byte>, used: nat)
    requires Inflates(z, data)
    ensures done && out == data && used == |z|
  {
    hide Step, Good, Mirror, Ends, Decompressor.Inv, Decompressor.Resting, ByteAt;
    ghost var k, f := Promise(z, data);
    var dict := new Byte[LZ_DICT_SIZE];
    RingStart(dict[..]);
    var d := new Decompressor(dict, true, BitsOf(z), k, f);
    AtRest(d);
    out, used := [], 0;
    var ofs: nat := 0;
    done := false;
    while true
      invariant d.Resting() && d.stream == BitsOf(z) && d.goal == f && d.taken == used <= |z| && out == d.m.out
      invariant ofs < LZ_DICT_SIZE && Mirror(dict[..], ofs, true, d.m.out) && fresh(d) && fresh(dict)
      decreases |data| - |out|
    {
      PieceContinues(z, used, |z|);
      assert z[used..|z|] == z[used..];
      RunAhead(d);
      var status, n, made := d.Decompress(z[used..], ofs, LZ_DICT_SIZE, false);
      RunAhead(d);
      MadeBytes(dict[..], ofs + made, true, d.m.out, made);
      used := used + n;
      ghost var before := out;
      out := out + dict[ofs..ofs + made];
      if status != HasMoreOutput {
        NothingMissing(z, data, d.m, d.left, f, used, status);
        done := status == Finished;
        return;
      }
      RingTurn(dict[..], ofs + made, d.m.out);
      ofs := (ofs + made) % LZ_DICT_SIZE;
    }
  }

  lemma RingStart(b: seq<Byte>)
    requires |b| == LZ_DICT_SIZE
    ensures Mirror(b, 0, true, [])
  {
  }

  // A full ring starts over.
  lemma RingTurn(b: seq<Byte>, cur: nat, out: seq<Byte>)
    requires Mirror(b, cur, true, out) && cur == |b| == LZ_DICT_SIZE
    ensures Mirror(b, 0, true, out)
  {
    var q := (|out| - cur) / |b|;
    assert |out| == |b| * (q + 1) by { Bits.MulAdd(|b|, q, 1); }
    DivUnique(|out|, |b|, q + 1, 0);
  }

  lemma AtRest(d: Decompressor)
    requires d.Inv() && d.inCur == 0 && d.input == []
    ensures d.Resting()
  {
  }

  lemma RunAhead(d: Decompressor)
    requires d.Resting()
    ensures Ends(d.stream, d.m, d.left, d.goal) && d.m.out <= d.goal.out
  {
    hide Ends, Mirror, Step;
    SoFar(d.stream, d.m, d.left, d.goal);
  }

  // With the whole stream at hand a call can only end for lack of room or at the end.
  lemma NothingMissing(z: seq<Byte>, data: seq<Byte>, m: Machine, left: nat, goal: Machine, taken: nat, status: Status)
    requires Ends(BitsOf(z), m, left, goal) && goal.st.Done? && goal.out == data && taken <= |z|
    requires goal.pos <= 8 * |z| < goal.pos + 8
    requires status.Finished? ==> m == goal && 8 * taken == Aligned(m.pos)
    requires status.Broken? ==> m == goal && goal.st.Failed?
    requires status.NeedsMoreInput? || status.CannotMakeProgress? ==>
               taken == |z| && Good(m) && Step(BitsOf(z)[..8 * taken], m).Wait?
    ensures status.Finished? || status.HasMoreOutput?
    ensures status.Finished? ==> m.out == data && taken == |z|
  {
    hide Ends, Step, Good, BitsOf, Aligned;
    WaitIsNoEnd(BitsOf(z), m, left, goal);
    TakeAll(BitsOf(z));
    LastByteAligned(goal.pos, |z|);
  }

  lemma TakeAll(b: seq<bool>)
    ensures b[..|b|] == b
  {
  }

  lemma LastByteAligned(pos: nat, n: nat)
    requires pos <= 8 * n < pos + 8
    ensures Aligned(pos) == 8 * n
  {
  }

  // A run to an end never waits for more than the whole stream.
  lemma WaitIsNoEnd(stream: seq<bool>, m: Machine, left: nat, f: Machine)
    requires Ends(stream, m, left, f)
    ensures Good(m) && !Step(stream, m).Wait?
  {
    if !m.st.Done? && !m.st.Failed? {
      EndsNext(stream, m, left, f);
    }
  }

  ghost function Joined(pieces: seq<seq<Byte>>): (z: seq<Byte>) {
    if pieces == [] then [] else Joined(pieces[..|pieces| - 1]) + pieces[|pieces| - 1]
  }

  lemma {:induction false} JoinedPrefix(pieces: seq<seq<Byte>>, i: nat)
    requires i <= |pieces|
    ensures Joined(pieces[..i]) <= Joined(pieces)
    decreases |pieces|
  {
    if i < |pieces| {
      var r := pieces[..|pieces| - 1];
      JoinedPrefix(r, i);
      assert r[..i] == pieces[..i];
    } else {
      assert pieces[..i] == pieces;
    }
  }

  // Piece i stands where the earlier ones end.
  lemma PiecePlace(pieces: seq<seq<Byte>>, i: nat)
    requires i < |pieces|
    ensures var from, z := |Joined(pieces[..i])|, Joined(pieces);
            from + |pieces[i]| <= |z| && z[from..from + |pieces[i]|] == pieces[i] &&
                |Joined(pieces[..i + 1])| == from + |pieces[i]|
  {
    JoinedPrefix(pieces, i + 1);
    assert pieces[..i + 1][..i] == pieces[..i];
  }

  // Feeding one piece, with windows of any positive sizes: afterwards the stream has ended or
  // the whole piece is taken.
  method FeedPiece(d: Decompressor, piece: seq<Byte>, rooms: seq<nat>, turn: nat, next0: nat, ghost z: seq<Byte>,
      ghost data: seq<Byte>, ghost from: nat)
    returns (ended: bool, next: nat, turn': nat)
    requires d.Resting() && d.stream == BitsOf(z) && d.goal.st.Done? && d.goal.out == data && !d.wrap &&
             |data| <= d.buf.Length
    requires d.goal.pos <= 8 * |z| < d.goal.pos + 8 && rooms != [] && forall i :: 0 <= i < |rooms| ==> rooms[i] > 0
    requires d.taken == from && from + |piece| <= |z| && z[from..from + |piece|] == piece
    requires Mirror(d.buf[..], next0, false, d.m.out)
    modifies d, d.buf, d.t0, d.t0.lookUp, d.t0.tree, d.t1, d.t1.lookUp, d.t1.tree, d.t2, d.t2.lookUp, d.t2.tree
    ensures d.Resting() && d.stream == old(d.stream) && d.goal == old(d.goal) && Mirror(d.buf[..], next, false, d.m.out)
    ensures ended ==> d.m.out == data && d.taken == |z|
    ensures !ended ==> d.taken == from + |piece| < |z|
  {
    hide Step, Good, Mirror, Ends, Decompressor.Inv, Decompressor.Resting, ByteAt, BitsOf;
    next, turn', ended := next0, turn, false;
    var off: nat := 0;
    while true
      invariant off <= |piece| && d.taken == from + off && d.stream == BitsOf(z) && d.goal == old(d.goal)
      invariant d.Resting() && Mirror(d.buf[..], next, false, d.m.out)
      decreases |data| - |d.m.out|
    {
      PieceContinues(z, from + off, from + |piece|);
      assert z[from + off..from + |piece|] == piece[off..];
      RunAhead(d);
      MirrorBounds(d.buf[..], next, false, d.m.out);
      var room := rooms[turn' % |rooms|];
      turn' := turn' + 1;
      var end := if next + room <= d.buf.Length then next + room else d.buf.Length;
      var status, used, made := d.Decompress(piece[off..], next, end, true);
      RunAhead(d);
      off, next := off + used, next + made;
      if status != HasMoreOutput {
        PieceOver(z, data, d.m, d.left, d.goal, d.taken, status);
        ended := status == Finished;
        return;
      }
      OwedAhead(d.stream, d.m, d.left, d.goal);
      MirrorBounds(d.buf[..], next, false, d.m.out);
    }
  }

  lemma PieceOver(z: seq<Byte>, data: seq<Byte>, m: Machine, left: nat, goal: Machine, taken: nat, status: Status)
    requires Ends(BitsOf(z), m, left, goal) && goal.st.Done? && goal.out == data && taken <= |z|
    requires goal.pos <= 8 * |z| < goal.pos + 8 && !status.CannotMakeProgress? && !status.HasMoreOutput?
    requires status.Finished? ==> m == goal && 8 * taken == Aligned(m.pos)
    requires status.Broken? ==> m == goal && goal.st.Failed?
    requires status.NeedsMoreInput? ==> Good(m) && Step(BitsOf(z)[..8 * taken], m).Wait?
    ensures status.Finished? || (status.NeedsMoreInput? && taken < |z|)
    ensures status.Finished? ==> m.out == data && taken == |z|
  {
    hide Ends, Step, Good, BitsOf, Aligned;
    WaitIsNoEnd(BitsOf(z), m, left, goal);
    LastByteAligned(goal.pos, |z|);
    TakeAll(BitsOf(z));
  }

  // However the stream is cut into pieces, and whatever windows the output is written
  // through, the decompressor ends with exactly the bytes the stream stands for.
  method DecompressPieces(pieces: seq<seq<Byte>>, rooms: seq<nat>, buf: array<Byte>, ghost data: seq<Byte>)
    returns (done: bool, n: nat)
    requires Inflates(Joined(pieces), data) && buf.Length >= |data|
    requires rooms != [] && forall i :: 0 <= i < |rooms| ==> rooms[i] > 0
    modifies buf
    ensures done && n == |data| && buf[..n] == data
  {
    hide Step, Good, Mirror, Ends, Decompressor.Inv, Decompressor.Resting, ByteAt, BitsOf, Joined;
    ghost var z := Joined(pieces);
    ghost var k, f := Promise(z, data);
    var d := new Decompressor(buf, false, BitsOf(z), k, f);
    AtRest(d);
    BufferStart(buf[..]);
    JoinedNone(pieces);
    var turn := 0;
    n, done := 0, false;
    for i := 0 to |pieces|
      invariant d.Resting() && d.stream == BitsOf(z) && d.goal == f && d.taken == |Joined(pieces[..i])|
      invariant Mirror(buf[..], n, false, d.m.out) && fresh(d) && d.buf == buf && !d.wrap
      invariant i > 0 ==> d.taken < |z|
      invariant fresh(d.t0) && fresh(d.t1) && fresh(d.t2) && fresh(d.t0.lookUp) && fresh(d.t0.tree)
      invariant fresh(d.t1.lookUp) && fresh(d.t1.tree) && fresh(d.t2.lookUp) && fresh(d.t2.tree)
    {
      PiecePlace(pieces, i);
      done, n, turn := FeedPiece(d, pieces[i], rooms, turn, n, z, data, d.taken);
      if done {
        PlainBuffer(buf[..], n, d.m.out);
        return;
      }
    }
    assert pieces[..|pieces|] == pieces;
    NothingIsNoStream(z, data);
  }

  lemma BufferStart(b: seq<Byte>)
    ensures Mirror(b, 0, false, [])
  {
  }

  lemma PlainBuffer(b: seq<Byte>, cur: nat, out: seq<Byte>)
    requires Mirror(b, cur, false, out)
    ensures cur == |out| <= |b| && b[..cur] == out
  {
    forall i: nat | i < |out|
      ensures b[i] == out[i]
    {
      assert Slot(|b|, false, i) == i;
    }
  }

  lemma JoinedNone(pieces: seq<seq<Byte>>)
    ensures Joined(pieces[..0]) == []
  {
  }

  // An empty string is no stream.
  lemma NothingIsNoStream(z: seq<Byte>, data: seq<Byte>)
    requires Inflates(z, data)
    ensures |z| > 0
  {
    hide Step, Good;
    var k, f := Promise(z, data);
    if z == [] {
      EndsBits(BitsOf(z), START, k, f);
    }
  }

  // A string cut at the given places; a place before the last one or past the end cuts off
  // nothing.
  function CutUp(z: seq<Byte>, cuts: seq<nat>): (pieces: seq<seq<Byte>>)
    ensures Joined(pieces) == z
    decreases |cuts|
  {
    if cuts == [] then
      JoinedOne(z);
      [z]
    else
      var last := cuts[|cuts| - 1];
      var at := if last <= |z| then last else |z|;
      var pieces := CutUp(z[..at], cuts[..|cuts| - 1]);
      assert (pieces + [z[at..]])[..|pieces|] == pieces;
      assert z[..at] + z[at..] == z;
      pieces + [z[at..]]
  }

  lemma JoinedOne(z: seq<Byte>)
    ensures Joined([z]) == z
  {
    assert [z][..0] == [];
  }

  // Compressing, and decompressing the result cut up in any way, is the identity.
  method RoundTrip(data: seq<Byte>, cuts: seq<nat>, rooms: seq<nat>, buf: array<Byte>, forceRaw: bool,
      forceStatic: bool, greedy: bool, rle: bool, filter: bool, fast: bool, maxProbes0: nat, maxProbes1: nat)
    returns (done: bool, n: nat)
    requires maxProbes0 > 0 && maxProbes1 > 0 && buf.Length >= |data|
    requires rooms != [] && forall i :: 0 <= i < |rooms| ==> rooms[i] > 0
    modifies buf
    ensures done && n == |data| && buf[..n] == data
  {
    hide Inflates, Joined;
    var z := CompressBuffer(data, forceRaw, forceStatic, greedy, rle, filter, fast, maxProbes0, maxProbes1);
    done, n := DecompressPieces(CutUp(z, cuts), rooms, buf, data);
  }
}
