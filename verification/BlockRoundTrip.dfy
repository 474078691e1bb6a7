// Every kind of block the compressor writes is decoded to exactly the bytes it stands for.
module BlockRoundTrip {
  import opened Arith
  import opened Bits
  import opened Canonical
  import opened Tokens
  import opened InflateMachine
  import opened InflateRun
  import opened BlockBits
  import opened BlockDecode
  import opened HeaderDecode
  import opened TableTrim
  import opened BlockEncoder
  import opened BlockStart

  // However the stream goes on after the bits of `after`, the decompressor gets through
  // those that follow `before`, having appended `block` to the bytes already produced.
  ghost predicate Decodes(before: seq<bool>, after: seq<bool>, next: State, hist: seq<Byte>, block: seq<Byte>)
  {
    forall stream :: after <= stream ==>
      Reaches(stream, Machine(BlockHead, |before|, hist), Machine(next, |after|, hist + block))
  }

  lemma StreamAt(before: seq<bool>, w: seq<bool>, stream: seq<bool>)
    requires before + w <= stream
    ensures At(stream, |before|, w)
  {
    assert (before + w)[|before|..] == w;
  }

  ghost function DynamicBlock(fin: bool, h: Header, ls: seq<nat>, ds: seq<nat>, ts: seq<Token>): seq<bool>
    requires Understood(h) && CanEncode(ls, ds, ts)
  {
    [fin] + HeaderBits(h) + BodyBits(ls, ds, ts)
  }

  lemma DynamicRoundTrip(before: seq<bool>, fin: bool, h: Header, ls: seq<nat>, ds: seq<nat>, ts: seq<Token>,
      hist: seq<Byte>)
    requires Started(h, ls, ds) && CanEncode(ls, ds, ts) && ValidTokens(ts, |hist|)
    ensures Decodes(before, before + DynamicBlock(fin, h, ls, ds, ts), EndBlock(fin), hist, Replay(hist, ts)[|hist|..])
  {
    hide Reaches, UnusedFrom, Understood, CanEncode, DynamicBlock;
    assert hist + Replay(hist, ts)[|hist|..] == Replay(hist, ts);
    var after := before + DynamicBlock(fin, h, ls, ds, ts);
    forall stream | after <= stream
      ensures Reaches(stream, Machine(BlockHead, |before|, hist), Machine(EndBlock(fin), |after|, Replay(hist, ts)))
    {
      StreamAt(before, DynamicBlock(fin, h, ls, ds, ts), stream);
      DynamicRuns(stream, |before|, fin, h, ls, ds, ts, hist);
    }
  }

  lemma BodyAfter(stream: seq<bool>, pos: nat, fin: bool, ls: seq<nat>, ds: seq<nat>, at: nat, hist: seq<Byte>,
      ts: seq<Token>)
    requires CodesOK(ls, ds) && CanEncode(ls, ds, ts) && ValidTokens(ts, |hist|) && At(stream, at, BodyBits(ls, ds, ts))
    requires Reaches(stream, Machine(BlockHead, pos, hist), SymState(fin, ls, ds, at, hist))
    ensures Reaches(stream, Machine(BlockHead, pos, hist),
            Machine(EndBlock(fin), at + |BodyBits(ls, ds, ts)|, Replay(hist, ts)))
  {
    hide Reaches, At, BodyBits, CodesOK, Replay, ValidTokens, AllEncodable;
    BodyDecodes(stream, fin, ls, ds, at, hist, ts);
    ReachesTrans(stream, Machine(BlockHead, pos, hist), SymState(fin, ls, ds, at, hist),
      Machine(EndBlock(fin), at + |BodyBits(ls, ds, ts)|, Replay(hist, ts)));
  }

  lemma DynamicRuns(stream: seq<bool>, pos: nat, fin: bool, h: Header, ls: seq<nat>, ds: seq<nat>, ts: seq<Token>,
      hist: seq<Byte>)
    requires Started(h, ls, ds) && CanEncode(ls, ds, ts) && ValidTokens(ts, |hist|) &&
             At(stream, pos, DynamicBlock(fin, h, ls, ds, ts))
    ensures Reaches(stream, Machine(BlockHead, pos, hist),
            Machine(EndBlock(fin), pos + |DynamicBlock(fin, h, ls, ds, ts)|, Replay(hist, ts)))
  {
    hide Reaches, At, HeaderBits, BodyBits, Understood, UnusedFrom, Replay, AllEncodable, ValidTokens, CodesOK,
         HeaderOK;
    CanEncodeMeans(ls, ds, ts);
    TrimBody(ls, ds, |h.l|, |h.d|, ts);
    UnderstoodMeans(h);
    var a, b := HeaderBits(h), BodyBits(ls, ds, ts);
    var at := pos + 1 + |a|;
    AtConcat(stream, pos, [fin] + a, b);
    HeaderDecodes(stream, fin, pos, hist, h.l, h.d, h.cl, h.n, h.items);
    BodyAfter(stream, pos, fin, h.l, h.d, at, hist, ts);
  }

  lemma CanEncodeMeans(ls: seq<nat>, ds: seq<nat>, ts: seq<Token>)
    requires CanEncode(ls, ds, ts)
    ensures Used(ls, END_OF_BLOCK) && AllEncodable(ls, ds, ts)
  {
  }

  lemma UnderstoodMeans(h: Header)
    requires Understood(h)
    ensures HeaderOK(h.l, h.d, h.cl, h.n, h.items) && CodesOK(h.l, h.d)
    ensures HeaderBits(h) == DynamicHeader(h.l, h.d, h.cl, h.n, h.items)
  {
    hide DynamicHeader, CodesOK;
  }

  ghost function StaticBlock(fin: bool, ts: seq<Token>): seq<bool>
    requires CanEncode(StaticLit(), StaticDist(), ts)
  {
    [fin] + LsbBits(1, 2) + BodyBits(StaticLit(), StaticDist(), ts)
  }

  lemma StaticRoundTrip(before: seq<bool>, fin: bool, ts: seq<Token>, hist: seq<Byte>)
    requires ValidTokens(ts, |hist|) && CanEncode(StaticLit(), StaticDist(), ts)
    ensures Decodes(before, before + StaticBlock(fin, ts), EndBlock(fin), hist, Replay(hist, ts)[|hist|..])
  {
    hide Reaches, CanEncode, StaticBlock;
    assert hist + Replay(hist, ts)[|hist|..] == Replay(hist, ts);
    var after := before + StaticBlock(fin, ts);
    forall stream | after <= stream
      ensures Reaches(stream, Machine(BlockHead, |before|, hist), Machine(EndBlock(fin), |after|, Replay(hist, ts)))
    {
      StreamAt(before, StaticBlock(fin, ts), stream);
      StaticRuns(stream, |before|, fin, ts, hist);
    }
  }

  lemma StaticParts(fin: bool, ts: seq<Token>)
    requires CanEncode(StaticLit(), StaticDist(), ts)
    ensures StaticBlock(fin, ts) == [fin] + LsbBits(1, 2) + BodyBits(StaticLit(), StaticDist(), ts)
  {
  }

  lemma StaticRuns(stream: seq<bool>, pos: nat, fin: bool, ts: seq<Token>, hist: seq<Byte>)
    requires ValidTokens(ts, |hist|) && CanEncode(StaticLit(), StaticDist(), ts) &&
             At(stream, pos, StaticBlock(fin, ts))
    ensures Reaches(stream, Machine(BlockHead, pos, hist),
            Machine(EndBlock(fin), pos + |StaticBlock(fin, ts)|, Replay(hist, ts)))
  {
    hide *;
    StaticParts(fin, ts);
    var ls, ds := StaticLit(), StaticDist();
    CanEncodeMeans(ls, ds, ts);
    StaticCodes();
    var b := BodyBits(ls, ds, ts);
    AtConcat(stream, pos, [fin] + LsbBits(1, 2), b);
    StaticHeadReaches(stream, fin, pos, hist);
    BodyAfter(stream, pos, fin, ls, ds, pos + 3, hist, ts);
  }

  // ---------------------------------------------------------------------------------
  // Stored blocks.

  function Pad(n: nat): (b: seq<bool>)
    ensures (n + |b|) % 8 == 0 && |b| < 8
  {
    LsbBits(0, (8 - n % 8) % 8)
  }

  ghost function ByteBits(bytes: seq<Byte>): (b: seq<bool>)
    ensures |b| == 8 * |bytes|
  {
    if bytes == [] then [] else ByteBits(bytes[..|bytes| - 1]) + LsbBits(bytes[|bytes| - 1], 8)
  }

  // From the header's three bits on, when p bits precede them.
  ghost function RawBits(fin: bool, p: nat, bytes: seq<Byte>): seq<bool>
    requires |bytes| < 0x1_0000
  {
    [fin] + LsbBits(0, 2) + Pad(p + 3) + LsbBits(|bytes|, 16) + LsbBits(0xFFFF - |bytes|, 16) + ByteBits(bytes)
  }

  lemma {:induction false} RawBodyRuns(stream: seq<bool>, fin: bool, pos: nat, left: nat, out: seq<Byte>,
      bytes: seq<Byte>)
    requires At(stream, pos, ByteBits(bytes)) && |bytes| <= left
    ensures Reaches(stream, Machine(RawBody(fin, left), pos, out),
            Machine(RawBody(fin, left - |bytes|), pos + 8 * |bytes|, out + bytes))
    decreases |bytes|
  {
    hide Reaches, At, LsbBits;
    var m := Machine(RawBody(fin, left), pos, out);
    if bytes == [] {
      assert out + bytes == out;
      ReachesSelf(stream, m);
    } else {
      var r, b := bytes[..|bytes| - 1], bytes[|bytes| - 1];
      AtConcat(stream, pos, ByteBits(r), LsbBits(b, 8));
      RawBodyRuns(stream, fin, pos, left, out, r);
      RawByteRuns(stream, fin, pos + 8 * |r|, left - |r|, out + r, b);
      assert (out + r) + [b] == out + bytes;
      ReachesTrans(stream, m, Machine(RawBody(fin, left - |r|), pos + 8 * |r|, out + r),
          Machine(RawBody(fin, left - |bytes|), pos + 8 * |bytes|, out + bytes));
    }
  }

  lemma RawByteRuns(stream: seq<bool>, fin: bool, pos: nat, left: nat, out: seq<Byte>, b: Byte)
    requires At(stream, pos, LsbBits(b, 8)) && left > 0
    ensures Reaches(stream, Machine(RawBody(fin, left), pos, out), Machine(RawBody(fin, left - 1), pos + 8, out + [b]))
  {
    hide Reaches, At, Pow2;
    SmallPowers();
    ReadAt(stream, pos, b, 8);
    var m, m1 := Machine(RawBody(fin, left), pos, out), Machine(RawOut(fin, left - 1, b), pos + 8, out);
    ReachesStep(stream, m);
    assert Step(stream, m).m == m1;
    ReachesStep(stream, m1);
    ReachesTrans(stream, m, m1, Machine(RawBody(fin, left - 1), pos + 8, out + [b]));
  }

  lemma RawHeadRuns(stream: seq<bool>, fin: bool, pos: nat, out: seq<Byte>, head: seq<nat>, v: nat)
    requires |head| < 4 && v < 256 && At(stream, pos, LsbBits(v, 8))
    ensures Reaches(stream, Machine(RawHead(fin, head), pos, out), Machine(AfterRawHead(fin, head + [v]), pos + 8, out))
  {
    hide Reaches, At, Pow2, AfterRawHead;
    SmallPowers();
    ReadAt(stream, pos, v, 8);
    ReachesStep(stream, Machine(RawHead(fin, head), pos, out));
  }

  lemma TwoBytes(v: nat)
    requires v < 0x1_0000
    ensures LsbBits(v, 16) == LsbBits(v % 256, 8) + LsbBits(v / 256, 8)
  {
    hide LsbBits;
    SmallPowers();
    LsbConcat(v % 256, 8, v / 256, 8);
  }

  lemma RawHeaderRuns(stream: seq<bool>, fin: bool, pos: nat, out: seq<Byte>, n: nat)
    requires n < 0x1_0000 && At(stream, pos, LsbBits(n, 16) + LsbBits(0xFFFF - n, 16))
    ensures Reaches(stream, Machine(RawHead(fin, []), pos, out), Machine(RawBody(fin, n), pos + 32, out))
  {
    hide Reaches, At, LsbBits;
    var c := 0xFFFF - n;
    TwoBytes(n);
    TwoBytes(c);
    AtConcat(stream, pos, LsbBits(n, 16), LsbBits(c, 16));
    AtConcat(stream, pos, LsbBits(n % 256, 8), LsbBits(n / 256, 8));
    AtConcat(stream, pos + 16, LsbBits(c % 256, 8), LsbBits(c / 256, 8));
    RawHeadRuns(stream, fin, pos, out, [], n % 256);
    RawHeadRuns(stream, fin, pos + 8, out, [n % 256], n / 256);
    RawHeadRuns(stream, fin, pos + 16, out, [n % 256, n / 256], c % 256);
    RawHeadRuns(stream, fin, pos + 24, out, [n % 256, n / 256, c % 256], c / 256);
    assert [] + [n % 256] == [n % 256] && [n % 256] + [n / 256] == [n % 256, n / 256];
    assert [n % 256, n / 256] + [c % 256] == [n % 256, n / 256, c % 256];
    assert [n % 256, n / 256, c % 256] + [c / 256] == [n % 256, n / 256, c % 256, c / 256];
    RawLengthOK(fin, n);
    var m := Machine(RawHead(fin, []), pos, out);
    ReachesTrans(stream, m, Machine(RawHead(fin, [n % 256]), pos + 8, out),
        Machine(RawHead(fin, [n % 256, n / 256]), pos + 16, out));
    ReachesTrans(stream, m, Machine(RawHead(fin, [n % 256, n / 256]), pos + 16, out),
        Machine(RawHead(fin, [n % 256, n / 256, c % 256]), pos + 24, out));
    ReachesTrans(stream, m, Machine(RawHead(fin, [n % 256, n / 256, c % 256]), pos + 24, out),
        Machine(RawBody(fin, n), pos + 32, out));
  }

  lemma RawLengthOK(fin: bool, n: nat)
    requires n < 0x1_0000
    ensures AfterRawHead(fin, [n % 256, n / 256, (0xFFFF - n) % 256, (0xFFFF - n) / 256]) == RawBody(fin, n)
  {
  }

  lemma RawStarts(stream: seq<bool>, fin: bool, pos: nat, out: seq<Byte>)
    requires At(stream, pos, [fin] + LsbBits(0, 2))
    ensures Reaches(stream, Machine(BlockHead, pos, out), Machine(RawHead(fin, []), pos + 3 + |Pad(pos + 3)|, out))
  {
    hide Reaches, At, Step, LsbBits;
    HeadTypeDecodes(stream, fin, pos, out, 0);
    ReachesStep(stream, Machine(BlockHead, pos, out));
  }

  lemma RawEnds(stream: seq<bool>, fin: bool, pos: nat, out: seq<Byte>)
    ensures Reaches(stream, Machine(RawBody(fin, 0), pos, out), Machine(EndBlock(fin), pos, out))
  {
    hide Reaches;
    ReachesStep(stream, Machine(RawBody(fin, 0), pos, out));
  }

  // A stored block comes back byte for byte; with no bytes it is the marker of a sync flush.
  lemma RawRoundTrip(before: seq<bool>, fin: bool, bytes: seq<Byte>, hist: seq<Byte>)
    requires |bytes| < 0x1_0000
    ensures Decodes(before, before + RawBits(fin, |before|, bytes), EndBlock(fin), hist, bytes)
  {
    hide Reaches, At, LsbBits, ByteBits, Pad;
    var n, p := |bytes|, Pad(|before| + 3);
    var head, len, body := [fin] + LsbBits(0, 2), LsbBits(n, 16) + LsbBits(0xFFFF - n, 16), ByteBits(bytes);
    var w := RawBits(fin, |before|, bytes);
    assert w == ((head + p) + len) + body;
    forall stream | before + w <= stream
      ensures Reaches(stream, Machine(BlockHead, |before|, hist), Machine(EndBlock(fin), |before + w|, hist + bytes))
    {
      StreamAt(before, w, stream);
      AtConcat(stream, |before|, (head + p) + len, body);
      AtConcat(stream, |before|, head + p, len);
      AtConcat(stream, |before|, head, p);
      var m, at := Machine(BlockHead, |before|, hist), |before| + 3 + |p|;
      RawStarts(stream, fin, |before|, hist);
      RawHeaderRuns(stream, fin, at, hist, n);
      RawBodyRuns(stream, fin, at + 32, n, hist, bytes);
      RawEnds(stream, fin, at + 32 + 8 * n, hist + bytes);
      ReachesTrans(stream, m, Machine(RawHead(fin, []), at, hist), Machine(RawBody(fin, n), at + 32, hist));
      ReachesTrans(stream, m, Machine(RawBody(fin, n), at + 32, hist),
          Machine(RawBody(fin, 0), at + 32 + 8 * n, hist + bytes));
      ReachesTrans(stream, m, Machine(RawBody(fin, 0), at + 32 + 8 * n, hist + bytes),
          Machine(EndBlock(fin), |before + w|, hist + bytes));
    }
  }

  // ---------------------------------------------------------------------------------
  // One block after the other.

  lemma DecodesTrans(a: seq<bool>, b: seq<bool>, c: seq<bool>, next: State, hist: seq<Byte>, x: seq<Byte>, y: seq<Byte>)
    requires Decodes(a, b, BlockHead, hist, x) && Decodes(b, c, next, hist + x, y) && b <= c
    ensures Decodes(a, c, next, hist, x + y)
  {
    hide Reaches;
    forall stream | c <= stream
      ensures Reaches(stream, Machine(BlockHead, |a|, hist), Machine(next, |c|, hist + (x + y)))
    {
      assert b <= stream;
      assert (hist + x) + y == hist + (x + y);
      ReachesTrans(stream, Machine(BlockHead, |a|, hist), Machine(BlockHead, |b|, hist + x),
          Machine(next, |c|, hist + (x + y)));
    }
  }

  lemma DecodesNothing(a: seq<bool>, hist: seq<Byte>)
    ensures Decodes(a, a, BlockHead, hist, [])
  {
    hide Reaches;
    forall stream | a <= stream
      ensures Reaches(stream, Machine(BlockHead, |a|, hist), Machine(BlockHead, |a|, hist + []))
    {
      assert hist + [] == hist;
      ReachesSelf(stream, Machine(BlockHead, |a|, hist));
    }
  }
}
