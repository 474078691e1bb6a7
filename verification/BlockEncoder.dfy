// Writing one compressed block (kernel/miniz/miniz.c:969-1220).
module BlockEncoder {
  import opened Arith
  import opened Bits
  import opened Canonical
  import opened HuffTable
  import opened FastTable
  import opened Tokens
  import opened BlockBits
  import opened BitWriter
  import opened LzCodes

  // One row each of m_huff_count, m_huff_code_sizes and m_huff_codes.
  class CodeTable {
    const counts: array<U16>
    const sizes: array<nat>
    const codes: array<nat>

    ghost predicate Shaped(n: nat) {
      counts.Length == sizes.Length == codes.Length == n && sizes != codes
    }

    // The codes belong to the sizes and no code begins another.
    ghost predicate Coded()
      reads sizes, codes
    {
      Feasible(MAX_CODE_SIZE, sizes[..]) && CodesFor(sizes[..], codes[..], sizes.Length)
    }

    constructor (n: nat)
      ensures Shaped(n) && fresh(counts) && fresh(sizes) && fresh(codes)
      ensures forall i :: 0 <= i < n ==> counts[i] == 0
    {
      counts := new U16[n](_ => 0);
      sizes := new nat[n](_ => 0);
      codes := new nat[n](_ => 0);
    }

    // The code of one symbol.
    method PutSymbol(w: BitWriter, s: nat)
      requires w.Valid() && Shaped(sizes.Length) && Coded() && Used(sizes[..], s)
      modifies w, w.buf
      ensures w.Valid() && w.bits == old(w.bits) + Codeword(sizes[..], s) && w.sent == old(w.sent) &&
              w.outPos >= old(w.outPos)
    {
      hide Codeword, LsbBits, Pow2, CodesFor;
      CodeBits(MAX_CODE_SIZE, sizes[..], codes[..], s);
      w.PutBits(codes[s], sizes[s]);
    }
  }

  // ---------------------------------------------------------------------------------
  // The body: codes of all tokens and the end of the block.

  ghost predicate CanEncode(ls: seq<nat>, ds: seq<nat>, ts: seq<Token>)
  {
    Used(ls, END_OF_BLOCK) && AllEncodable(ls, ds, ts)
  }

  // The bits of one match, in the order the source puts them.
  method PutMatchBits(w: BitWriter, lit: CodeTable, dist: CodeTable, matchLen: nat, matchDist: nat)
    requires w.Valid() && lit.Shaped(288) && dist.Shaped(32) && lit.Coded() && dist.Coded()
    requires matchLen < 256 && matchDist < LZ_DICT_SIZE
    requires Encodable(lit.sizes[..], dist.sizes[..], Match(matchLen + MIN_MATCH_LEN, matchDist + 1))
    modifies w, w.buf
    ensures w.Valid() && w.sent == old(w.sent) && w.outPos >= old(w.outPos)
    ensures w.bits == old(w.bits) + TokenBits(lit.sizes[..], dist.sizes[..],
            Match(matchLen + MIN_MATCH_LEN, matchDist + 1))
  {
    hide Codeword, LsbBits, Pow2, LenSym, LenExtra, SmallDistSym, SmallDistExtra, LargeDistSym, LargeDistExtra,
         Feasible, CodesFor;
    ghost var before := w.bits;
    var e := LenExtra(matchLen);
    ExtraRange(matchLen, matchDist);
    lit.PutSymbol(w, LenSym(matchLen));
    w.PutBits(matchLen % Pow2(e), e);
    var sym, extra;
    if matchDist < 512 {
      sym := SmallDistSym(matchDist);
      extra := SmallDistExtra(matchDist);
    } else {
      sym := LargeDistSym(matchDist / 256);
      extra := LargeDistExtra(matchDist / 256);
    }
    dist.PutSymbol(w, sym);
    w.PutBits(matchDist % Pow2(extra), extra);
    assert w.bits == before + (Codeword(lit.sizes[..], LenSym(matchLen)) + LsbBits(matchLen % Pow2(e), e)
                               + (Codeword(dist.sizes[..], sym) + LsbBits(matchDist % Pow2(extra), extra)));
  }

  lemma ExtraRange(i: nat, d: nat)
    requires i < 256 && d < LZ_DICT_SIZE
    ensures LenExtra(i) <= 5 && DistExtra(d) <= 13
  {
  }

  // What is left to read: codes g of a group that has been entered, and the groups after it.
  ghost predicate Reading(rest: seq<Byte>, flags: nat, g: seq<Token>, tail: seq<Token>, c: nat)
  {
    && AllRecordable(g) && AllRecordable(tail) && rest == Bytes(g) + Packed(tail)
    && |g| <= c <= 8 && (tail != [] ==> c == |g|)
    && flags == LsbValue(Flags(g)) + Pow2(c)
  }

  lemma ReadingStart(ts: seq<Token>)
    requires AllRecordable(ts)
    ensures Reading(Packed(ts), 1, [], ts, 0)
  {
    assert Bytes([]) == [] && Flags([]) == [];
  }

  // A byte of flags is fetched exactly when a group is used up.
  lemma NextGroup(rest: seq<Byte>, flags: nat, tail: seq<Token>, c: nat, first: nat)
    requires Reading(rest, flags, [], tail, c) && rest != [] && first == rest[0]
    ensures flags == 1 && tail != []
    ensures AllRecordable(Group(tail)) && AllRecordable(tail[|Group(tail)|..])
    ensures Reading(rest[1..], first + 0x100, Group(tail), tail[|Group(tail)|..], 8)
  {
    hide Bytes, LsbValue, Pow2, Flags, AllRecordable, Packed;
    EmptyGroup(0);
    PackedNone();
    SmallPowers();
    assert rest == Packed(tail);
    PackedStep(tail);
    var f := Bytes(Group(tail)) + Packed(tail[|Group(tail)|..]);
    assert rest == [FlagByte(Group(tail))] + f;
    assert rest[1..] == f;
  }

  lemma PackedStep(ts: seq<Token>)
    requires AllRecordable(ts) && ts != []
    ensures AllRecordable(Group(ts)) && AllRecordable(ts[|Group(ts)|..])
    ensures Packed(ts) == [FlagByte(Group(ts))] + Bytes(Group(ts)) + Packed(ts[|Group(ts)|..])
  {
    hide Bytes, FlagByte;
  }

  lemma BytesStep(g: seq<Token>)
    requires AllRecordable(g) && g != []
    ensures Recordable(g[0]) && AllRecordable(g[1..]) && Bytes(g) == TokenBytes(g[0]) + Bytes(g[1..])
    ensures |TokenBytes(g[0])| >= 1
  {
  }

  lemma FlagsStep(g: seq<Token>)
    requires g != []
    ensures LsbValue(Flags(g)) == Bit(g[0].Match?) + 2 * LsbValue(Flags(g[1..]))
  {
    assert Flags(g)[1..] == Flags(g[1..]);
  }

  lemma GroupEntered(rest: seq<Byte>, flags: nat, g: seq<Token>, tail: seq<Token>, c: nat)
    requires Reading(rest, flags, g, tail, c) && g != []
    ensures flags != 1 && rest != [] && c > 0 && (flags % 2 == 1 <==> g[0].Match?)
    ensures Recordable(g[0]) && |TokenBytes(g[0])| <= |rest| && rest[..|TokenBytes(g[0])|] == TokenBytes(g[0])
    ensures Reading(rest[|TokenBytes(g[0])|..], flags / 2, g[1..], tail, c - 1)
  {
    hide Packed, Bytes, LsbValue, Pow2, Flags, AllRecordable, TokenBytes, Recordable;
    BytesStep(g);
    FlagsStep(g);
    HalfPower(c);
    FlagHalves(Bit(g[0].Match?), LsbValue(Flags(g[1..])), Pow2(c - 1));
    var w, f := TokenBytes(g[0]), Bytes(g[1..]) + Packed(tail);
    assert rest == w + f;
    assert rest[..|w|] == w && rest[|w|..] == f;
  }

  // Fetching a byte of flags when there are none left leads to a group with codes in it.
  lemma FlagsAhead(rest: seq<Byte>, flags: nat, g: seq<Token>, tail: seq<Token>, c: nat)
    returns (g': seq<Token>, tail': seq<Token>, c': nat)
    requires Reading(rest, flags, g, tail, c) && rest != []
    ensures g' != [] && g' + tail' == g + tail
    ensures if flags == 1 then Reading(rest[1..], rest[0] as int + 0x100, g', tail', c')
            else Reading(rest, flags, g', tail', c')
  {
    hide Reading;
    if g == [] {
      NextGroup(rest, flags, tail, c, rest[0]);
      g', tail', c' := Group(tail), tail[|Group(tail)|..], 8;
      assert g' + tail' == tail == g + tail;
    } else {
      GroupEntered(rest, flags, g, tail, c);
      g', tail', c' := g, tail, c;
    }
  }

  lemma HalfPower(c: nat)
    requires c > 0
    ensures Pow2(c) == 2 * Pow2(c - 1) >= 2
  {
  }

  lemma FlagHalves(b: nat, v: nat, p: nat)
    requires b <= 1
    ensures (b + 2 * v + 2 * p) / 2 == v + p && (b + 2 * v + 2 * p) % 2 == b
  {
  }

  lemma SomeBytes(t: Token)
    requires Recordable(t)
    ensures |TokenBytes(t)| >= 1
  {
  }

  lemma ReadingEnds(rest: seq<Byte>, flags: nat, g: seq<Token>, tail: seq<Token>, c: nat)
    requires Reading(rest, flags, g, tail, c) && rest == []
    ensures g == [] && tail == []
  {
  }

  // The whole bytes of the stream that have not left the buffer stay below its end.
  ghost predicate Fits(bits: seq<bool>, sent: nat) {
    |bits| / 8 - sent < OUT_BUF_SIZE - 16
  }

  lemma FitsMeans(buf: seq<Byte>, outPos: nat, end: nat, sent: nat, bits: seq<bool>)
    requires Stored(buf, outPos, end, sent, bits, |bits| / 8) && end == OUT_BUF_SIZE - 16
    ensures outPos < end <==> Fits(bits, sent)
  {
  }

  // tdefl_compress_lz_codes without the 64-bit fast path.
  method CompressLzCodes(w: BitWriter, lit: CodeTable, dist: CodeTable, codes: array<Byte>, codeEnd: nat,
      ghost ts: seq<Token>) returns (fits: bool)
    requires w.Valid() && codes != w.buf && lit.Shaped(288) && dist.Shaped(32) && lit.Coded() && dist.Coded()
    requires AllRecordable(ts) && codeEnd <= codes.Length && codes[..codeEnd] == Packed(ts)
    requires CanEncode(lit.sizes[..], dist.sizes[..], ts)
    modifies w, w.buf
    ensures w.Valid() && w.sent == old(w.sent) && w.outPos >= old(w.outPos)
    ensures w.bits == old(w.bits) + BodyBits(lit.sizes[..], dist.sizes[..], ts)
    ensures fits <==> Fits(w.bits, w.sent)
  {
    hide Packed, Bytes, Codeword, LsbValue, Pow2, Reading, TokensBits, AllRecordable, Feasible, CodesFor, AllEncodable,
         TokenBits;
    hide Fits, BitWriter.Valid, Encodable, TokenBytes;
    ghost var before, b, ls, ds := w.bits, codes[..], lit.sizes[..], dist.sizes[..];
    ghost var g: seq<Token>, tail, c: nat, k: nat := [], ts, 0, 0;
    var flags: nat, p := 1, 0;
    ReadingStart(ts);
    NoTokens(ls, ds, ts);
    assert b[0..codeEnd] == Packed(ts);
    while p < codeEnd
      invariant p <= codeEnd && codes[..] == b && w.Valid() && w.sent == old(w.sent) && w.outPos >= old(w.outPos)
      invariant Reading(b[p..codeEnd], flags, g, tail, c)
      invariant k <= |ts| && ts[k..] == g + tail && AllEncodable(ls, ds, ts[..k]) &&
                w.bits == before + TokensBits(ls, ds, ts[..k])
      decreases codeEnd - p
    {
      ghost var rest := b[p..codeEnd];
      g, tail, c := FlagsAhead(rest, flags, g, tail, c);
      if flags == 1 {
        var first: nat := codes[p];
        flags := first + 0x100;
        p := p + 1;
        assert rest[1..] == b[p..codeEnd];
      }
      assert ts[k..][0] == ts[k] == g[0];
      GroupEntered(b[p..codeEnd], flags, g, tail, c);
      SomeBytes(g[0]);
      NextToken(ls, ds, ts, k);
      p := PutToken(w, lit, dist, codes, p, flags, codeEnd, g[0]);
      flags := flags / 2;
      assert ts[k + 1..] == ts[k..][1..] == g[1..] + tail;
      g, c, k := g[1..], c - 1, k + 1;
    }
    ReadingEnds(b[p..codeEnd], flags, g, tail, c);
    assert ts[k..] == [] && ts[..k] == ts;
    lit.PutSymbol(w, END_OF_BLOCK);
    fits := w.outPos < w.end;
    FitsNow(w);
  }

  lemma FitsNow(w: BitWriter)
    requires w.Valid()
    ensures w.outPos < w.end <==> Fits(w.bits, w.sent)
  {
    hide ByteAt, LsbValue;
    FitsMeans(w.buf[..], w.outPos, w.end, w.sent, w.bits);
  }

  lemma NoTokens(ls: seq<nat>, ds: seq<nat>, ts: seq<Token>)
    ensures AllEncodable(ls, ds, ts[..0]) && TokensBits(ls, ds, ts[..0]) == []
  {
  }

  lemma NextToken(ls: seq<nat>, ds: seq<nat>, ts: seq<Token>, k: nat)
    requires AllEncodable(ls, ds, ts) && k < |ts|
    ensures AllEncodable(ls, ds, ts[..k]) && AllEncodable(ls, ds, ts[..k + 1]) && Encodable(ls, ds, ts[k])
    ensures TokensBits(ls, ds, ts[..k + 1]) == TokensBits(ls, ds, ts[..k]) + TokenBits(ls, ds, ts[k])
  {
    hide Encodable, TokenBits, TokensBits;
    assert ts[..k + 1] == ts[..k] + [ts[k]];
    TokensSnoc(ls, ds, ts[..k], ts[k]);
  }

  // One code of the buffer (source lines 1185-1214).
  method PutToken(w: BitWriter, lit: CodeTable, dist: CodeTable, codes: array<Byte>, p0: nat, flags: nat, codeEnd: nat,
      ghost t: Token) returns (p: nat)
    requires w.Valid() && codes != w.buf && lit.Shaped(288) && dist.Shaped(32) && lit.Coded() && dist.Coded()
    requires p0 <= codeEnd <= codes.Length && Recordable(t) && |TokenBytes(t)| <= codeEnd - p0
    requires codes[..][p0..codeEnd][..|TokenBytes(t)|] == TokenBytes(t) && (flags % 2 == 1 <==> t.Match?)
    requires Encodable(lit.sizes[..], dist.sizes[..], t)
    modifies w, w.buf
    ensures w.Valid() && p == p0 + |TokenBytes(t)| && w.sent == old(w.sent) && w.outPos >= old(w.outPos)
    ensures w.bits == old(w.bits) + TokenBits(lit.sizes[..], dist.sizes[..], t)
    ensures codes[..][p0..codeEnd][|TokenBytes(t)|..] == codes[..][p..codeEnd]
  {
    hide Feasible, CodesFor, Codeword, LenSym, LenExtra, DistSym, DistExtra, LsbBits, Pow2, TokenBytes;
    p := p0;
    if flags % 2 == 1 {
      MatchBytes(codes[..], p, codeEnd, t);
      var low: nat, high: nat := codes[p + 1], codes[p + 2];
      var matchLen, matchDist := codes[p], low + 256 * high;
      p := p + 3;
      PutMatchBits(w, lit, dist, matchLen, matchDist);
    } else {
      LiteralByte(codes[..], p, codeEnd, t);
      lit.PutSymbol(w, codes[p]);
      p := p + 1;
    }
  }

  lemma LiteralByte(b: seq<Byte>, p: nat, codeEnd: nat, t: Token)
    requires p <= codeEnd <= |b| && t.Literal? && |TokenBytes(t)| <= codeEnd - p
    requires b[p..codeEnd][..|TokenBytes(t)|] == TokenBytes(t)
    ensures p + 1 <= codeEnd && b[p] == t.lit && |TokenBytes(t)| == 1 && b[p..codeEnd][1..] == b[p + 1..codeEnd]
  {
    var w := b[p..codeEnd][..1];
    assert w[0] == b[p];
  }

  lemma MatchBytes(b: seq<Byte>, p: nat, codeEnd: nat, t: Token)
    requires p <= codeEnd <= |b| && Recordable(t) && t.Match? && |TokenBytes(t)| <= codeEnd - p
    requires b[p..codeEnd][..|TokenBytes(t)|] == TokenBytes(t)
    ensures |TokenBytes(t)| == 3 && t == Match(b[p] as int + MIN_MATCH_LEN,
            (b[p + 1] as int + 256 * b[p + 2] as int) + 1)
    ensures p + 3 <= codeEnd && b[p] == t.len - MIN_MATCH_LEN && b[p + 1] == (t.dist - 1) % 256 &&
            b[p + 2] == (t.dist - 1) / 256
    ensures b[p..codeEnd][|TokenBytes(t)|..] == b[p + 3..codeEnd]
  {
    var w := b[p..codeEnd][..|TokenBytes(t)|];
    assert w[0] == b[p] && w[1] == b[p + 1] && w[2] == b[p + 2];
  }
}
