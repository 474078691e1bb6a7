// Turning the recorded codes into a block: compressed, or stored when compression does not
// pay (kernel/miniz/miniz.c:1223-1327).
module BlockFlush {
  import opened Arith
  import opened Bits
  import opened HuffTable
  import opened Tokens
  import opened InflateMachine
  import opened BlockBits
  import opened BitWriter
  import opened LzCodes
  import opened BlockEncoder
  import opened FastBits
  import opened BlockStart
  import opened BlockRoundTrip
  import opened TokenCounts
  import opened BlockLength

  ghost predicate TablesApart(lit: CodeTable, dist: CodeTable, cl: CodeTable)
  {
    lit.Shaped(288) && dist.Shaped(32) && cl.Shaped(19) && Apart(lit, dist) && Apart(lit, cl) && Apart(dist, cl)
  }

  // The bytes the codes add to what came before.
  ghost function Meaning(hist: seq<Byte>, ts: seq<Token>): seq<Byte>
    requires ValidTokens(ts, |hist|)
  {
    Replay(hist, ts)[|hist|..]
  }

  // tdefl_compress_lz_codes; `fast` says which of its two versions the build selected.
  method CompressCodes(fast: bool, w: BitWriter, lz: LzCodes, lit: CodeTable, dist: CodeTable) returns (fits: bool)
    requires w.Valid() && lz.buf != w.buf && lit.Shaped(288) && dist.Shaped(32) && lit.Coded() && dist.Coded()
    requires AllRecordable(lz.tokens) && lz.codeBuf <= lz.buf.Length && lz.buf[..lz.codeBuf] == Packed(lz.tokens)
    requires CanEncode(lit.sizes[..], dist.sizes[..], lz.tokens)
    modifies w, w.buf
    ensures w.Valid() && w.sent == old(w.sent) && w.outPos >= old(w.outPos) && old(w.bits) <= w.bits
    ensures fits <==> Fits(old(w.bits) + BodyBits(lit.sizes[..], dist.sizes[..], lz.tokens), w.sent)
    ensures fits ==> w.bits == old(w.bits) + BodyBits(lit.sizes[..], dist.sizes[..], lz.tokens)
  {
    hide Packed, AllRecordable, CanEncode, BodyBits, Fits, BitWriter.Valid, CodeTable.Coded;
    if fast {
      fits := CompressLzCodesFast(w, lit, dist, lz.buf, lz.codeBuf, lz.tokens);
    } else {
      fits := CompressLzCodes(w, lit, dist, lz.buf, lz.codeBuf, lz.tokens);
    }
  }

  // tdefl_compress_block with the fixed codes.
  method CompressStatic(fast: bool, w: BitWriter, lz: LzCodes, lit: CodeTable, dist: CodeTable, cl: CodeTable,
      ghost before: seq<bool>, ghost fin: bool, ghost hist: seq<Byte>)
    returns (fits: bool)
    requires w.Valid() && lz.buf != w.buf && TablesApart(lit, dist, cl) && w.bits == before + [fin]
    requires AllRecordable(lz.tokens) && lz.codeBuf <= lz.buf.Length && lz.buf[..lz.codeBuf] == Packed(lz.tokens)
    requires ValidTokens(lz.tokens, |hist|) && lz.buf.Length == LZ_CODE_BUF_SIZE && w.sent == |before| / 8
    modifies w, w.buf, lit.sizes, lit.codes, dist.sizes, dist.codes
    ensures w.Valid() && w.sent == old(w.sent) && w.outPos >= old(w.outPos) && before + [fin] <= w.bits && fits
    ensures Decodes(before, w.bits, EndBlock(fin), hist, Meaning(hist, lz.tokens)) && |w.bits| / 8 - w.sent <= 81924
  {
    hide Packed, AllRecordable, BodyBits, BitWriter.Valid, CodeTable.Coded, ValidTokens, Decodes, Replay, StaticLit,
         StaticDist, LsbBits, AllEncodable;
    ghost var ts := lz.tokens;
    StaticFits(before, fin, ts, w.sent);
    ghost var b := LsbBits(1, 2);
    StartStaticBlock(w, lit, dist);
    fits := CompressCodes(fast, w, lz, lit, dist);
    assert before + [fin] + b + BodyBits(StaticLit(), StaticDist(), ts) == before + StaticBlock(fin, ts);
    StaticRoundTrip(before, fin, ts, hist);
  }

  // tdefl_compress_block with tables of its own.
  method CompressDynamic(fast: bool, w: BitWriter, lz: LzCodes, lit: CodeTable, dist: CodeTable, cl: CodeTable,
      ghost before: seq<bool>, ghost fin: bool, ghost hist: seq<Byte>)
    returns (fits: bool)
    requires w.Valid() && lz.buf != w.buf && TablesApart(lit, dist, cl) && w.bits == before + [fin]
    requires AllRecordable(lz.tokens) && lz.codeBuf <= lz.buf.Length && lz.buf[..lz.codeBuf] == Packed(lz.tokens)
    requires ValidTokens(lz.tokens, |hist|) && Tallied(lit.counts[..], dist.counts[..], lz.tokens) &&
             |lz.tokens| < 0xFFFF
    modifies w, w.buf, lit.counts, lit.sizes, lit.codes, dist.sizes, dist.codes, cl.counts, cl.sizes, cl.codes
    requires lz.buf.Length == LZ_CODE_BUF_SIZE && w.sent == |before| / 8
    ensures w.Valid() && w.sent == old(w.sent) && w.outPos >= old(w.outPos) && before + [fin] <= w.bits
    ensures fits ==> Decodes(before, w.bits, EndBlock(fin), hist, Meaning(hist, lz.tokens)) && Fits(w.bits, w.sent)
    ensures fits ==> |w.bits| / 8 - w.sent <= 81924
  {
    hide TablesFor, Packed, AllRecordable, CanEncode, BodyBits, BitWriter.Valid, ValidTokens, Decodes, Replay, Tallied,
         Started, CodeTable.Coded, HeaderBits, Meaning, Fits, Understood;
    ghost var lc, dc := lit.counts[..], dist.counts[..];
    ghost var h := StartCounted(w, lit, dist, cl, lz.tokens);
    StartedMeans(h, lit.sizes[..], dist.sizes[..]);
    fits := CompressCodes(fast, w, lz, lit, dist);
    if fits {
      DynamicDone(before, fin, h, lit.sizes[..], dist.sizes[..], lz.tokens, hist, w.bits);
      DynamicFits(before, fin, h, lc, dc, lit.sizes[..], dist.sizes[..], lz.tokens, w.sent);
    }
  }

  // Tables made from the counters can encode what has been counted.
  method StartCounted(w: BitWriter, lit: CodeTable, dist: CodeTable, cl: CodeTable, ghost ts: seq<Token>)
    returns (ghost h: Header)
    requires w.Valid() && TablesApart(lit, dist, cl) && Tallied(lit.counts[..], dist.counts[..], ts) && |ts| < 0xFFFF
    modifies w, w.buf, lit.counts, lit.sizes, lit.codes, dist.sizes, dist.codes, cl.counts, cl.sizes, cl.codes
    ensures w.Valid() && w.sent == old(w.sent) && w.outPos >= old(w.outPos) && lit.Coded() && dist.Coded()
    ensures Started(h, lit.sizes[..], dist.sizes[..]) && Understood(h) && CanEncode(lit.sizes[..], dist.sizes[..], ts)
    ensures w.bits == old(w.bits) + HeaderBits(h)
    ensures TablesFor(old(lit.counts[..]), old(dist.counts[..]), lit.sizes[..], dist.sizes[..])
  {
    hide NearOptimal, BitWriter.Valid, Tallied, CountsReady, Started, TableFor, CodeTable.Coded, HeaderBits, CanEncode;
    ghost var lc, dc := lit.counts[..], dist.counts[..];
    TalliedReady(lc, dc, ts);
    h := StartDynamicBlock(w, lit, dist, cl);
    TalliedEncodes(lc, dc, ts, lit.sizes[..], dist.sizes[..]);
    StartedMeans(h, lit.sizes[..], dist.sizes[..]);
  }

  lemma DynamicDone(before: seq<bool>, fin: bool, h: Header, ls: seq<nat>, ds: seq<nat>, ts: seq<Token>,
      hist: seq<Byte>, after: seq<bool>)
    requires Started(h, ls, ds) && CanEncode(ls, ds, ts) && ValidTokens(ts, |hist|)
    requires after == before + [fin] + HeaderBits(h) + BodyBits(ls, ds, ts)
    ensures Decodes(before, after, EndBlock(fin), hist, Meaning(hist, ts))
    ensures Understood(h) && after == before + DynamicBlock(fin, h, ls, ds, ts)
  {
    hide Understood, BodyBits, Decodes, Replay, AllEncodable, HeaderBits;
    assert after == before + DynamicBlock(fin, h, ls, ds, ts);
    DynamicRoundTrip(before, fin, h, ls, ds, ts, hist);
  }

  lemma StartedMeans(h: Header, ls: seq<nat>, ds: seq<nat>)
    requires Started(h, ls, ds)
    ensures Understood(h)
  {
  }

  // ---------------------------------------------------------------------------------
  // Stored blocks.

  // Filling up the last byte.
  method PadByte(w: BitWriter)
    requires w.Valid()
    modifies w, w.buf
    ensures w.Valid() && w.sent == old(w.sent) && w.outPos >= old(w.outPos) &&
            w.bits == old(w.bits) + Pad(|old(w.bits)|)
  {
    hide LsbBits, Stored;
    if w.bitsIn != 0 {
      w.PutBits(0, 8 - w.bitsIn);
    } else {
      NoBits(0);
      assert w.bits + [] == w.bits;
    }
  }

  // Source lines 1272-1284.
  method PutRaw(w: BitWriter, dict: array<Byte>, from: nat, total: nat, ghost fin: bool, ghost before: seq<bool>,
      ghost bytes: seq<Byte>)
    requires w.Valid() && dict != w.buf && dict.Length >= LZ_DICT_SIZE && total == |bytes| <= LZ_DICT_SIZE &&
             w.bits == before + [fin]
    requires forall i :: 0 <= i < total ==> dict[(from + i) % LZ_DICT_SIZE] == bytes[i]
    modifies w, w.buf
    ensures w.Valid() && w.sent == old(w.sent) && w.outPos >= old(w.outPos) &&
            w.bits == before + RawBits(fin, |before|, bytes)
  {
    hide LsbBits, Pad, BitWriter.Valid, ByteBits;
    SmallPowers();
    Sixteen();
    w.PutBits(0, 2);
    PadByte(w);
    w.PutBits(total, 16);
    w.PutBits(0xFFFF - total, 16);
    ghost var head := w.bits;
    NoBytes(bytes);
    for i := 0 to total
      invariant w.Valid() && w.sent == old(w.sent) && w.outPos >= old(w.outPos)
      invariant w.bits == head + ByteBits(bytes[..i])
    {
      MoreBytes(bytes, i);
      w.PutBits(dict[(from + i) % LZ_DICT_SIZE], 8);
    }
    assert bytes[..total] == bytes;
    assert |before + [fin] + LsbBits(0, 2)| == |before| + 3;
    assert w.bits == before + RawBits(fin, |before|, bytes);
  }

  lemma Sixteen()
    ensures Pow2(16) == 0x1_0000
  {
    Pow2Add(8, 8);
    SmallPowers();
  }

  lemma NoBytes(bytes: seq<Byte>)
    ensures ByteBits(bytes[..0]) == []
  {
  }

  lemma MoreBytes(bytes: seq<Byte>, i: nat)
    requires i < |bytes|
    ensures ByteBits(bytes[..i + 1]) == ByteBits(bytes[..i]) + LsbBits(bytes[i], 8)
  {
    assert bytes[..i + 1][..i] == bytes[..i];
  }

  // The empty stored block of a sync flush (source lines 1315-1323).
  method PutSync(w: BitWriter)
    requires w.Valid()
    modifies w, w.buf
    ensures w.Valid() && w.sent == old(w.sent) && w.outPos >= old(w.outPos)
    ensures w.bits == old(w.bits) + RawBits(false, |old(w.bits)|, [])
  {
    hide LsbBits, Pad, BitWriter.Valid, ByteBits;
    SmallPowers();
    Sixteen();
    ghost var before := w.bits;
    ThreeZeros();
    w.PutBits(0, 3);
    PadByte(w);
    w.PutBits(0, 16);
    w.PutBits(0xFFFF, 16);
    NoBytes([]);
    assert |before + LsbBits(0, 3)| == |before| + 3;
    assert w.bits == before + LsbBits(0, 3) + Pad(|before| + 3) + LsbBits(0, 16) + LsbBits(0xFFFF, 16);
    assert RawBits(false, |before|, []) == LsbBits(0, 3) + Pad(|before| + 3) + LsbBits(0, 16) + LsbBits(0xFFFF, 16)
        + [];
  }

  lemma SyncAligned(n: nat)
    ensures (n + |RawBits(false, n, [])|) % 8 == 0
  {
  }

  lemma ThreeZeros()
    ensures LsbBits(0, 3) == [false] + LsbBits(0, 2)
  {
  }

  // ---------------------------------------------------------------------------------
  // Which form a block takes (source lines 1258-1292).

  // A block that has been put whole.
  ghost predicate Finished(before: seq<bool>, after: seq<bool>, sent: nat, fin: bool, hist: seq<Byte>, block: seq<Byte>)
  {
    before + [fin] <= after && Decodes(before, after, EndBlock(fin), hist, block) && Fits(after, sent)
  }

  method PutBlock(fast: bool, forceRaw: bool, forceStatic: bool, w: BitWriter, lz: LzCodes, lit: CodeTable,
      dist: CodeTable, cl: CodeTable,
      dict: array<Byte>, from: nat, total: nat, inDict: bool, ghost before: seq<bool>, ghost fin: bool,
          ghost hist: seq<Byte>)
    requires w.Valid() && lz.buf != w.buf && dict != w.buf && TablesApart(lit, dist, cl) && w.bits == before + [fin]
    requires AllRecordable(lz.tokens) && lz.codeBuf <= lz.buf.Length == LZ_CODE_BUF_SIZE &&
             lz.buf[..lz.codeBuf] == Packed(lz.tokens)
    requires ValidTokens(lz.tokens, |hist|) && Tallied(lit.counts[..], dist.counts[..], lz.tokens) &&
             |lz.tokens| < 0xFFFF
    requires dict.Length >= LZ_DICT_SIZE && total == |Meaning(hist, lz.tokens)| && w.sent == |before| / 8
    requires inDict ==> total <= LZ_DICT_SIZE && forall i :: 0 <= i < total ==>
               dict[(from + i) % LZ_DICT_SIZE] == Meaning(hist, lz.tokens)[i]
    modifies w, w.buf, lit.counts, lit.sizes, lit.codes, dist.sizes, dist.codes, cl.counts, cl.sizes, cl.codes
    ensures w.Valid() && w.sent == old(w.sent) && Finished(before, w.bits, w.sent, fin, hist, Meaning(hist, lz.tokens))
    ensures |w.bits| / 8 - w.sent <= 81924
  {
    hide Packed, AllRecordable, BitWriter.Valid, ValidTokens, Decodes, Tallied, TablesApart, RawBits, Meaning;
    var savedPos, savedBuffer, savedIn := w.outPos, w.bitBuffer, w.bitsIn;
    SavedState(w);
    var useRaw := forceRaw && inDict;
    var succeeded := false;
    if !useRaw {
      if forceStatic || total < 48 {
        succeeded := CompressStatic(fast, w, lz, lit, dist, cl, before, fin, hist);
      } else {
        succeeded := CompressDynamic(fast, w, lz, lit, dist, cl, before, fin, hist);
      }
    }
    if (useRaw || (total != 0 && w.outPos - savedPos + 1 >= total)) && inDict {
      w.Restore(savedPos, savedBuffer, savedIn, before + [fin]);
      PutRaw(w, dict, from, total, fin, before, Meaning(hist, lz.tokens));
      RawRoundTrip(before, fin, Meaning(hist, lz.tokens), hist);
      RawLength(before, fin, Meaning(hist, lz.tokens));
    } else if !succeeded {
      w.Restore(savedPos, savedBuffer, savedIn, before + [fin]);
      succeeded := CompressStatic(fast, w, lz, lit, dist, cl, before, fin, hist);
    }
  }

  lemma SavedState(w: BitWriter)
    requires w.Valid() && w.sent + 1 >= |w.bits| / 8
    ensures w.sent + w.outPos == |w.bits| / 8 && w.bitsIn == |w.bits| % 8 &&
            w.bitBuffer == LsbValue(w.bits[8 * (|w.bits| / 8)..])
  {
  }

  lemma RawLength(before: seq<bool>, fin: bool, bytes: seq<Byte>)
    requires |bytes| <= LZ_DICT_SIZE
    ensures |before + RawBits(fin, |before|, bytes)| / 8 - |before| / 8 <= LZ_DICT_SIZE + 6
    ensures before + [fin] <= before + RawBits(fin, |before|, bytes)
  {
  }
}
