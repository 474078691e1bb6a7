// The compressor object: lazy LZ77 parsing over the sliding dictionary, recording of codes
// and flushing of blocks (kernel/miniz/miniz.c:1232-1480, 1668-1943).
module Compressor {
  import opened Arith
  import opened Bits
  import opened Tokens
  import opened InflateMachine
  import opened BitWriter
  import opened LzCodes
  import opened BlockEncoder
  import opened BlockRoundTrip
  import opened TokenCounts
  import opened BlockFlush
  import opened LzWindow

  datatype Flush = NoFlush | SyncFlush | FullFlush | Finish

  // The bytes delivered so far, starting with byte number `from` of the stream.
  ghost predicate Delivered(out: seq<Byte>, bits: seq<bool>, from: nat)
  {
    8 * (from + |out|) <= |bits| && forall i :: 0 <= i < |out| ==> out[i] == ByteAt(bits, from + i)
  }

  class Compressor {
    const w: BitWriter
    const lz: LzCodes
    const lit: CodeTable
    const dist: CodeTable
    const cl: CodeTable
    const dict: array<Byte>
    const next: array<U16>
    const hash: array<U16>
    const forceRaw: bool
    const forceStatic: bool
    const greedy: bool
    const rle: bool
    const filter: bool
    const fast: bool
    const maxProbes0: nat
    const maxProbes1: nat
    var lookaheadPos: nat
    var lookaheadSize: nat
    var dictSize: nat
    var totalLzBytes: nat
    var lzCodeBufDictPos: nat
    var saved: Saved
    // Every source byte taken in.
    ghost var src: seq<Byte>

    ghost predicate Shape()
    {
      && TablesApart(lit, dist, cl) && lz.buf != w.buf && dict != w.buf && dict != lz.buf
      && dict.Length == LZ_DICT_LENGTH && next.Length == LZ_DICT_SIZE && hash.Length == LZ_DICT_SIZE && next != hash
      && {next, hash} !! {lit.counts, dist.counts, cl.counts}
      && maxProbes0 > 0 && maxProbes1 > 0
    }

    // The codes recorded for the current block and their counts.
    ghost predicate Recorded()
      reads this, lz, lz.buf, lit.counts, dist.counts
    {
      && lz.Valid() && Tallied(lit.counts[..], dist.counts[..], lz.tokens)
      && Parsed(src, lookaheadPos, lzCodeBufDictPos, totalLzBytes, saved, lz.tokens)
    }

    ghost predicate Window()
      reads this, dict
    {
      Windowed(dict[..], src, lookaheadPos, lookaheadSize, dictSize)
    }

    // What has been written decompresses to the source up to the current block.
    ghost predicate Written()
      reads this, w, w.buf
    {
      && w.Valid() && w.outPos == 0 && w.sent == |w.bits| / 8 && lzCodeBufDictPos <= |src|
      && Decodes([], w.bits, BlockHead, [], src[..lzCodeBufDictPos])
    }

    ghost predicate Valid()
      reads this, w, w.buf, lz, lz.buf, dict, lit.counts, dist.counts
    {
      Shape() && Recorded() && Window() && Written()
    }

    // tdefl_init
    constructor (forceRaw: bool, forceStatic: bool, greedy: bool, rle: bool, filter: bool, fast: bool, maxProbes0: nat,
        maxProbes1: nat)
      requires maxProbes0 > 0 && maxProbes1 > 0
      ensures Valid() && src == [] && w.bits == []
      ensures fresh(w) && fresh(w.buf) && fresh(lz) && fresh(lz.buf) && fresh(dict) && fresh(next) && fresh(hash)
      ensures fresh(lit.counts) && fresh(lit.sizes) && fresh(lit.codes) && fresh(dist.counts) && fresh(dist.sizes) &&
              fresh(dist.codes)
      ensures fresh(cl.counts) && fresh(cl.sizes) && fresh(cl.codes)
    {
      hide BitWriter.Valid, LzCodes.Valid, Tallied, Replays, Decodes, Windowed;
      w := new BitWriter();
      lz := new LzCodes();
      lit := new CodeTable(288);
      dist := new CodeTable(32);
      cl := new CodeTable(19);
      dict := new Byte[LZ_DICT_LENGTH](_ => 0);
      next := new U16[LZ_DICT_SIZE](_ => 0);
      hash := new U16[LZ_DICT_SIZE](_ => 0);
      this.forceRaw, this.forceStatic, this.greedy, this.rle, this.filter, this.fast := forceRaw, forceStatic, greedy,
          rle, filter, fast;
      this.maxProbes0, this.maxProbes1 := maxProbes0, maxProbes1;
      lookaheadPos, lookaheadSize, dictSize, totalLzBytes, lzCodeBufDictPos := 0, 0, 0, 0, 0;
      saved, src := Saved(0, 0, 0), [];
      new;
      TalliedNone(lit.counts[..], dist.counts[..]);
      ReplaysNothing([], 0);
      DecodesNothing([], []);
      WindowNothing(dict[..]);
    }

    // -------------------------------------------------------------------------------
    // Recording codes.

    // tdefl_record_literal
    method RecordLiteral(b: Byte)
      requires Shape() && lz.Valid() && Tallied(lit.counts[..], dist.counts[..], lz.tokens) &&
               lz.codeBuf + 2 <= lz.buf.Length
      modifies this`totalLzBytes, lz, lz.buf, lit.counts
      ensures lz.Valid() && Tallied(lit.counts[..], dist.counts[..], lz.tokens) && lz.codeBuf <= old(lz.codeBuf) + 2
      ensures lz.tokens == old(lz.tokens) + [Literal(b)] && totalLzBytes == old(totalLzBytes) + 1
    {
      hide LzCodes.Valid, Tallied;
      TokenRoom();
      ghost var lc, ts := lit.counts[..], lz.tokens;
      totalLzBytes := totalLzBytes + 1;
      lz.PutLiteral(b);
      TalliedSnoc(lc, dist.counts[..], ts, Literal(b));
      lit.counts[b] := lit.counts[b] + 1;
      assert lit.counts[..] == lc[b := lc[b] + 1];
    }

    // tdefl_record_match
    method RecordMatch(len: nat, d: nat)
      requires Shape() && lz.Valid() && Tallied(lit.counts[..], dist.counts[..], lz.tokens) &&
               lz.codeBuf + 4 <= lz.buf.Length
      requires MIN_MATCH_LEN <= len <= MAX_MATCH_LEN && 1 <= d <= LZ_DICT_SIZE
      modifies this`totalLzBytes, lz, lz.buf, lit.counts, dist.counts
      ensures lz.Valid() && Tallied(lit.counts[..], dist.counts[..], lz.tokens) && lz.codeBuf <= old(lz.codeBuf) + 4
      ensures lz.tokens == old(lz.tokens) + [Match(len, d)] && totalLzBytes == old(totalLzBytes) + len
    {
      hide LzCodes.Valid, Tallied, LenSym, SmallDistSym, LargeDistSym;
      TokenRoom();
      ghost var lc, dc, ts, t := lit.counts[..], dist.counts[..], lz.tokens, Match(len, d);
      totalLzBytes := totalLzBytes + len;
      lz.PutMatch(len, d);
      TalliedSnoc(lc, dc, ts, t);
      var matchDist := d - 1;
      var s0, s1 := SmallDistSym(matchDist % 512), LargeDistSym(matchDist / 256 % 128);
      var s := if matchDist < 512 then s0 else s1;
      assert s == DistSymbol(t);
      dist.counts[s] := dist.counts[s] + 1;
      assert dist.counts[..] == dc[s := dc[s] + 1] && lit.counts[..] == lc;
      var a := LenSym(len - MIN_MATCH_LEN);
      lit.counts[a] := lit.counts[a] + 1;
      assert lit.counts[..] == lc[a := lc[a] + 1];
    }

    lemma TokenRoom()
      requires lz.Valid()
      ensures |lz.tokens| < 0xFFFF
    {
      Room(lz.buf[..], lz.codeBuf, lz.flagsPos, lz.numFlagsLeft, lz.tokens);
    }

    // -------------------------------------------------------------------------------
    // Finding matches.

    // A match found at the current position, or none (d == 0).
    ghost predicate Found(d: nat, len: nat, least: nat)
      reads this
    {
      && (d == 0 ==> len <= least)
      && (d != 0 ==> d <= LZ_DICT_SIZE && MIN_MATCH_LEN <= len <= lookaheadSize && Genuine(src, lookaheadPos, d, len))
    }

    // The comparison loop (source lines 1466-1470).
    method MatchLength(pos: nat, probePos: nat, most: nat, ghost d: nat) returns (n: nat)
      requires Shape() && Window() && most <= lookaheadSize && 1 <= d <= dictSize
      requires pos == lookaheadPos % LZ_DICT_SIZE && probePos == (lookaheadPos - d) % LZ_DICT_SIZE
      ensures n <= most && Genuine(src, lookaheadPos, d, n)
    {
      hide Windowed;
      WindowSizes(dict[..], src, lookaheadPos, lookaheadSize, dictSize);
      n := 0;
      while n < most
        invariant n <= most && Genuine(src, lookaheadPos, d, n)
      {
        WindowAt(dict[..], src, lookaheadPos, lookaheadSize, dictSize, lookaheadPos, n);
        WindowAt(dict[..], src, lookaheadPos, lookaheadSize, dictSize, lookaheadPos - d, n);
        if dict[pos + n] != dict[probePos + n] {
          break;
        }
        n := n + 1;
      }
    }

    // tdefl_find_match, byte by byte: whatever the hash chains hold, a match it reports is
    // one, and longer than the given length.
    method FindMatch(maxDist: nat, maxLen: nat, len0: nat) returns (d: nat, len: nat)
      requires Shape() && Window() && maxDist == dictSize && maxLen == lookaheadSize && 2 <= len0 < 128
      ensures Found(d, len, len0) && (d == 0 ==> len == len0) && (d != 0 ==> len > len0)
    {
      hide Windowed, Genuine;
      WindowSizes(dict[..], src, lookaheadPos, lookaheadSize, dictSize);
      d, len := 0, len0;
      var pos: nat, probePos: nat := lookaheadPos % LZ_DICT_SIZE, lookaheadPos % LZ_DICT_SIZE;
      var left := if len0 >= 32 then maxProbes1 else maxProbes0;
      var c0, c1 := dict[pos + len], dict[pos + len - 1];
      if maxLen <= len {
        return;
      }
      while true
        invariant Found(d, len, len0) && len0 <= len < maxLen && (d == 0 ==> len == len0) && (d != 0 ==> len > len0)
        invariant 0 < left && probePos < LZ_DICT_SIZE
        decreases left
      {
        var found, dd;
        found, dd, probePos, left := NextProbe(probePos, left, maxDist, len, c0, c1);
        if !found || dd == 0 {
          return;
        }
        var n := MatchLength(pos, probePos, maxLen, dd);
        if n > len {
          d, len := dd, n;
          if len == maxLen {
            return;
          }
          c0, c1 := dict[pos + len], dict[pos + len - 1];
        }
      }
    }

    // The inner loop with its three probes (source lines 1449-1463).
    method NextProbe(probePos0: nat, left0: nat, maxDist: nat, len: nat, c0: Byte, c1: Byte)
      returns (found: bool, d: nat, probePos: nat, left: nat)
      requires Shape() && maxDist == dictSize && 0 < len < MAX_MATCH_LEN && probePos0 < LZ_DICT_SIZE && left0 > 0 &&
               dictSize <= lookaheadPos
      ensures found ==> d <= maxDist && probePos == (lookaheadPos - d) % LZ_DICT_SIZE && 0 < left < left0
      ensures probePos < LZ_DICT_SIZE
    {
      found, d, probePos, left := false, 0, probePos0, left0;
      while !found
        invariant probePos < LZ_DICT_SIZE && 0 < left <= left0
        invariant found ==> d <= maxDist && probePos == (lookaheadPos - d) % LZ_DICT_SIZE && left < left0
        decreases left, !found
      {
        left := left - 1;
        if left == 0 {
          return;
        }
        for k := 0 to 3
          invariant probePos < LZ_DICT_SIZE && !found
        {
          var nextProbe: nat := next[probePos];
          if nextProbe == 0 {
            return;
          }
          d := (lookaheadPos - nextProbe) % 0x1_0000;
          if d > maxDist {
            return;
          }
          probePos := nextProbe % LZ_DICT_SIZE;
          SameSlot(lookaheadPos, nextProbe, d);
          found := dict[probePos + len] == c0 && dict[probePos + len - 1] == c1;
          if found {
            break;
          }
        }
      }
    }

    // -------------------------------------------------------------------------------
    // Taking in source bytes.

    // The part of the dictionary in front of the lookahead that is still intact.
    ghost predicate Filling(ahead: nat)
      requires ahead <= LZ_DICT_SIZE
      reads `src, `lookaheadPos, `dictSize, dict
    {
      Windowed(dict[..], src, lookaheadPos, ahead, Smaller(dictSize, LZ_DICT_SIZE - ahead))
    }

    // One byte into the dictionary and its mirror (source lines 1732-1734).
    method WriteDict(at: nat, c: Byte, ghost ahead: nat)
      requires Shape() && ahead < MAX_MATCH_LEN && Filling(ahead) && at == |src| % LZ_DICT_SIZE
      modifies this`src, dict
      ensures Filling(ahead + 1) && src == old(src) + [c]
    {
      hide Windowed;
      ghost var d, back := dict[..], Smaller(dictSize, LZ_DICT_SIZE - (ahead + 1));
      WindowShrinks(d, src, lookaheadPos, ahead, Smaller(dictSize, LZ_DICT_SIZE - ahead), back);
      WindowSizes(d, src, lookaheadPos, ahead, back);
      WindowWrite(d, src, lookaheadPos, ahead, back, c);
      dict[at] := c;
      if at < MAX_MATCH_LEN - 1 {
        dict[LZ_DICT_SIZE + at] := c;
      }
      assert dict[..] == LzWindow.Written(d, at, c);
      src := src + [c];
    }

    // A position goes to the head of its hash chain (source lines 1736-1737).
    method Link(insPos: nat, h: nat)
      requires Shape() && h < LZ_DICT_SIZE
      modifies next, hash
    {
      next[insPos % LZ_DICT_SIZE] := hash[h];
      hash[h] := insPos % 0x1_0000;
    }

    // Source lines 1720-1761: the lookahead is kept full while there is input.
    method FillLookahead(input: seq<Byte>, from: nat) returns (to: nat)
      requires Shape() && Window() && from <= |input|
      modifies this`lookaheadSize, this`dictSize, this`src, dict, next, hash
      ensures Window() && from <= to <= |input| && src == old(src) + input[from..to]
      ensures to < |input| ==> lookaheadSize == MAX_MATCH_LEN
      ensures lookaheadSize == old(lookaheadSize) + (to - from)
    {
      hide Windowed;
      WindowSizes(dict[..], src, lookaheadPos, lookaheadSize, dictSize);
      if lookaheadSize + dictSize >= MIN_MATCH_LEN - 1 {
        to := FillFast(input, from);
      } else {
        to := FillSlow(input, from);
      }
      dictSize := if LZ_DICT_SIZE - lookaheadSize < dictSize then LZ_DICT_SIZE - lookaheadSize else dictSize;
    }

    method FillFast(input: seq<Byte>, from: nat) returns (to: nat)
      requires Shape() && Window() && from <= |input| && lookaheadSize + dictSize >= MIN_MATCH_LEN - 1
      modifies this`lookaheadSize, this`src, dict, next, hash
      ensures lookaheadSize == old(lookaheadSize) + (to - from) <= MAX_MATCH_LEN && Filling(lookaheadSize)
      ensures from <= to <= |input| && src == old(src) + input[from..to] &&
              (to < |input| ==> lookaheadSize == MAX_MATCH_LEN)
    {
      hide Windowed, HashStep, Compressor.Filling;
      FillingStarts();
      ghost var src0, size0 := src, lookaheadSize;
      var dstPos: nat := (lookaheadPos + lookaheadSize) % LZ_DICT_SIZE;
      var insPos: nat := lookaheadPos + lookaheadSize - 2;
      assert |dict[..]| == LZ_DICT_LENGTH;
      var h: nat := HashStep(dict[insPos % LZ_DICT_SIZE], dict[(insPos + 1) % LZ_DICT_SIZE]);
      var n := Smaller(|input| - from, MAX_MATCH_LEN - lookaheadSize);
      lookaheadSize := lookaheadSize + n;
      to := from;
      assert input[from..to] == [];
      while to != from + n
        invariant from <= to <= from + n && src == src0 + input[from..to] && lookaheadSize == size0 + n
        invariant dstPos == |src| % LZ_DICT_SIZE && h < LZ_DICT_SIZE && Filling(size0 + (to - from))
      {
        dstPos, h := InsertByte(input[to], dstPos, insPos, h, size0 + (to - from));
        insPos := insPos + 1;
        assert input[from..to + 1] == input[from..to] + [input[to]];
        to := to + 1;
      }
    }

    method InsertByte(c: Byte, at: nat, insPos: nat, h: nat, ghost ahead: nat) returns (at': nat, h': nat)
      requires Shape() && ahead < MAX_MATCH_LEN && Filling(ahead) && at == |src| % LZ_DICT_SIZE && h < LZ_DICT_SIZE
      modifies this`src, dict, next, hash
      ensures Filling(ahead + 1) && src == old(src) + [c] && at' == |src| % LZ_DICT_SIZE && h' < LZ_DICT_SIZE
    {
      hide HashStep, Compressor.Filling;
      WriteDict(at, c, ahead);
      h' := HashStep(h, c);
      Link(insPos, h');
      at' := (at + 1) % LZ_DICT_SIZE;
    }

    lemma FillingStarts()
      requires Shape() && Window()
      ensures lookaheadSize <= MAX_MATCH_LEN && Filling(lookaheadSize) && |src| == lookaheadPos + lookaheadSize &&
              dictSize <= lookaheadPos
    {
    }

    method FillSlow(input: seq<Byte>, from: nat) returns (to: nat)
      requires Shape() && Window() && from <= |input|
      modifies this`lookaheadSize, this`src, dict, next, hash
      ensures lookaheadSize == old(lookaheadSize) + (to - from) <= MAX_MATCH_LEN && Filling(lookaheadSize)
      ensures from <= to <= |input| && src == old(src) + input[from..to] &&
              (to < |input| ==> lookaheadSize == MAX_MATCH_LEN)
    {
      hide Windowed, HashStep, Compressor.Filling;
      FillingStarts();
      ghost var src0 := src;
      to := from;
      assert input[from..to] == [];
      while to < |input| && lookaheadSize < MAX_MATCH_LEN
        invariant from <= to <= |input| && src == src0 + input[from..to] &&
                  lookaheadSize == old(lookaheadSize) + (to - from) <= MAX_MATCH_LEN
        invariant Filling(lookaheadSize) && |src| == lookaheadPos + lookaheadSize
      {
        var c := input[to];
        var dstPos := (lookaheadPos + lookaheadSize) % LZ_DICT_SIZE;
        WriteDict(dstPos, c, lookaheadSize);
        lookaheadSize := lookaheadSize + 1;
        if lookaheadSize + dictSize >= MIN_MATCH_LEN {
          var insPos := lookaheadPos + (lookaheadSize - 1) - 2;
          var h := HashStep(HashStep(dict[insPos % LZ_DICT_SIZE], dict[(insPos + 1) % LZ_DICT_SIZE]), c);
          Link(insPos, h);
        }
        assert input[from..to + 1] == input[from..to] + [c];
        to := to + 1;
      }
    }

    // -------------------------------------------------------------------------------
    // The lazy parsing state machine.

    // RLE matches: how often the byte before the current position repeats (lines 1772-1786).
    method RunMatch() returns (d: nat, len: nat)
      requires Shape() && Window() && dictSize > 0
      ensures Found(d, len, 0)
    {
      hide Windowed;
      WindowSizes(dict[..], src, lookaheadPos, lookaheadSize, dictSize);
      d, len := 0, 0;
      var curPos := lookaheadPos % LZ_DICT_SIZE;
      WindowAt(dict[..], src, lookaheadPos, lookaheadSize, dictSize, lookaheadPos - 1, 0);
      var c := dict[(lookaheadPos - 1) % LZ_DICT_SIZE];
      while len < lookaheadSize
        invariant len <= lookaheadSize && forall j :: lookaheadPos <= j < lookaheadPos + len ==> src[j] == c
      {
        WindowAt(dict[..], src, lookaheadPos, lookaheadSize, dictSize, lookaheadPos, len);
        if dict[curPos + len] != c {
          break;
        }
        len := len + 1;
      }
      if len < MIN_MATCH_LEN {
        len := 0;
      } else {
        d := 1;
        RunIsGenuine(src, lookaheadPos, len, c);
      }
    }

    // The match considered at the current position (source lines 1766-1795).
    method CurrentMatch() returns (d: nat, len: nat)
      requires Shape() && Window() && Parsed(src, lookaheadPos, lzCodeBufDictPos, totalLzBytes, saved, lz.tokens)
      ensures Found(d, len, if saved.len != 0 then saved.len else 2)
    {
      hide Windowed, Replays, Genuine;
      d, len := 0, if saved.len != 0 then saved.len else MIN_MATCH_LEN - 1;
      var curPos := lookaheadPos % LZ_DICT_SIZE;
      if rle || forceRaw {
        if dictSize != 0 && !forceRaw {
          d, len := RunMatch();
        }
      } else {
        d, len := FindMatch(dictSize, lookaheadSize, len);
      }
      if (len == MIN_MATCH_LEN && d >= 8 * 1024) || curPos == d || (filter && len <= 5) {
        d, len := 0, 0;
      }
    }

    // A better match than the one held back: that one's byte becomes a literal.
    method Improve(d: nat, len: nat) returns (n: nat)
      requires Shape() && Recorded() && Window() && lz.codeBuf <= LZ_CODE_BUF_SIZE - 8
      requires saved.len != 0 && len > saved.len && d != 0 && Found(d, len, saved.len)
      modifies this`saved, this`totalLzBytes, lz, lz.buf, lit.counts, dist.counts
      ensures lz.Valid() && Tallied(lit.counts[..], dist.counts[..], lz.tokens) && lz.codeBuf <= old(lz.codeBuf) + 6
      ensures 1 <= n <= lookaheadSize && Parsed(src, lookaheadPos + n, lzCodeBufDictPos, totalLzBytes, saved, lz.tokens)
    {
      hide Windowed, Replays, LzCodes.Valid, Tallied, Genuine;
      CodeRoom();
      WindowSizes(dict[..], src, lookaheadPos, lookaheadSize, dictSize);
      ReplaysLiteral(src, lzCodeBufDictPos, totalLzBytes, lz.tokens);
      RecordLiteral(saved.lit);
      if len >= 128 {
        ReplaysMatch(src, lzCodeBufDictPos, totalLzBytes, lz.tokens, len, d);
        RecordMatch(len, d);
        saved := saved.(len := 0);
        n := len;
        GenuineBounds(src, lookaheadPos, d, len);
      } else {
        HereInDict();
        GenuineBounds(src, lookaheadPos, d, len);
        saved := Saved(len, d, dict[lookaheadPos % LZ_DICT_SIZE]);
        n := 1;
      }
    }

    lemma HereInDict()
      requires Shape() && Window() && lookaheadSize > 0
      ensures lookaheadPos < |src| && dict[lookaheadPos % LZ_DICT_SIZE] == src[lookaheadPos]
      ensures |src| == lookaheadPos + lookaheadSize && lookaheadSize <= MAX_MATCH_LEN
    {
      WindowAt(dict[..], src, lookaheadPos, lookaheadSize, dictSize, lookaheadPos, 0);
    }

    // The match held back is taken.
    method TakeSaved() returns (n: nat)
      requires Shape() && Recorded() && Window() && lz.codeBuf <= LZ_CODE_BUF_SIZE - 8 && saved.len != 0
      modifies this`saved, this`totalLzBytes, lz, lz.buf, lit.counts, dist.counts
      ensures lz.Valid() && Tallied(lit.counts[..], dist.counts[..], lz.tokens) && lz.codeBuf <= old(lz.codeBuf) + 6
      ensures 1 <= n <= lookaheadSize && Parsed(src, lookaheadPos + n, lzCodeBufDictPos, totalLzBytes, saved, lz.tokens)
    {
      hide Windowed, Replays, LzCodes.Valid, Tallied, Genuine;
      CodeRoom();
      WindowSizes(dict[..], src, lookaheadPos, lookaheadSize, dictSize);
      GenuineBounds(src, lookaheadPos - 1, saved.dist, saved.len);
      ReplaysMatch(src, lzCodeBufDictPos, totalLzBytes, lz.tokens, saved.len, saved.dist);
      RecordMatch(saved.len, saved.dist);
      n := saved.len - 1;
      saved := saved.(len := 0);
    }

    // Nothing is held back.
    method TakeFresh(d: nat, len: nat) returns (n: nat)
      requires Shape() && Recorded() && Window() && lookaheadSize > 0 && lz.codeBuf <= LZ_CODE_BUF_SIZE - 8
      requires saved.len == 0 && Found(d, len, 2)
      modifies this`saved, this`totalLzBytes, lz, lz.buf, lit.counts, dist.counts
      ensures lz.Valid() && Tallied(lit.counts[..], dist.counts[..], lz.tokens) && lz.codeBuf <= old(lz.codeBuf) + 6
      ensures 1 <= n <= lookaheadSize && Parsed(src, lookaheadPos + n, lzCodeBufDictPos, totalLzBytes, saved, lz.tokens)
    {
      hide Windowed, Replays, LzCodes.Valid, Tallied, Genuine;
      CodeRoom();
      HereInDict();
      var curPos := lookaheadPos % LZ_DICT_SIZE;
      n := 1;
      if d == 0 {
        ReplaysLiteral(src, lzCodeBufDictPos, totalLzBytes, lz.tokens);
        RecordLiteral(dict[Smaller(curPos, LZ_DICT_LENGTH - 1)]);
      } else {
        GenuineBounds(src, lookaheadPos, d, len);
        if greedy || rle || len >= 128 {
          ReplaysMatch(src, lzCodeBufDictPos, totalLzBytes, lz.tokens, len, d);
          RecordMatch(len, d);
          n := len;
        } else {
          saved := Saved(len, d, dict[Smaller(curPos, LZ_DICT_LENGTH - 1)]);
        }
      }
    }

    // Recording what the step decides (source lines 1796-1833); n bytes are then passed.
    method Decide(d: nat, len: nat) returns (n: nat)
      requires Shape() && Recorded() && Window() && lookaheadSize > 0 && lz.codeBuf <= LZ_CODE_BUF_SIZE - 8
      requires Found(d, len, if saved.len != 0 then saved.len else 2)
      modifies this`saved, this`totalLzBytes, lz, lz.buf, lit.counts, dist.counts
      ensures lz.Valid() && Tallied(lit.counts[..], dist.counts[..], lz.tokens) && lz.codeBuf <= old(lz.codeBuf) + 6
      ensures 1 <= n <= lookaheadSize && Parsed(src, lookaheadPos + n, lzCodeBufDictPos, totalLzBytes, saved, lz.tokens)
    {
      hide Windowed, Replays, LzCodes.Valid, Tallied, Genuine, Parsed, Compressor.Recorded;
      if saved.len != 0 {
        if len > saved.len {
          n := Improve(d, len);
        } else {
          n := TakeSaved();
        }
      } else {
        n := TakeFresh(d, len);
      }
    }

    lemma CodeRoom()
      requires lz.Valid()
      ensures lz.buf.Length == LZ_CODE_BUF_SIZE
    {
    }

    // -------------------------------------------------------------------------------
    // Flushing.

    // The bits of one block, whatever its form.
    method EmitBlock(fin: bool)
      requires Valid()
      modifies w, w.buf, lz`codeBuf, lz.buf, lit.counts, lit.sizes, lit.codes, dist.counts, dist.sizes, dist.codes,
               cl.counts, cl.sizes, cl.codes
      ensures w.Valid() && w.sent == old(w.sent) && lzCodeBufDictPos + totalLzBytes <= |src|
      ensures Finished(old(w.bits), w.bits, w.sent, fin, src[..lzCodeBufDictPos],
              src[lzCodeBufDictPos..lzCodeBufDictPos + totalLzBytes])
      ensures |w.bits| / 8 - w.sent <= 81924
    {
      hide Windowed, LzCodes.Valid, Tallied, Genuine, BitWriter.Valid, Decodes, TablesApart, Packed, Finished,
           AllRecordable;
      TokenRoom();
      CodeRoom();
      ghost var before, hist, d := w.bits, src[..lzCodeBufDictPos], dict[..];
      RecordedMeaning(src, lzCodeBufDictPos, totalLzBytes, lz.tokens);
      lz.Finish();
      SmallPowers();
      OneBitPut(fin);
      w.PutBits(if fin then 1 else 0, 1);
      var inDict := lookaheadPos - lzCodeBufDictPos <= dictSize;
      if inDict {
        BlockInDict(d, src, lookaheadPos, lookaheadSize, dictSize, lzCodeBufDictPos, totalLzBytes, lz.tokens);
      }
      assert dict[..] == d;
      PutBlock(fast, forceRaw, forceStatic, w, lz, lit, dist, cl, dict, lzCodeBufDictPos, totalLzBytes, inDict, before,
          fin,
        hist);
    }

    // Counters, code buffer and positions for the next block (source lines 1329-1337).
    method NextBlock()
      requires Shape() && lz.buf.Length == LZ_CODE_BUF_SIZE &&
               Parsed(src, lookaheadPos, lzCodeBufDictPos, totalLzBytes, saved, lz.tokens)
      modifies this`lzCodeBufDictPos, this`totalLzBytes, lz, lit.counts, dist.counts
      ensures Recorded() && lzCodeBufDictPos == old(lzCodeBufDictPos) + old(totalLzBytes) && totalLzBytes == 0 &&
              lz.codeBuf == 1
    {
      hide LzCodes.Valid, Tallied, Replays, Genuine;
      forall i | 0 <= i < 288 {
        lit.counts[i] := 0;
      }
      forall i | 0 <= i < 32 {
        dist.counts[i] := 0;
      }
      RecordedMeaning(src, lzCodeBufDictPos, totalLzBytes, lz.tokens);
      lz.Reset();
      lzCodeBufDictPos := lzCodeBufDictPos + totalLzBytes;
      totalLzBytes := 0;
      ReplaysNothing(src, lzCodeBufDictPos);
      TalliedNone(lit.counts[..], dist.counts[..]);
    }

    // What follows the block (source lines 1294-1325).
    method EmitFlush(flush: Flush, ghost hist: seq<Byte>)
      requires w.Valid() && Decodes([], w.bits, EndBlock(flush.Finish?), [], hist)
      modifies w, w.buf
      ensures w.Valid() && w.sent == old(w.sent) && old(w.bits) <= w.bits && |w.bits| <= |old(w.bits)| + 48
      ensures flush.NoFlush? ==> w.bits == old(w.bits)
      ensures !flush.Finish? ==> Decodes([], w.bits, BlockHead, [], hist)
      ensures flush.SyncFlush? || flush.FullFlush? ==> |w.bits| % 8 == 0
      ensures flush.Finish? ==> StreamEnds(w.bits, hist) && |w.bits| <= |old(w.bits)| + 7
    {
      hide BitWriter.Valid, Decodes;
      ghost var before := w.bits;
      if !flush.NoFlush? {
        if flush.Finish? {
          PadByte(w);
          StreamPadded(before, hist);
        } else {
          PutSync(w);
          SyncAligned(|before|);
          RawRoundTrip(before, false, [], hist);
          SyncDecodes(before, hist);
        }
      }
    }

    lemma WriterEnd()
      requires w.Valid()
      ensures w.end == OUT_BUF_SIZE - 16
    {
    }

    // tdefl_flush_block
    method FlushBlock(flush: Flush) returns (bytes: seq<Byte>)
      requires Valid()
      modifies this`lzCodeBufDictPos, this`totalLzBytes, w, w.buf, lz, lz.buf
      modifies lit.counts, lit.sizes, lit.codes, dist.counts, dist.sizes, dist.codes, cl.counts, cl.sizes, cl.codes
      ensures lzCodeBufDictPos == old(lzCodeBufDictPos + totalLzBytes) <= |src| && totalLzBytes == 0 && lz.codeBuf == 1
      ensures old(w.bits) <= w.bits && w.sent == old(w.sent) + |bytes| && Delivered(bytes, w.bits, old(w.sent))
      ensures w.sent == |w.bits| / 8 && (!flush.Finish? ==> Valid())
      ensures flush.SyncFlush? || flush.FullFlush? ==> |w.bits| % 8 == 0
      ensures flush.Finish? ==> StreamEnds(w.bits, src[..lzCodeBufDictPos])
    {
      hide Windowed, Tallied, Genuine, Decodes, TablesApart, Packed, AllRecordable, ByteAt, Replays, LsbValue, Stored,
           LzCodes.Valid;
      ghost var before, sent, hist, block := w.bits, w.sent, src[..lzCodeBufDictPos],
          src[lzCodeBufDictPos..lzCodeBufDictPos + totalLzBytes];
      assert [] + hist == hist;
      CodeRoom();
      EmitBlock(flush.Finish?);
      ghost var middle := w.bits;
      DecodesTrans([], before, middle, EndBlock(flush.Finish?), [], hist, block);
      assert hist + block == src[..lzCodeBufDictPos + totalLzBytes];
      EmitFlush(flush, src[..lzCodeBufDictPos + totalLzBytes]);
      WriterEnd();
      NextBlock();
      bytes := w.TakeOutput();
    }

    // -------------------------------------------------------------------------------
    // Compressing.

    // Ready for another step of the parsing loop.
    ghost predicate Ready()
      reads this, w, w.buf, lz, lz.buf, dict, lit.counts, dist.counts
    {
      Valid() && lz.codeBuf <= LZ_CODE_BUF_SIZE - 8
    }

    method Refill(input: seq<Byte>, from: nat) returns (to: nat)
      requires Ready() && from <= |input|
      modifies this`lookaheadSize, this`dictSize, this`src, dict, next, hash
      ensures Ready() && from <= to <= |input| && src == old(src) + input[from..to]
      ensures (to < |input| ==> lookaheadSize == MAX_MATCH_LEN) && lookaheadSize == old(lookaheadSize) + (to - from)
    {
      hide Windowed, Tallied, Genuine, Decodes, TablesApart, Replays, LzCodes.Valid, BitWriter.Valid, Parsed;
      ParsedBounds(src, lookaheadPos, lzCodeBufDictPos, totalLzBytes, saved, lz.tokens);
      to := FillLookahead(input, from);
      ParsedMore(old(src), input[from..to], lookaheadPos, lzCodeBufDictPos, totalLzBytes, saved, lz.tokens);
      assert src[..lzCodeBufDictPos] == old(src)[..lzCodeBufDictPos];
    }

    // One decision of the parser and the move past what it covers (source lines 1765-1838).
    method ParseStep()
      requires Ready() && lookaheadSize > 0
      modifies this`lookaheadPos, this`lookaheadSize, this`dictSize, this`saved, this`totalLzBytes, lz, lz.buf,
               lit.counts, dist.counts
      ensures Valid() && lookaheadSize < old(lookaheadSize)
    {
      hide Windowed, Tallied, Genuine, Decodes, TablesApart, Replays, LzCodes.Valid, BitWriter.Valid, Parsed;
      var d, len := CurrentMatch();
      var n := Decide(d, len);
      WindowSizes(dict[..], src, lookaheadPos, lookaheadSize, dictSize);
      WindowMoves(dict[..], src, lookaheadPos, lookaheadSize, dictSize, n);
      lookaheadPos := lookaheadPos + n;
      lookaheadSize := lookaheadSize - n;
      dictSize := Smaller(dictSize + n, LZ_DICT_SIZE);
    }

    // Source lines 1839-1848.
    method FlushIfFull() returns (bytes: seq<Byte>)
      requires Valid()
      modifies this`lzCodeBufDictPos, this`totalLzBytes, w, w.buf, lz, lz.buf
      modifies lit.counts, lit.sizes, lit.codes, dist.counts, dist.sizes, dist.codes, cl.counts, cl.sizes, cl.codes
      ensures Ready() && old(w.bits) <= w.bits && w.sent == old(w.sent) + |bytes| &&
              Delivered(bytes, w.bits, old(w.sent))
    {
      hide Windowed, Tallied, Genuine, Decodes, TablesApart, Replays, LzCodes.Valid, BitWriter.Valid, Parsed;
      bytes := [];
      if lz.codeBuf > LZ_CODE_BUF_SIZE - 8 || (totalLzBytes > 31 * 1024 &&
          (lz.codeBuf * 115 / 128 >= totalLzBytes || forceRaw)) {
        bytes := FlushBlock(NoFlush);
      } else {
        SentBound();
      }
    }

    lemma SentBound()
      requires w.Valid()
      ensures 8 * w.sent <= |w.bits|
    {
    }

    // tdefl_compress_normal: all input is taken in, and with a flush all of it is parsed.
    method CompressNormal(input: seq<Byte>, flush: Flush) returns (out: seq<Byte>)
      requires Ready()
      modifies this, w, w.buf, lz, lz.buf, dict, next, hash
      modifies lit.counts, lit.sizes, lit.codes, dist.counts, dist.sizes, dist.codes, cl.counts, cl.sizes, cl.codes
      ensures Ready() && src == old(src) + input && (!flush.NoFlush? ==> lookaheadSize == 0)
      ensures old(w.bits) <= w.bits && w.sent == old(w.sent) + |out| && Delivered(out, w.bits, old(w.sent))
    {
      hide Compressor.Valid, Delivered;
      out := [];
      var at := 0;
      NothingDelivered();
      assert input[..0] == [];
      while at < |input| || (!flush.NoFlush? && lookaheadSize > 0)
        invariant Ready() && at <= |input| && src == old(src) + input[..at]
        invariant old(w.bits) <= w.bits && w.sent == old(w.sent) + |out| && Delivered(out, w.bits, old(w.sent))
        decreases |input| - at + lookaheadSize
      {
        ghost var from := at;
        at := Refill(input, at);
        assert input[..at] == input[..from] + input[from..at];
        if flush.NoFlush? && lookaheadSize < MAX_MATCH_LEN {
          break;
        }
        ParseStep();
        ghost var bits := w.bits;
        var bytes := FlushIfFull();
        DeliveredMore(out, bytes, bits, w.bits, old(w.sent));
        out := out + bytes;
      }
      assert input[..|input|] == input;
    }

    lemma NothingDelivered()
      requires Valid()
      ensures Delivered([], w.bits, w.sent)
    {
    }

    // tdefl_compress, when the output is handed on at once.  Finishing gives a whole stream
    // that decompresses to all the bytes ever taken in.
    method Compress(input: seq<Byte>, flush: Flush) returns (out: seq<Byte>)
      requires Ready()
      modifies this, w, w.buf, lz, lz.buf, dict, next, hash
      modifies lit.counts, lit.sizes, lit.codes, dist.counts, dist.sizes, dist.codes, cl.counts, cl.sizes, cl.codes
      ensures src == old(src) + input && old(w.bits) <= w.bits
      ensures w.sent == old(w.sent) + |out| && Delivered(out, w.bits, old(w.sent))
      ensures !flush.Finish? ==> Ready()
      ensures !flush.NoFlush? ==> w.sent == |w.bits| / 8
      ensures flush.SyncFlush? || flush.FullFlush? ==> Decodes([], w.bits, BlockHead, [], src) && |w.bits| % 8 == 0
      ensures flush.Finish? ==> StreamEnds(w.bits, src)
    {
      hide Delivered, Compressor.Recorded, Compressor.Window, BitWriter.Valid, Decodes, TablesApart, StreamEnds;
      out := CompressNormal(input, flush);
      if !flush.NoFlush? {
        ghost var bits := w.bits;
        AllParsed();
        var bytes := FlushBlock(flush);
        assert src[..|src|] == src;
        DeliveredMore(out, bytes, bits, w.bits, old(w.sent));
        out := out + bytes;
        if flush.FullFlush? {
          ForgetWindow();
        }
      }
    }

    // What a full flush adds: no later match reaches back (source lines 1934-1939).
    method ForgetWindow()
      requires Ready()
      modifies this`dictSize, next, hash
      ensures Ready()
    {
      hide Windowed, Tallied, Genuine, Decodes, TablesApart, Replays, LzCodes.Valid, BitWriter.Valid, Parsed;
      ClearChains();
      WindowShrinks(dict[..], src, lookaheadPos, lookaheadSize, dictSize, 0);
      dictSize := 0;
    }

    method ClearChains()
      requires Shape()
      modifies next, hash
    {
      forall i | 0 <= i < LZ_DICT_SIZE {
        hash[i] := 0;
      }
      forall i | 0 <= i < LZ_DICT_SIZE {
        next[i] := 0;
      }
    }

    // With nothing left to parse no match is held back, and the block covers everything.
    lemma AllParsed()
      requires Valid() && lookaheadSize == 0
      ensures lzCodeBufDictPos + totalLzBytes == |src|
    {
      hide Tallied, Replays, Decodes;
    }
  }

  lemma ParsedBounds(src: seq<Byte>, pos: nat, start: nat, total: nat, s: Saved, ts: seq<Token>)
    requires Parsed(src, pos, start, total, s, ts)
    ensures start <= pos <= |src|
  {
  }

  lemma DeliveredMore(a: seq<Byte>, b: seq<Byte>, bits: seq<bool>, bits': seq<bool>, from: nat)
    requires Delivered(a, bits, from) && bits <= bits' && Delivered(b, bits', from + |a|)
    ensures Delivered(a + b, bits', from)
  {
    hide ByteAt;
    forall i | 0 <= i < |a + b|
      ensures (a + b)[i] == ByteAt(bits', from + i)
    {
      if i < |a| {
        ByteAtPrefix(bits, bits', from + i);
      } else {
        assert b[i - |a|] == ByteAt(bits', from + |a| + (i - |a|));
      }
    }
  }

  // A finished stream: the decompressor is done in its last byte, having produced out.
  ghost predicate StreamEnds(bits: seq<bool>, out: seq<Byte>)
  {
    |bits| % 8 == 0 && exists n: nat :: n <= |bits| < n + 8 && Decodes([], bits[..n], Done, [], out)
  }

  lemma StreamPadded(before: seq<bool>, out: seq<Byte>)
    requires Decodes([], before, Done, [], out)
    ensures StreamEnds(before + Pad(|before|), out)
  {
    hide Decodes, LsbBits;
    var bits := before + Pad(|before|);
    assert bits[..|before|] == before;
  }

  lemma SyncDecodes(before: seq<bool>, hist: seq<Byte>)
    requires Decodes([], before, BlockHead, [], hist)
    requires Decodes(before, before + RawBits(false, |before|, []), BlockHead, hist, [])
    ensures Decodes([], before + RawBits(false, |before|, []), BlockHead, [], hist)
    ensures |RawBits(false, |before|, [])| <= 48
  {
    hide Decodes, LsbBits;
    assert [] + hist == hist && hist + [] == hist;
    DecodesTrans([], before, before + RawBits(false, |before|, []), BlockHead, [], hist, []);
  }

  lemma RecordedMeaning(src: seq<Byte>, start: nat, total: nat, ts: seq<Token>)
    requires Replays(src, start, total, ts)
    ensures start + total <= |src| && ValidTokens(ts, start) && |src[..start]| == start
    ensures Meaning(src[..start], ts) == src[start..start + total]
  {
    hide ValidTokens, Replay;
  }

  lemma OneBitPut(fin: bool)
    ensures LsbBits(if fin then 1 else 0, 1) == [fin]
  {
    assert LsbBits(0, 0) == [];
  }

  // The bytes of a block that the dictionary still holds.
  lemma BlockInDict(d: seq<Byte>, src: seq<Byte>, pos: nat, ahead: nat, back: nat, start: nat, total: nat,
      ts: seq<Token>)
    requires Windowed(d, src, pos, ahead, back) && Replays(src, start, total, ts) && start + total <= pos &&
             pos - start <= back
    ensures total <= LZ_DICT_SIZE && ValidTokens(ts, start) && |Meaning(src[..start], ts)| == total
    ensures forall i :: 0 <= i < total ==> d[(start + i) % LZ_DICT_SIZE] == Meaning(src[..start], ts)[i]
  {
    hide ValidTokens, Replay, Meaning;
    RecordedMeaning(src, start, total, ts);
    forall i | 0 <= i < total
      ensures d[(start + i) % LZ_DICT_SIZE] == Meaning(src[..start], ts)[i]
    {
      assert Meaning(src[..start], ts)[i] == src[start + i];
    }
  }

  lemma GenuineBounds(src: seq<Byte>, pos: nat, d: nat, len: nat)
    requires Genuine(src, pos, d, len)
    ensures 1 <= d <= pos && pos + len <= |src|
  {
  }

  lemma RunIsGenuine(src: seq<Byte>, pos: nat, len: nat, c: Byte)
    requires pos > 0 && pos + len <= |src| && src[pos - 1] == c && forall j :: pos <= j < pos + len ==> src[j] == c
    ensures Genuine(src, pos, 1, len)
  {
  }

  function Smaller(a: nat, b: nat): nat {
    if a < b then a else b
  }

  // ((hash << 5) ^ c) & 0x7FFF
  function HashStep(h: nat, c: Byte): (r: nat)
    requires h < LZ_DICT_SIZE
    ensures r < LZ_DICT_SIZE
  {
    ((((h as bv32) << 5) ^ (c as bv32)) & 0x7FFF) as nat
  }

  lemma WindowSizes(d: seq<Byte>, src: seq<Byte>, pos: nat, ahead: nat, back: nat)
    requires Windowed(d, src, pos, ahead, back)
    ensures |d| == LZ_DICT_LENGTH && ahead <= MAX_MATCH_LEN && back + ahead <= LZ_DICT_SIZE && back <= pos &&
            |src| == pos + ahead
  {
  }

  // The 16-bit chain link and the distance name the same dictionary slot.
  lemma SameSlot(pos: nat, probe: nat, d: nat)
    requires d == (pos - probe) % 0x1_0000 && probe < 0x1_0000
    ensures d <= pos ==> probe % LZ_DICT_SIZE == (pos - d) % LZ_DICT_SIZE
  {
  }

  lemma WindowNothing(d: seq<Byte>)
    requires |d| == LZ_DICT_LENGTH
    ensures Windowed(d, [], 0, 0, 0)
  {
  }
}
