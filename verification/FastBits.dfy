// The 64-bit path of tdefl_compress_lz_codes (kernel/miniz/miniz.c:1081-1171): several codes
// are gathered in a 64-bit word and stored at once.  It puts exactly the bits the simple
// version puts.
module FastBits {
  import opened Arith
  import opened Bits
  import opened Canonical
  import opened HuffTable
  import opened FastTable
  import opened Tokens
  import opened BlockBits
  import opened BitWriter
  import opened LzCodes
  import opened BlockEncoder

  // A word of pending bits in front of byte k, as the locals bit_buffer and bits_in hold it.
  ghost predicate Pending(bits: seq<bool>, k: nat, word: nat, n: nat)
  {
    8 * k <= |bits| && n == |bits| - 8 * k && word == LsbValue(bits[8 * k..])
  }

  // TDEFL_PUT_BITS_FAST: the word has room for the new bits.
  method PutFast(word: nat, n: nat, b: nat, len: nat, ghost bits: seq<bool>, ghost k: nat) returns (word': nat, n': nat)
    requires Pending(bits, k, word, n) && b < Pow2(len) && n + len <= 64
    ensures Pending(bits + LsbBits(b, len), k, word', n') && n' == n + len && word' < Pow2(64)
  {
    hide LsbValue, LsbBits, Pow2;
    Appended(bits, b, len, k);
    word', n' := word + b * Pow2(n), n + len;
    LsbBitsOfValue((bits + LsbBits(b, len))[8 * k..]);
    Pow2Monotone(n', 64);
  }

  lemma PendingStep(bits: seq<bool>, k: nat, word: nat, n: nat)
    requires Pending(bits, k, word, n) && n >= 8
    ensures word % 256 == ByteAt(bits, k) && Pending(bits, k + 1, word / 256, n - 8)
  {
    hide LsbValue;
    FirstByte(bits, k);
  }

  // v >> n
  function ShiftRight(v: nat, n: nat): (r: nat) {
    QuotientNat(v, Pow2(n));
    v / Pow2(n)
  }

  lemma QuotientNat(v: nat, p: nat)
    requires p > 0
    ensures v / p >= 0
  {
  }

  // Shifting whole bytes out of the word.
  lemma {:induction false} ShiftBytes(bits: seq<bool>, k: nat, word: nat, n: nat, i: nat)
    requires Pending(bits, k, word, n) && 8 * i <= n
    ensures Pending(bits, k + i, ShiftRight(word, 8 * i), n - 8 * i)
  {
    hide Pending, Pow2, ShiftRight;
    if i == 0 {
      DivOne(word);
    } else {
      ShiftBytes(bits, k, word, n, i - 1);
      var w := ShiftRight(word, 8 * (i - 1));
      PendingStep(bits, k + i - 1, w, n - 8 * (i - 1));
      EightMore(word, i - 1, 8 * i);
    }
  }

  lemma DivOne(v: nat)
    ensures ShiftRight(v, 0) == v
  {
  }

  lemma EightMore(v: nat, i: nat, m: nat)
    requires m == 8 * i + 8
    ensures ShiftRight(v, m) == ShiftRight(v, 8 * i) / 256
  {
    hide Pow2;
    Pow2Add(8 * i, 8);
    SmallPowers();
    DivDiv(v, Pow2(8 * i), 256);
  }

  // A byte stored behind those already there, and one stored beyond them.
  lemma StoredNext(buf: seq<Byte>, outPos: nat, end: nat, sent: nat, bits: seq<bool>, k: nat, x: Byte)
    requires Stored(buf, outPos, end, sent, bits, k) && outPos < |buf|
    ensures Stored(buf[outPos := x], outPos, end, sent, bits, k)
    ensures sent + outPos == k && 8 * k + 8 <= |bits| && x == ByteAt(bits, k) ==>
              Stored(buf[outPos := x], outPos + 1, end, sent, bits, k + 1)
  {
    hide ByteAt;
  }

  lemma StoredBeyond(buf: seq<Byte>, outPos: nat, end: nat, sent: nat, bits: seq<bool>, k: nat, q: nat, x: Byte)
    requires Stored(buf, outPos, end, sent, bits, k) && outPos <= q < |buf|
    ensures Stored(buf[q := x], outPos, end, sent, bits, k)
  {
    hide ByteAt;
  }

  lemma StoredExact(buf: seq<Byte>, outPos: nat, end: nat, sent: nat, bits: seq<bool>, k: nat)
    requires Stored(buf, outPos, end, sent, bits, k) && outPos < end
    ensures sent + outPos == k
  {
  }

  // The 8-byte store and the shifts after it (source lines 1150-1153).
  method StoreWord(buf: array<Byte>, outPos: nat, end: nat, word: nat, n: nat, ghost sent: nat, ghost bits: seq<bool>,
      ghost k: nat)
    returns (outPos': nat, word': nat, n': nat)
    requires buf.Length == end + 16 && outPos < end && n <= 64 && word < Pow2(64)
    requires Pending(bits, k, word, n) && Stored(buf[..], outPos, end, sent, bits, k)
    modifies buf
    ensures outPos' == outPos + n / 8 && n' == n % 8
    ensures Pending(bits, k + n / 8, word', n') && Stored(buf[..], outPos', end, sent, bits, k + n / 8)
  {
    hide Pow2, ByteAt, Pending, Stored;
    StoredExact(buf[..], outPos, end, sent, bits, k);
    var v := word;
    ghost var done := 0;
    for i := 0 to 8
      invariant done == (if i < n / 8 then i else n / 8)
      invariant i <= n / 8 ==> Pending(bits, k + i, v, n - 8 * i)
      invariant Stored(buf[..], outPos + done, end, sent, bits, k + done)
    {
      ghost var b := buf[..];
      if i < n / 8 {
        PendingStep(bits, k + i, v, n - 8 * i);
        PendingRange(bits, k + i, v, n - 8 * i);
        StoredNext(b, outPos + i, end, sent, bits, k + i, v % 256);
        done := done + 1;
      } else {
        StoredBeyond(b, outPos + done, end, sent, bits, k + done, outPos + i, v % 256);
      }
      buf[outPos + i] := v % 256;
      assert buf[..] == b[outPos + i := v % 256];
      v := v / 256;
    }
    ShiftBytes(bits, k, word, n, n / 8);
    word' := ShiftRight(word, n - n % 8);
    outPos', n' := outPos + n / 8, n % 8;
    assert 8 * (n / 8) == n - n % 8;
  }

  lemma PendingRange(bits: seq<bool>, k: nat, word: nat, n: nat)
    requires Pending(bits, k, word, n) && n >= 8
    ensures 8 * k + 8 <= |bits|
  {
  }

  lemma CodeRange(t: CodeTable, s: nat)
    requires t.Shaped(t.sizes.Length) && t.Coded() && Used(t.sizes[..], s)
    ensures t.sizes[s] <= MAX_CODE_SIZE && t.codes[s] < Pow2(t.sizes[s])
    ensures LsbBits(t.codes[s], t.sizes[s]) == Codeword(t.sizes[..], s)
  {
    hide LsbBits, Codeword, Pow2, CodesFor;
    CodeBits(MAX_CODE_SIZE, t.sizes[..], t.codes[..], s);
  }

  method PutCodeFast(t: CodeTable, s: nat, word: nat, n: nat, ghost bits: seq<bool>, ghost k: nat)
    returns (word': nat, n': nat)
    requires t.Shaped(t.sizes.Length) && t.Coded() && Used(t.sizes[..], s) && Pending(bits, k, word, n) && n <= 49
    ensures Pending(bits + Codeword(t.sizes[..], s), k, word', n') && n <= n' <= n + MAX_CODE_SIZE && word' < Pow2(64)
  {
    hide Pending, LsbBits, Codeword, Pow2, CodesFor, Feasible;
    CodeRange(t, s);
    word', n' := PutFast(word, n, t.codes[s], t.sizes[s], bits, k);
  }

  // A match takes at most 48 bits on top of the seven that may be pending (lines 1104-1122).
  method PutMatchFast(lit: CodeTable, dist: CodeTable, matchLen: nat, matchDist: nat, word: nat, n: nat,
      ghost bits: seq<bool>, ghost k: nat)
    returns (word': nat, n': nat)
    requires lit.Shaped(288) && dist.Shaped(32) && lit.Coded() && dist.Coded() && matchLen < 256 &&
             matchDist < LZ_DICT_SIZE
    requires Encodable(lit.sizes[..], dist.sizes[..], Match(matchLen + MIN_MATCH_LEN, matchDist + 1))
    requires Pending(bits, k, word, n) && n < 8
    ensures Pending(bits + TokenBits(lit.sizes[..], dist.sizes[..], Match(matchLen + MIN_MATCH_LEN, matchDist + 1)), k,
            word', n')
    ensures n' <= 64 && word' < Pow2(64)
  {
    hide Pending, LsbBits, Codeword, Pow2, CodesFor, Feasible, LenSym, LenExtra, SmallDistSym, SmallDistExtra,
         LargeDistSym, LargeDistExtra;
    ghost var ls, ds := lit.sizes[..], dist.sizes[..];
    ghost var s, e := LenSym(matchLen), LenExtra(matchLen);
    ExtraRange(matchLen, matchDist);
    word', n' := PutCodeFast(lit, LenSym(matchLen), word, n, bits, k);
    word', n' := PutFast(word', n', matchLen % Pow2(LenExtra(matchLen)), LenExtra(matchLen), bits + Codeword(ls, s), k);
    ghost var b := bits + Codeword(ls, s) + LsbBits(matchLen % Pow2(e), e);
    var s0, n0 := SmallDistSym(matchDist % 512), SmallDistExtra(matchDist % 512);
    var s1, n1 := LargeDistSym(matchDist / 256), LargeDistExtra(matchDist / 256);
    var sym, extra := if matchDist < 512 then s0 else s1, if matchDist < 512 then n0 else n1;
    assert sym == DistSym(matchDist) && extra == DistExtra(matchDist);
    word', n' := PutCodeFast(dist, sym, word', n', b, k);
    word', n' := PutFast(word', n', matchDist % Pow2(extra), extra, b + Codeword(ds, sym), k);
    assert b + Codeword(ds, sym) + LsbBits(matchDist % Pow2(extra), extra)
        == bits + (Codeword(ls, s) + LsbBits(matchLen % Pow2(e), e)
            + (Codeword(ds, sym) + LsbBits(matchDist % Pow2(extra), extra)));
  }

  // Another literal follows in the same group exactly when the next flag bit is clear and
  // the buffer is not used up.
  lemma NextIsLiteral(rest: seq<Byte>, flags: nat, g: seq<Token>, tail: seq<Token>, c: nat)
    requires Reading(rest, flags, g, tail, c) && flags % 2 == 0 && rest != []
    ensures g != [] && !g[0].Match?
  {
    hide Reading;
    if g == [] {
      NextGroup(rest, flags, tail, c, rest[0]);
    } else {
      GroupEntered(rest, flags, g, tail, c);
    }
  }

  // Where the loop stands: ts[j..] is still to be read, the bits of ts[..j] follow `before`.
  ghost predicate Encoding(before: seq<bool>, ls: seq<nat>, ds: seq<nat>, ts: seq<Token>, j: nat, g: seq<Token>,
      tail: seq<Token>, bits: seq<bool>)
  {
    j <= |ts| && ts[j..] == g + tail && AllEncodable(ls, ds, ts[..j]) && bits == before + TokensBits(ls, ds, ts[..j])
  }

  lemma EncodingStep(before: seq<bool>, ls: seq<nat>, ds: seq<nat>, ts: seq<Token>, j: nat, g: seq<Token>,
      tail: seq<Token>, bits: seq<bool>)
    requires AllEncodable(ls, ds, ts) && Encoding(before, ls, ds, ts, j, g, tail, bits) && g != []
    ensures j < |ts| && ts[j] == g[0] && Encodable(ls, ds, g[0])
    ensures Encoding(before, ls, ds, ts, j + 1, g[1..], tail, bits + TokenBits(ls, ds, g[0]))
  {
    hide TokenBits, TokensBits, AllEncodable, Encodable;
    assert ts[j..][0] == ts[j] == g[0];
    NextToken(ls, ds, ts, j);
    assert ts[j + 1..] == ts[j..][1..] == g[1..] + tail;
  }

  lemma EncodingEnds(before: seq<bool>, ls: seq<nat>, ds: seq<nat>, ts: seq<Token>, j: nat, bits: seq<bool>)
    requires Encoding(before, ls, ds, ts, j, [], [], bits)
    ensures AllEncodable(ls, ds, ts) && bits == before + TokensBits(ls, ds, ts)
  {
    assert ts[j..] == [] && ts[..j] == ts;
  }

  lemma {:induction false} EncodingPrefix(before: seq<bool>, ls: seq<nat>, ds: seq<nat>, ts: seq<Token>, j: nat,
      g: seq<Token>, tail: seq<Token>, bits: seq<bool>)
    requires CanEncode(ls, ds, ts) && Encoding(before, ls, ds, ts, j, g, tail, bits)
    ensures |bits| <= |before + BodyBits(ls, ds, ts)|
    decreases |ts| - j
  {
    hide TokenBits, AllEncodable, Encodable, TokensBits;
    if g + tail == [] {
      EncodingEnds(before, ls, ds, ts, j, bits);
    } else {
      assert ts[j..] == ts[j..] + [];
      assert Encoding(before, ls, ds, ts, j, ts[j..], [], bits);
      EncodingStep(before, ls, ds, ts, j, ts[j..], [], bits);
      EncodingPrefix(before, ls, ds, ts, j + 1, ts[j..][1..], [], bits + TokenBits(ls, ds, ts[j]));
    }
  }

  // A literal of the buffer.
  method TakeLiteral(lit: CodeTable, codes: array<Byte>, p: nat, codeEnd: nat, flags: nat, word: nat, n: nat,
      ghost ds: seq<nat>, ghost bits: seq<bool>, ghost k: nat, ghost g: seq<Token>, ghost tail: seq<Token>,
          ghost c: nat)
    returns (word': nat, n': nat)
    requires lit.Shaped(288) && lit.Coded() && p <= codeEnd <= codes.Length && g != [] &&
             Reading(codes[..][p..codeEnd], flags, g, tail, c)
    requires flags % 2 == 0 && Encodable(lit.sizes[..], ds, g[0]) && Pending(bits, k, word, n) && n <= 49
    ensures p < codeEnd && c > 0 && Pending(bits + TokenBits(lit.sizes[..], ds, g[0]), k, word', n') &&
            n <= n' <= n + MAX_CODE_SIZE && word' < Pow2(64)
    ensures Reading(codes[..][p + 1..codeEnd], flags / 2, g[1..], tail, c - 1)
  {
    hide Pending, Codeword, Pow2, CodesFor, Feasible, Reading;
    GroupEntered(codes[..][p..codeEnd], flags, g, tail, c);
    assert g[0].Literal?;
    assert codes[..][p..codeEnd][..1] == [codes[p]] && codes[..][p..codeEnd][1..] == codes[..][p + 1..codeEnd];
    word', n' := PutCodeFast(lit, codes[p], word, n, bits, k);
  }

  // One match, or up to three literals of a group (source lines 1102-1145).
  method GatherCodes(lit: CodeTable, dist: CodeTable, codes: array<Byte>, p0: nat, codeEnd: nat, flags0: nat,
      word0: nat, n0: nat,
      ghost before: seq<bool>, ghost bits0: seq<bool>, ghost k: nat, ghost g0: seq<Token>, ghost tail: seq<Token>,
          ghost c0: nat, ghost j0: nat, ghost ts: seq<Token>)
    returns (p: nat, flags: nat, word: nat, n: nat, ghost bits: seq<bool>, ghost g: seq<Token>, ghost c: nat,
        ghost j: nat)
    requires lit.Shaped(288) && dist.Shaped(32) && lit.Coded() && dist.Coded() && p0 <= codeEnd <= codes.Length
    requires AllEncodable(lit.sizes[..], dist.sizes[..], ts) &&
             Encoding(before, lit.sizes[..], dist.sizes[..], ts, j0, g0, tail, bits0)
    requires g0 != [] && Reading(codes[..][p0..codeEnd], flags0, g0, tail, c0) && Pending(bits0, k, word0, n0) && n0 < 8
    ensures p0 < p <= codeEnd && Reading(codes[..][p..codeEnd], flags / 2, g, tail, c)
    ensures Encoding(before, lit.sizes[..], dist.sizes[..], ts, j, g, tail, bits)
    ensures bits0 <= bits && Pending(bits, k, word, n) && n <= 64 && word < Pow2(64)
  {
    hide Codeword, Pow2, Reading, Feasible, CodesFor, AllEncodable, TokenBits, Encoding, Pending, AllRecordable,
         LsbValue, TokenBytes;
    ghost var b, ls, ds := codes[..], lit.sizes[..], dist.sizes[..];
    p, flags, word, n, bits, g, c, j := p0, flags0, word0, n0, bits0, g0, c0, j0;
    GroupEntered(b[p..codeEnd], flags, g, tail, c);
    EncodingStep(before, ls, ds, ts, j, g, tail, bits);
    if flags % 2 == 1 {
      MatchBytes(b, p, codeEnd, g[0]);
      var low: nat, high: nat := codes[p + 1], codes[p + 2];
      word, n := PutMatchFast(lit, dist, codes[p], low + 256 * high, word, n, bits, k);
      p := p + 3;
    } else {
      word, n := TakeLiteral(lit, codes, p, codeEnd, flags, word, n, ds, bits, k, g, tail, c);
      p := p + 1;
    }
    bits, g, c, j := bits + TokenBits(ls, ds, g[0]), g[1..], c - 1, j + 1;
    if flags0 % 2 == 0 && flags / 2 % 2 == 0 && p < codeEnd {
      NextIsLiteral(b[p..codeEnd], flags / 2, g, tail, c);
      EncodingStep(before, ls, ds, ts, j, g, tail, bits);
      flags := flags / 2;
      word, n := TakeLiteral(lit, codes, p, codeEnd, flags, word, n, ds, bits, k, g, tail, c);
      p := p + 1;
      bits, g, c, j := bits + TokenBits(ls, ds, g[0]), g[1..], c - 1, j + 1;
      if flags / 2 % 2 == 0 && p < codeEnd {
        NextIsLiteral(b[p..codeEnd], flags / 2, g, tail, c);
        EncodingStep(before, ls, ds, ts, j, g, tail, bits);
        flags := flags / 2;
        word, n := TakeLiteral(lit, codes, p, codeEnd, flags, word, n, ds, bits, k, g, tail, c);
        p := p + 1;
        bits, g, c, j := bits + TokenBits(ls, ds, g[0]), g[1..], c - 1, j + 1;
      }
    }
  }

  lemma FastStart(bits: seq<bool>, word: nat, n: nat, ls: seq<nat>, ds: seq<nat>, ts: seq<Token>)
    requires AllRecordable(ts) && n == |bits| % 8 && word == LsbValue(bits[8 * (|bits| / 8)..])
    ensures Pending(bits, |bits| / 8, word, n) && Reading(Packed(ts), 1, [], ts, 0)
    ensures Encoding(bits, ls, ds, ts, 0, [], ts, bits)
  {
    ReadingStart(ts);
    NoTokens(ls, ds, ts);
  }

  lemma EncodingRegroup(before: seq<bool>, ls: seq<nat>, ds: seq<nat>, ts: seq<Token>, j: nat, tail: seq<Token>,
      bits: seq<bool>)
    requires Encoding(before, ls, ds, ts, j, [], tail, bits)
    ensures Encoding(before, ls, ds, ts, j, Group(tail), tail[|Group(tail)|..], bits)
  {
    hide AllEncodable, TokensBits;
    assert [] + tail == Group(tail) + tail[|Group(tail)|..];
  }

  // The bytes of the shorter stream are still there.
  lemma StoredBack(buf0: seq<Byte>, buf: seq<Byte>, pos0: nat, pos: nat, end: nat, sent: nat, bits0: seq<bool>,
      bits: seq<bool>, k0: nat, k: nat)
    requires Stored(buf0, pos0, end, sent, bits0, k0) && Stored(buf, pos, end, sent, bits, k)
    requires bits0 <= bits && pos0 <= pos && |buf0| == |buf|
    ensures Stored(buf, pos0, end, sent, bits0, k0)
  {
    hide ByteAt;
    forall i | 0 <= i < pos0
      ensures buf[i] == ByteAt(bits0, sent + i)
    {
      ByteAtPrefix(bits0, bits, sent + i);
    }
  }

  // A full buffer before the end of the codes means that the block does not fit.
  lemma TooLong(buf: seq<Byte>, outPos: nat, sent: nat, before: seq<bool>, ls: seq<nat>, ds: seq<nat>, ts: seq<Token>,
      j: nat, g: seq<Token>, tail: seq<Token>, bits: seq<bool>, k: nat)
    requires CanEncode(ls, ds, ts) && Encoding(before, ls, ds, ts, j, g, tail, bits)
    requires Stored(buf, outPos, OUT_BUF_SIZE - 16, sent, bits, k) && outPos >= OUT_BUF_SIZE - 16
    ensures !Fits(before + BodyBits(ls, ds, ts), sent)
  {
    hide Encoding, CanEncode, ByteAt, BodyBits;
    EncodingPrefix(before, ls, ds, ts, j, g, tail, bits);
  }

  // The whole bytes of the pending word belong to the stream, the rest is put again.
  lemma WordTail(buf: seq<Byte>, outPos: nat, end: nat, sent: nat, bits: seq<bool>, k: nat, word: nat, n: nat)
    requires Pending(bits, k, word, n) && n < 8 && Stored(buf, outPos, end, sent, bits, k)
    ensures word < Pow2(n) && bits[..8 * k] + LsbBits(word, n) == bits
    ensures |bits[..8 * k]| == 8 * k && Stored(buf, outPos, end, sent, bits[..8 * k], k)
  {
    hide LsbValue, LsbBits, Pow2;
    LsbBitsOfValue(bits[8 * k..]);
    assert bits == bits[..8 * k] + bits[8 * k..];
    forall i | 0 <= i < outPos
      ensures buf[i] == ByteAt(bits[..8 * k], sent + i)
    {
      ByteAtPrefix(bits[..8 * k], bits, sent + i);
    }
  }

  // The 64-bit version: it reports the same outcome as the simple one and, when the block
  // fits, has put the same bits.
  method CompressLzCodesFast(w: BitWriter, lit: CodeTable, dist: CodeTable, codes: array<Byte>, codeEnd: nat,
      ghost ts: seq<Token>) returns (fits: bool)
    requires w.Valid() && codes != w.buf && lit.Shaped(288) && dist.Shaped(32) && lit.Coded() && dist.Coded()
    requires AllRecordable(ts) && codeEnd <= codes.Length && codes[..codeEnd] == Packed(ts)
    requires CanEncode(lit.sizes[..], dist.sizes[..], ts)
    modifies w, w.buf
    ensures w.Valid() && w.sent == old(w.sent) && w.outPos >= old(w.outPos) && old(w.bits) <= w.bits
    ensures fits <==> Fits(old(w.bits) + BodyBits(lit.sizes[..], dist.sizes[..], ts), w.sent)
    ensures fits ==> w.bits == old(w.bits) + BodyBits(lit.sizes[..], dist.sizes[..], ts)
  {
    hide Packed, Bytes, Codeword, LsbValue, Pow2, Reading, Feasible, CodesFor, AllEncodable, TokenBits, Encoding,
         Pending, Stored, CanEncode;
    hide AllRecordable, Encodable, BodyBits, Fits, LsbBits;
    ghost var before, b, buf0, ls, ds := w.bits, codes[..], w.buf[..], lit.sizes[..], dist.sizes[..];
    ghost var g: seq<Token>, tail, c: nat, j: nat := [], ts, 0, 0;
    ghost var bits, k: nat := before, |before| / 8;
    var flags: nat, p := 1, 0;
    var outPos, word, n := w.outPos, w.bitBuffer, w.bitsIn;
    FastStart(before, word, n, ls, ds, ts);
    CanEncodeParts(ls, ds, ts);
    assert b[0..codeEnd] == Packed(ts);
    while p < codeEnd
      invariant p <= codeEnd && codes[..] == b && before <= bits && w.outPos <= outPos
      invariant Reading(b[p..codeEnd], flags, g, tail, c) && Encoding(before, ls, ds, ts, j, g, tail, bits)
      invariant Pending(bits, k, word, n) && n < 8 && Stored(w.buf[..], outPos, w.end, w.sent, bits, k)
      modifies w.buf
      decreases codeEnd - p
    {
      if g == [] {
        NextGroup(b[p..codeEnd], flags, tail, c, b[p]);
        assert b[p..codeEnd][1..] == b[p + 1..codeEnd];
        EncodingRegroup(before, ls, ds, ts, j, tail, bits);
        g, tail, c := Group(tail), tail[|Group(tail)|..], 8;
      } else {
        GroupEntered(b[p..codeEnd], flags, g, tail, c);
      }
      if flags == 1 {
        var first: nat := codes[p];
        flags := first + 0x100;
        p := p + 1;
      }
      ghost var was := bits;
      p, flags, word, n, bits, g, c, j := GatherCodes(lit, dist, codes, p, codeEnd, flags, word, n, before, bits, k, g,
          tail, c, j, ts);
      flags := flags / 2;
      assert bits == was + bits[|was|..];
      StoredMore(w.buf[..], outPos, w.end, w.sent, was, k, bits[|was|..]);
      if outPos >= w.end {
        TooLong(w.buf[..], outPos, w.sent, before, ls, ds, ts, j, g, tail, bits, k);
        StoredBack(buf0, w.buf[..], w.outPos, outPos, w.end, w.sent, before, bits, |before| / 8, k);
        return false;
      }
      ghost var e := k + n / 8;
      outPos, word, n := StoreWord(w.buf, outPos, w.end, word, n, w.sent, bits, k);
      k := e;
    }
    fits := FinishFast(w, lit, outPos, word, n, bits, k);
    ReadingEnds(b[p..codeEnd], flags, g, tail, c);
    EncodingEnds(before, ls, ds, ts, j, bits);
    BodyParts(ls, ds, ts);
    assert before + (TokensBits(ls, ds, ts) + Codeword(ls, END_OF_BLOCK)) == before + TokensBits(ls, ds, ts)
        + Codeword(ls, END_OF_BLOCK);
  }

  lemma CanEncodeParts(ls: seq<nat>, ds: seq<nat>, ts: seq<Token>)
    requires CanEncode(ls, ds, ts)
    ensures Used(ls, END_OF_BLOCK) && AllEncodable(ls, ds, ts)
  {
  }

  lemma BodyParts(ls: seq<nat>, ds: seq<nat>, ts: seq<Token>)
    requires CanEncode(ls, ds, ts)
    ensures BodyBits(ls, ds, ts) == TokensBits(ls, ds, ts) + Codeword(ls, END_OF_BLOCK)
  {
  }

  // Source lines 1158-1170: back to the 32-bit buffer, then the end of the block.
  method FinishFast(w: BitWriter, lit: CodeTable, outPos: nat, word0: nat, n0: nat, ghost bits: seq<bool>,
      ghost k: nat) returns (fits: bool)
    requires lit.Shaped(288) && lit.Coded() && Used(lit.sizes[..], END_OF_BLOCK)
    requires w.buf.Length == OUT_BUF_SIZE && w.end == OUT_BUF_SIZE - 16
    requires Pending(bits, k, word0, n0) && n0 < 8 && Stored(w.buf[..], outPos, w.end, w.sent, bits, k)
    modifies w, w.buf
    ensures w.Valid() && w.sent == old(w.sent) && w.outPos >= outPos &&
            w.bits == bits + Codeword(lit.sizes[..], END_OF_BLOCK)
    ensures fits <==> Fits(w.bits, w.sent)
  {
    hide Codeword, LsbValue, Pow2, Feasible, CodesFor, Pending, Stored, Fits, LsbBits;
    var word: nat, n: nat := word0, n0;
    WordTail(w.buf[..], outPos, w.end, w.sent, bits, k, word, n);
    LsbNil();
    w.outPos := outPos;
    w.bitsIn := 0;
    w.bitBuffer := 0;
    w.bits := bits[..8 * k];
    assert w.bits[8 * k..] == [];
    while n > 0
      invariant w.Valid() && w.sent == old(w.sent) && w.outPos >= outPos && n < 8 && word < Pow2(n)
      invariant w.bits + LsbBits(word, n) == bits
    {
      var m := if n < 16 then n else 16;
      ModSmall(word, Pow2(m));
      w.PutBits(word % Pow2(m), m);
      word := ShiftRight(word, m);
      n := n - m;
      NoBits(word);
    }
    NoBits(word);
    lit.PutSymbol(w, END_OF_BLOCK);
    fits := w.outPos < w.end;
    FitsMeans(w.buf[..], w.outPos, w.end, w.sent, w.bits);
  }

  lemma NoBits(v: nat)
    ensures LsbBits(v, 0) == []
  {
  }

  lemma ModSmall(v: nat, p: nat)
    requires v < p
    ensures v % p == v && v / p == 0
  {
  }
}
