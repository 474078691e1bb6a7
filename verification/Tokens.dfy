// LZ77 tokens: what they mean, and the symbols and extra bits DEFLATE gives to lengths and
// distances (kernel/miniz/miniz.c:664-725, 2383-2386; RFC 1951 section 3.2.5).
module Tokens {
  import opened Arith
  import opened Bits
  import opened Canonical

  const MIN_MATCH_LEN := 3
  const MAX_MATCH_LEN := 258
  const LZ_DICT_SIZE := 32768

  type Byte = x: int | 0 <= x < 256

  datatype Token = Literal(lit: Byte) | Match(len: nat, dist: nat)

  ghost predicate ValidToken(t: Token, have: nat)
  {
    t.Match? ==> MIN_MATCH_LEN <= t.len <= MAX_MATCH_LEN && 1 <= t.dist <= LZ_DICT_SIZE && t.dist <= have
  }

  // Byte-by-byte copy from dist bytes back, overlaps included.
  function CopyBack(out: seq<Byte>, dist: nat, len: nat): (r: seq<Byte>)
    requires 1 <= dist <= |out|
    ensures |r| == |out| + len && out <= r
    decreases len
  {
    if len == 0 then out else CopyBack(out + [out[|out| - dist]], dist, len - 1)
  }

  function Apply(out: seq<Byte>, t: Token): (r: seq<Byte>)
    requires ValidToken(t, |out|)
    ensures out <= r
  {
    match t
    case Literal(b) => out + [b]
    case Match(len, dist) => CopyBack(out, dist, len)
  }

  function TokenSize(t: Token): nat {
    if t.Literal? then 1 else t.len
  }

  ghost predicate ValidTokens(ts: seq<Token>, have: nat)
    decreases |ts|
  {
    ts != [] ==> ValidToken(ts[0], have) && ValidTokens(ts[1..], have + TokenSize(ts[0]))
  }

  // The bytes after replaying tokens on top of what came before.
  function Replay(out: seq<Byte>, ts: seq<Token>): (r: seq<Byte>)
    requires ValidTokens(ts, |out|)
    ensures out <= r
    decreases |ts|
  {
    if ts == [] then out else Replay(Apply(out, ts[0]), ts[1..])
  }

  // ---------------------------------------------------------------------------------
  // The compressor's tables, written as the ranges of equal entries they hold.

  // s_tdefl_len_sym and s_tdefl_len_extra, indexed by length - 3.
  function LenSym(i: nat): nat
    requires i < 256
  {
    if i < 8 then 257 + i
    else if i < 16 then 265 + (i - 8) / 2
    else if i < 32 then 269 + (i - 16) / 4
    else if i < 64 then 273 + (i - 32) / 8
    else if i < 128 then 277 + (i - 64) / 16
    else if i < 255 then 281 + (i - 128) / 32
    else 285
  }

  function LenExtra(i: nat): nat
    requires i < 256
  {
    if i < 8 then 0 else if i < 16 then 1 else if i < 32 then 2 else if i < 64 then 3
    else if i < 128 then 4 else if i < 255 then 5 else 0
  }

  // s_tdefl_small_dist_sym and s_tdefl_small_dist_extra, indexed by distance - 1.
  function SmallDistSym(d: nat): nat
    requires d < 512
  {
    if d < 4 then d
    else if d < 8 then 4 + (d - 4) / 2
    else if d < 16 then 6 + (d - 8) / 4
    else if d < 32 then 8 + (d - 16) / 8
    else if d < 64 then 10 + (d - 32) / 16
    else if d < 128 then 12 + (d - 64) / 32
    else if d < 256 then 14 + (d - 128) / 64
    else 16 + (d - 256) / 128
  }

  function SmallDistExtra(d: nat): nat
    requires d < 512
  {
    if d < 4 then 0 else if d < 8 then 1 else if d < 16 then 2 else if d < 32 then 3
    else if d < 64 then 4 else if d < 128 then 5 else if d < 256 then 6 else 7
  }

  // s_tdefl_large_dist_sym and s_tdefl_large_dist_extra, indexed by (distance - 1) >> 8.
  function LargeDistSym(h: nat): nat
    requires h < 128
  {
    if h < 2 then 0
    else if h < 4 then 18 + (h - 2)
    else if h < 8 then 20 + (h - 4) / 2
    else if h < 16 then 22 + (h - 8) / 4
    else if h < 32 then 24 + (h - 16) / 8
    else if h < 64 then 26 + (h - 32) / 16
    else 28 + (h - 64) / 32
  }

  function LargeDistExtra(h: nat): nat
    requires h < 128
  {
    if h < 2 then 0 else if h < 4 then 8 else if h < 8 then 9 else if h < 16 then 10
    else if h < 32 then 11 else if h < 64 then 12 else 13
  }

  function DistSym(d: nat): nat
    requires d < LZ_DICT_SIZE
  {
    if d < 512 then SmallDistSym(d) else LargeDistSym(d / 256)
  }

  function DistExtra(d: nat): nat
    requires d < LZ_DICT_SIZE
  {
    if d < 512 then SmallDistExtra(d) else LargeDistExtra(d / 256)
  }

  // ---------------------------------------------------------------------------------
  // The decompressor's tables.

  const LENGTH_BASE: seq<nat> := [3, 4, 5, 6, 7, 8, 9, 10, 11, 13, 15, 17, 19, 23, 27, 31, 35, 43, 51, 59, 67, 83, 99,
      115, 131, 163, 195, 227, 258, 0, 0]
  const LENGTH_EXTRA: seq<nat> := [0, 0, 0, 0, 0, 0, 0, 0, 1, 1, 1, 1, 2, 2, 2, 2, 3, 3, 3, 3, 4, 4, 4, 4, 5, 5, 5, 5,
      0, 0, 0]
  const DIST_BASE: seq<nat> := [1, 2, 3, 4, 5, 7, 9, 13, 17, 25, 33, 49, 65, 97, 129, 193, 257, 385, 513, 769, 1025,
      1537, 2049, 3073, 4097, 6145, 8193, 12289, 16385, 24577, 0, 0]
  const DIST_EXTRA: seq<nat> := [0, 0, 0, 0, 1, 1, 2, 2, 3, 3, 4, 4, 5, 5, 6, 6, 7, 7, 8, 8, 9, 9, 10, 10, 11, 11, 12,
      12, 13, 13, 0, 0]

  // Rows of these tables.
  function RowLength(row: nat): nat
    requires row < 31
  {
    LENGTH_BASE[row]
  }

  function RowLengthExtra(row: nat): nat
    requires row < 31
  {
    LENGTH_EXTRA[row]
  }

  function RowDist(row: nat): nat
    requires row < 32
  {
    DIST_BASE[row]
  }

  function RowDistExtra(row: nat): nat
    requires row < 32
  {
    DIST_EXTRA[row]
  }

  lemma LengthRow(s: nat)
    requires s < 29
    ensures s < 8 ==> RowLength(s) == s + 3 && RowLengthExtra(s) == 0
    ensures 8 <= s < 12 ==> RowLength(s) == 11 + (s - 8) * 2 && RowLengthExtra(s) == 1
    ensures 12 <= s < 16 ==> RowLength(s) == 19 + (s - 12) * 4 && RowLengthExtra(s) == 2
    ensures 16 <= s < 20 ==> RowLength(s) == 35 + (s - 16) * 8 && RowLengthExtra(s) == 3
    ensures 20 <= s < 24 ==> RowLength(s) == 67 + (s - 20) * 16 && RowLengthExtra(s) == 4
    ensures 24 <= s < 28 ==> RowLength(s) == 131 + (s - 24) * 32 && RowLengthExtra(s) == 5
    ensures s == 28 ==> RowLength(s) == 258 && RowLengthExtra(s) == 0
  {
  }

  // The decompressor's tables undo the compressor's, for every length.
  lemma LengthRoundTrip(i: nat)
    requires i < 256
    ensures 257 <= LenSym(i) <= 285
    ensures RowLengthExtra(LenSym(i) - 257) == LenExtra(i)
    ensures RowLength(LenSym(i) - 257) + i % Pow2(LenExtra(i)) == i + MIN_MATCH_LEN
  {
    LengthRow(LenSym(i) - 257);
    SmallPowers();
  }

  lemma SmallPowers()
    ensures Pow2(0) == 1 && Pow2(1) == 2 && Pow2(2) == 4 && Pow2(3) == 8 && Pow2(4) == 16 && Pow2(5) == 32 &&
            Pow2(6) == 64
    ensures Pow2(7) == 128 && Pow2(8) == 256 && Pow2(9) == 512 && Pow2(10) == 1024 && Pow2(11) == 2048 &&
            Pow2(12) == 4096 && Pow2(13) == 8192
  {
  }

  lemma DistRow(s: nat)
    requires s < 30
    ensures s < 4 ==> RowDist(s) == s + 1 && RowDistExtra(s) == 0
    ensures 4 <= s < 6 ==> RowDist(s) == 5 + (s - 4) * 2 && RowDistExtra(s) == 1
    ensures 6 <= s < 8 ==> RowDist(s) == 9 + (s - 6) * 4 && RowDistExtra(s) == 2
    ensures 8 <= s < 10 ==> RowDist(s) == 17 + (s - 8) * 8 && RowDistExtra(s) == 3
    ensures 10 <= s < 12 ==> RowDist(s) == 33 + (s - 10) * 16 && RowDistExtra(s) == 4
    ensures 12 <= s < 14 ==> RowDist(s) == 65 + (s - 12) * 32 && RowDistExtra(s) == 5
    ensures 14 <= s < 16 ==> RowDist(s) == 129 + (s - 14) * 64 && RowDistExtra(s) == 6
    ensures 16 <= s < 18 ==> RowDist(s) == 257 + (s - 16) * 128 && RowDistExtra(s) == 7
    ensures 18 <= s < 20 ==> RowDist(s) == 513 + (s - 18) * 256 && RowDistExtra(s) == 8
    ensures 20 <= s < 22 ==> RowDist(s) == 1025 + (s - 20) * 512 && RowDistExtra(s) == 9
    ensures 22 <= s < 24 ==> RowDist(s) == 2049 + (s - 22) * 1024 && RowDistExtra(s) == 10
    ensures 24 <= s < 26 ==> RowDist(s) == 4097 + (s - 24) * 2048 && RowDistExtra(s) == 11
    ensures 26 <= s < 28 ==> RowDist(s) == 8193 + (s - 26) * 4096 && RowDistExtra(s) == 12
    ensures 28 <= s < 30 ==> RowDist(s) == 16385 + (s - 28) * 8192 && RowDistExtra(s) == 13
  {
  }

  lemma RowValue(d: nat, p: nat)
    requires p > 0
    ensures 2 * p + 1 + (d / p - 2) * p + d % p == d + 1
  {
    Distribute(d / p, -2, p);
  }

  // Distances between 2p and 4p share a row of the table with p values for each symbol.
  lemma DistanceInRow(d: nat, p: nat, e: nat, s: nat)
    requires 1 <= e <= 13 && p == Pow2(e) && 2 * p <= d < 4 * p && s == 2 + 2 * e + (d / p - 2)
    ensures s < 30 && RowDistExtra(s) == e && RowDist(s) + d % p == d + 1
  {
    hide Pow2;
    SmallPowers();
    RowValue(d, p);
    assert 2 <= d / p <= 3 by { QuotientTwo(d, p); }
    DistRow(s);
  }

  lemma QuotientTwo(d: nat, p: nat)
    requires p > 0 && 2 * p <= d < 4 * p
    ensures 2 <= d / p <= 3
  {
    QuotientBelow(d, p, 4);
    QuotientAbove(d, p, 2);
  }

  lemma SmallDistance(d: nat)
    requires d < 512
    ensures SmallDistSym(d) < 18
    ensures RowDistExtra(SmallDistSym(d)) == SmallDistExtra(d)
    ensures RowDist(SmallDistSym(d)) + d % Pow2(SmallDistExtra(d)) == d + 1
  {
    hide Pow2;
    SmallPowers();
    if d < 4 {
      DistRow(d);
    } else {
      var e := SmallDistExtra(d);
      SmallRow(d);
      DistanceInRow(d, Pow2(e), e, SmallDistSym(d));
    }
  }

  lemma SmallRow(d: nat)
    requires 4 <= d < 512
    ensures var e := SmallDistExtra(d);
            && 1 <= e <= 7 && 2 * Pow2(e) <= d < 4 * Pow2(e)
            && SmallDistSym(d) == 2 + 2 * e + (d / Pow2(e) - 2) < 18
  {
    hide Pow2;
    SmallPowers();
  }

  lemma LargeDistance(d: nat)
    requires 512 <= d < LZ_DICT_SIZE
    ensures 18 <= LargeDistSym(d / 256) < 30
    ensures RowDistExtra(LargeDistSym(d / 256)) == LargeDistExtra(d / 256)
    ensures RowDist(LargeDistSym(d / 256)) + d % Pow2(LargeDistExtra(d / 256)) == d + 1
  {
    hide Pow2;
    SmallPowers();
    var e := LargeDistExtra(d / 256);
    LargeRow(d, d / 256);
    DistanceInRow(d, Pow2(e), e, LargeDistSym(d / 256));
  }

  lemma LargeRow(d: nat, h: nat)
    requires 512 <= d < LZ_DICT_SIZE && h == d / 256
    ensures var e := LargeDistExtra(h);
            && 8 <= e <= 13 && 2 * Pow2(e) <= d < 4 * Pow2(e)
            && LargeDistSym(h) == 2 + 2 * e + (d / Pow2(e) - 2)
  {
    hide Pow2;
    SmallPowers();
    if 4 <= h < 8 {
      assert h / 2 == d / 512;
    } else if 8 <= h < 16 {
      assert h / 4 == d / 1024;
    } else if 16 <= h < 32 {
      assert h / 8 == d / 2048;
    } else if 32 <= h < 64 {
      assert h / 16 == d / 4096;
    } else if 64 <= h {
      assert h / 32 == d / 8192;
    }
  }

  // The same for every distance the dictionary allows.
  lemma DistanceRoundTrip(d: nat)
    requires d < LZ_DICT_SIZE
    ensures DistSym(d) < 30
    ensures RowDistExtra(DistSym(d)) == DistExtra(d)
    ensures RowDist(DistSym(d)) + d % Pow2(DistExtra(d)) == d + 1
  {
    hide Pow2, SmallDistSym, SmallDistExtra, LargeDistSym, LargeDistExtra;
    if d < 512 {
      SmallDistance(d);
    } else {
      LargeDistance(d);
    }
  }

  // ---------------------------------------------------------------------------------
  // Every symbol a token needs has a code.
  ghost predicate Encodable(ls: seq<nat>, ds: seq<nat>, t: Token)
  {
    match t
    case Literal(lit) => Used(ls, lit)
    case Match(len, dist) =>
      && MIN_MATCH_LEN <= len <= MAX_MATCH_LEN && 1 <= dist <= LZ_DICT_SIZE
      && Used(ls, LenSym(len - MIN_MATCH_LEN)) && Used(ds, DistSym(dist - 1))
  }

  // The bits of a token.
  ghost function TokenBits(ls: seq<nat>, ds: seq<nat>, t: Token): (b: seq<bool>)
    requires Encodable(ls, ds, t)
  {
    match t
    case Literal(lit) => Codeword(ls, lit)
    case Match(len, dist) =>
      var i, d := len - MIN_MATCH_LEN, dist - 1;
      Codeword(ls, LenSym(i)) + LsbBits(i % Pow2(LenExtra(i)), LenExtra(i))
        + (Codeword(ds, DistSym(d)) + LsbBits(d % Pow2(DistExtra(d)), DistExtra(d)))
  }
}
