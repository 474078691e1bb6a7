// A block with tables of its own always fits the output buffer, so that the fallback to the fixed
// codes is never needed (kernel/miniz/miniz.c:1286-1292).
module BlockLength {
  import opened Arith
  import opened Bits
  import opened Canonical
  import opened HuffTable
  import opened LimitCost
  import opened FastTable
  import opened CodeSizeRle
  import opened Tokens
  import opened InflateMachine
  import opened BlockBits
  import opened HeaderDecode
  import opened LzCodes
  import opened BlockEncoder
  import opened BlockStart
  import opened BlockRoundTrip
  import opened TokenCounts

  // ---------------------------------------------------------------------------------
  // Codes to compare with: nine bits for a literal, six for the rest, and five for a distance.

  function PlainLit(): (g: seq<nat>)
    ensures |g| == 288
  {
    seq(288, s => if s < 256 then 9 else 6)
  }

  function PlainDist(): (g: seq<nat>)
    ensures |g| == 32
  {
    seq(32, _ => 5)
  }

  lemma {:induction false} PlainLitSpace(counts: seq<U16>, k: nat)
    requires |counts| == 288 && counts[286] == counts[287] == 0 && k <= 288
    ensures Allowed(9, counts, PlainLit())
    ensures SpaceOf(9, counts, PlainLit(), k) <= if k <= 256 then k else 256 + 8 * (Lesser(k, 286) - 256)
  {
    SmallPowersTo14();
    if k > 0 {
      PlainLitSpace(counts, k - 1);
      assert PlainLit()[k - 1] == if k - 1 < 256 then 9 else 6;
      assert Pow2(0) == 1;
    }
  }

  function Lesser(a: nat, b: nat): nat {
    if a < b then a else b
  }

  lemma {:induction false} PlainDistSpace(counts: seq<U16>, k: nat)
    requires |counts| == 32 && k <= 32
    ensures Allowed(5, counts, PlainDist()) && SpaceOf(5, counts, PlainDist(), k) <= k
  {
    if k > 0 {
      PlainDistSpace(counts, k - 1);
      assert PlainDist()[k - 1] == 5 && Pow2(0) == 1;
    }
  }

  // ---------------------------------------------------------------------------------
  // From counters to codes recorded.

  // What the symbols of all codes take with the sizes g.
  function LitBits(ts: seq<Token>, g: seq<nat>): (r: nat)
    requires AllRecordable(ts) && |g| == 288
  {
    if ts == [] then 0
    else
      SymbolRange(ts[|ts| - 1]);
      LitBits(ts[..|ts| - 1], g) + g[LitSymbol(ts[|ts| - 1])]
  }

  function DistBits(ts: seq<Token>, g: seq<nat>): (r: nat)
    requires AllRecordable(ts) && |g| == 32
  {
    if ts == [] then 0
    else
      SymbolRange(ts[|ts| - 1]);
      DistBits(ts[..|ts| - 1], g) + (if ts[|ts| - 1].Match? then g[DistSymbol(ts[|ts| - 1])] else 0)
  }

  function Matches(ts: seq<Token>): (r: nat)
    ensures r <= |ts|
  {
    if ts == [] then 0 else Matches(ts[..|ts| - 1]) + (if ts[|ts| - 1].Match? then 1 else 0)
  }

  // One more symbol in a table.
  lemma {:induction false} CostOneMore(c: seq<U16>, d: seq<U16>, g: seq<nat>, s: nat, k: nat)
    requires |c| == |d| == |g| && s < |c| && k <= |c| && d[s] as int == c[s] as int + 1
    requires forall x :: 0 <= x < |c| && x != s ==> d[x] == c[x]
    ensures Cost(d, g, k) == Cost(c, g, k) + (if s < k then g[s] else 0)
  {
    if k > 0 {
      CostOneMore(c, d, g, s, k - 1);
      Distribute(c[k - 1], 1, g[k - 1]);
    }
  }

  lemma {:induction false} CostNone(c: seq<U16>, g: seq<nat>, k: nat)
    requires |c| == |g| && k <= |c| && forall x :: 0 <= x < |c| ==> c[x] == 0
    ensures Cost(c, g, k) == 0
  {
    if k > 0 {
      CostNone(c, g, k - 1);
    }
  }

  function LitCounts(ts: seq<Token>): (c: seq<U16>)
    requires AllRecordable(ts) && |ts| < 0x1_0000
    ensures |c| == 288 && forall s :: 0 <= s < 288 ==> c[s] == LitUses(ts, s)
  {
    seq(288, s requires 0 <= s < 288 => LitUses(ts, s))
  }

  function DistCounts(ts: seq<Token>): (c: seq<U16>)
    requires AllRecordable(ts) && |ts| < 0x1_0000
    ensures |c| == 32 && forall s :: 0 <= s < 32 ==> c[s] == DistUses(ts, s)
  {
    seq(32, s requires 0 <= s < 32 => DistUses(ts, s))
  }

  lemma {:induction false} CountedLit(ts: seq<Token>, g: seq<nat>)
    requires AllRecordable(ts) && |ts| < 0x1_0000 && |g| == 288
    ensures Cost(LitCounts(ts), g, 288) == LitBits(ts, g)
  {
    hide Cost, LitSymbol;
    if ts == [] {
      CostNone(LitCounts(ts), g, 288);
    } else {
      var r, t := ts[..|ts| - 1], ts[|ts| - 1];
      CountedLit(r, g);
      SymbolRange(t);
      CostOneMore(LitCounts(r), LitCounts(ts), g, LitSymbol(t), 288);
    }
  }

  lemma {:induction false} CountedDist(ts: seq<Token>, g: seq<nat>)
    requires AllRecordable(ts) && |ts| < 0x1_0000 && |g| == 32
    ensures Cost(DistCounts(ts), g, 32) == DistBits(ts, g)
  {
    hide Cost, DistSymbol;
    if ts == [] {
      CostNone(DistCounts(ts), g, 32);
    } else {
      var r, t := ts[..|ts| - 1], ts[|ts| - 1];
      CountedDist(r, g);
      SymbolRange(t);
      if t.Match? {
        CostOneMore(DistCounts(r), DistCounts(ts), g, DistSymbol(t), 32);
      } else {
        assert DistCounts(ts) == DistCounts(r);
      }
    }
  }

  // ---------------------------------------------------------------------------------
  // Lengths.

  lemma {:induction false} PlainLengths(ts: seq<Token>)
    requires AllRecordable(ts)
    ensures LitBits(ts, PlainLit()) == 9 * |ts| - 3 * Matches(ts) && DistBits(ts, PlainDist()) == 5 * Matches(ts)
  {
    hide LenSym, DistSym;
    if ts != [] {
      var t := ts[|ts| - 1];
      PlainLengths(ts[..|ts| - 1]);
      SymbolRange(t);
      LengthsAbove(t);
    }
  }

  lemma LengthsAbove(t: Token)
    requires Recordable(t)
    ensures t.Match? <==> LitSymbol(t) >= 256
  {
    if t.Match? {
      hide LenSym;
      LengthRoundTrip(t.len - MIN_MATCH_LEN);
    }
  }

  lemma OneTokenLength(ls: seq<nat>, ds: seq<nat>, t: Token)
    requires Recordable(t) && Encodable(ls, ds, t) && |ls| == 288 && |ds| == 32
    ensures LitSymbol(t) < 286 && (t.Match? ==> DistSymbol(t) < 30)
    ensures |TokenBits(ls, ds, t)| <= ls[LitSymbol(t)] + (if t.Match? then ds[DistSymbol(t)] + 18 else 0)
  {
    hide LenSym, DistSym, Codeword, LsbBits;
    SymbolRange(t);
    if t.Match? {
      ExtraRange(t.len - MIN_MATCH_LEN, t.dist - 1);
    }
  }

  lemma {:induction false} BodyLength(ls: seq<nat>, ds: seq<nat>, ts: seq<Token>)
    requires AllRecordable(ts) && AllEncodable(ls, ds, ts) && |ls| == 288 && |ds| == 32
    ensures |TokensBits(ls, ds, ts)| <= LitBits(ts, ls) + DistBits(ts, ds) + 18 * Matches(ts)
    decreases |ts|
  {
    hide LitSymbol, DistSymbol, TokenBits, Encodable, Recordable;
    if ts != [] {
      var r, t := ts[..|ts| - 1], ts[|ts| - 1];
      assert ts == r + [t];
      TokensSnoc(ls, ds, r, t);
      BodyLength(ls, ds, r);
      OneTokenLength(ls, ds, t);
    }
  }

  lemma {:induction false} MatchesConcat(a: seq<Token>, b: seq<Token>)
    ensures Matches(a + b) == Matches(a) + Matches(b)
  {
    if b == [] {
      assert a + b == a;
    } else {
      MatchesConcat(a, b[..|b| - 1]);
      assert (a + b)[..|a + b| - 1] == a + b[..|b| - 1];
    }
  }

  lemma {:induction false} BytesOfMatches(ts: seq<Token>)
    requires AllRecordable(ts)
    ensures |Bytes(ts)| == |ts| + 2 * Matches(ts)
    decreases |ts|
  {
    hide Matches;
    if ts == [] {
      MatchesOne([]);
    } else {
      BytesOfMatches(ts[1..]);
      assert ts == ts[..1] + ts[1..];
      MatchesConcat(ts[..1], ts[1..]);
      MatchesOne(ts[..1]);
    }
  }

  lemma MatchesOne(ts: seq<Token>)
    requires |ts| <= 1
    ensures Matches(ts) == if ts != [] && ts[0].Match? then 1 else 0
  {
    if ts != [] {
      assert ts[..0] == [];
    }
  }

  // How many codes of either kind a code buffer can hold.
  lemma {:induction false} PackedHolds(ts: seq<Token>)
    requires AllRecordable(ts)
    ensures 9 * |ts| + 16 * Matches(ts) <= 8 * |Packed(ts)|
    decreases |ts|
  {
    hide Bytes, FlagByte, Matches, Recordable;
    if ts == [] {
      MatchesOne([]);
    } else {
      var g, r := Group(ts), ts[|Group(ts)|..];
      PackedStep(ts);
      assert ts == g + r;
      MatchesConcat(g, r);
      BytesOfMatches(g);
      PackedHolds(r);
    }
  }

  lemma {:induction false} ItemsLength(cl: seq<nat>, items: seq<Item>)
    requires |cl| == 19 && AllAtMost(cl, 7) && CodesBelow(items, 19)
    ensures |ItemsBits(cl, items)| <= 14 * |items|
  {
    if items != [] {
      ItemsLength(cl, items[..|items| - 1]);
    }
  }

  lemma HeaderLength(h: Header)
    requires Understood(h)
    ensures |HeaderBits(h)| <= 4553
  {
    hide ItemsBits, ClBits, LsbBits, Expandable, Expand, Decodable, ItemsUsed, RestZero;
    ExpandGrows(h.items);
    ItemsLength(h.cl, h.items);
  }

  // ---------------------------------------------------------------------------------
  // The block.

  // The tables that the compressor makes for recorded codes.
  ghost predicate TablesFor(lc: seq<U16>, dc: seq<U16>, ls: seq<nat>, ds: seq<nat>)
  {
    |lc| == 288 && |dc| == 32 && NearOptimal(lc[END_OF_BLOCK := 1], ls) && NearOptimal(dc, ds)
  }

  lemma NearOptimalMeans(m: nat, counts: seq<U16>, sizes: seq<nat>, g: seq<nat>)
    requires NearOptimal(counts, sizes) && |g| == |counts| && Allowed(m, counts, g)
    requires SpaceOf(m, counts, g, |counts|) <= Pow2(m)
    ensures |sizes| == |counts|
    ensures 176 * Cost(counts, sizes, |counts|) <= 176 * Cost(counts, g, |counts|) + |counts| * Count(counts, |counts|)
  {
    hide Cost, SpaceOf, Allowed, Count;
    assert HardlyDearer(m, counts, sizes, g);
  }

  lemma LitCost(lc: seq<U16>, dc: seq<U16>, ts: seq<Token>, ls: seq<nat>)
    requires Tallied(lc, dc, ts) && |ts| < 0xFFFF && NearOptimal(lc[END_OF_BLOCK := 1], ls)
    ensures |ls| == 288
    ensures 176 * (LitBits(ts, ls) + ls[END_OF_BLOCK]) <= 176 * (LitBits(ts, PlainLit()) + 6) + 288 * (|ts| + 1)
  {
    hide Cost, SpaceOf, Count, LitBits, LitUses, PlainLit, NearOptimal, Allowed;
    var lc' := lc[END_OF_BLOCK := 1];
    TalliedReady(lc, dc, ts);
    UnusedSymbol(ts, END_OF_BLOCK);
    assert LitCounts(ts) == lc;
    PlainLitSpace(lc', 288);
    assert Pow2(9) == 512 by { SmallPowersTo14(); }
    NearOptimalMeans(9, lc', ls, PlainLit());
    CountOneMore(lc, END_OF_BLOCK, 1, 288);
    CostOneMore(lc, lc', ls, END_OF_BLOCK, 288);
    CostOneMore(lc, lc', PlainLit(), END_OF_BLOCK, 288);
    CountedLit(ts, ls);
    CountedLit(ts, PlainLit());
    EndPlain();
  }

  lemma EndPlain()
    ensures PlainLit()[END_OF_BLOCK] == 6
  {
  }

  lemma DistCost(lc: seq<U16>, dc: seq<U16>, ts: seq<Token>, ds: seq<nat>)
    requires Tallied(lc, dc, ts) && |ts| < 0xFFFF && NearOptimal(dc, ds)
    ensures |ds| == 32 && 176 * DistBits(ts, ds) <= 176 * DistBits(ts, PlainDist()) + 32 * |ts|
  {
    hide Cost, SpaceOf, Count, DistBits, DistUses, PlainDist, NearOptimal, Allowed;
    assert DistCounts(ts) == dc;
    PlainDistSpace(dc, 32);
    assert Pow2(5) == 32 by { SmallPowersTo14(); }
    NearOptimalMeans(5, dc, ds, PlainDist());
    CountedDist(ts, ds);
    CountedDist(ts, PlainDist());
  }

  // However the counts lie and however their codes are limited, a block with tables of its own ends
  // well before the output buffer does, with room to spare for what a flush appends.
  lemma DynamicFits(before: seq<bool>, fin: bool, h: Header, lc: seq<U16>, dc: seq<U16>, ls: seq<nat>, ds: seq<nat>,
                    ts: seq<Token>, sent: nat)
    requires Understood(h) && CanEncode(ls, ds, ts) && AllRecordable(ts) && |Packed(ts)| <= LZ_CODE_BUF_SIZE
    requires Tallied(lc, dc, ts) && |ts| < 0xFFFF && TablesFor(lc, dc, ls, ds) && sent == |before| / 8
    ensures |before + DynamicBlock(fin, h, ls, ds, ts)| / 8 - sent <= 81924
    ensures Fits(before + DynamicBlock(fin, h, ls, ds, ts), sent)
  {
    hide HeaderBits, TokensBits, Packed, Understood, NearOptimal, LitBits, DistBits, Matches, PlainLit, PlainDist,
         Tallied;
    hide AllEncodable, AllRecordable, Codeword;
    LitCost(lc, dc, ts, ls);
    DistCost(lc, dc, ts, ds);
    PlainLengths(ts);
    BodyLength(ls, ds, ts);
    PackedHolds(ts);
    HeaderLength(h);
    assert |BodyBits(ls, ds, ts)| <= LitBits(ts, ls) + DistBits(ts, ds) + 18 * Matches(ts) + ls[END_OF_BLOCK];
  }
}
