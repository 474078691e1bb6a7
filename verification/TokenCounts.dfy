// Symbol counts kept while codes are recorded, and how long blocks can get
// (kernel/miniz/miniz.c:1668-1709, 1286-1292).
module TokenCounts {
  import opened Arith
  import opened Bits
  import opened Canonical
  import opened HuffTable
  import opened FastTable
  import opened Tokens
  import opened InflateMachine
  import opened BlockBits
  import opened LzCodes
  import opened BlockEncoder
  import opened BlockStart
  import opened BlockRoundTrip

  // The literal/length symbol and the distance symbol of a token.
  function LitSymbol(t: Token): nat
    requires Recordable(t)
  {
    match t
    case Literal(b) => b
    case Match(len, _) => LenSym(len - MIN_MATCH_LEN)
  }

  function DistSymbol(t: Token): nat
    requires Recordable(t) && t.Match?
  {
    DistSym(t.dist - 1)
  }

  function LitUses(ts: seq<Token>, s: nat): (r: nat)
    requires AllRecordable(ts)
    ensures r <= |ts|
  {
    if ts == [] then 0
    else LitUses(ts[..|ts| - 1], s) + (if LitSymbol(ts[|ts| - 1]) == s then 1 else 0)
  }

  function DistUses(ts: seq<Token>, s: nat): (r: nat)
    requires AllRecordable(ts)
    ensures r <= |ts|
  {
    if ts == [] then 0
    else DistUses(ts[..|ts| - 1], s) + (if ts[|ts| - 1].Match? && DistSymbol(ts[|ts| - 1]) == s then 1 else 0)
  }

  // The counters agree with the codes recorded.
  ghost predicate Tallied(lc: seq<U16>, dc: seq<U16>, ts: seq<Token>)
  {
    && AllRecordable(ts) && |lc| == 288 && |dc| == 32
    && (forall s :: 0 <= s < 288 ==> lc[s] == LitUses(ts, s))
    && (forall s :: 0 <= s < 32 ==> dc[s] == DistUses(ts, s))
    && Count(lc, 288) == |ts| && Count(dc, 32) <= |ts|
  }

  lemma TalliedNone(lc: seq<U16>, dc: seq<U16>)
    requires |lc| == 288 && |dc| == 32 && (forall s :: 0 <= s < 288 ==> lc[s] == 0) &&
             (forall s :: 0 <= s < 32 ==> dc[s] == 0)
    ensures Tallied(lc, dc, [])
  {
    hide Count;
    CountZeros(lc, 288);
    CountZeros(dc, 32);
  }

  lemma {:induction false} CountZeros(c: seq<U16>, k: nat)
    requires k <= |c| && forall i :: 0 <= i < k ==> c[i] == 0
    ensures Count(c, k) == 0
  {
    if k > 0 {
      CountZeros(c, k - 1);
    }
  }

  lemma {:induction false} CountOneMore(c: seq<U16>, s: nat, v: U16, k: nat)
    requires k <= |c| && s < |c|
    ensures Count(c[s := v], k) == Count(c, k) + (if s < k then v - c[s] else 0)
  {
    if k > 0 {
      CountOneMore(c, s, v, k - 1);
    }
  }

  lemma UsesSnoc(ts: seq<Token>, t: Token, s: nat)
    requires AllRecordable(ts) && Recordable(t)
    ensures AllRecordable(ts + [t])
    ensures LitUses(ts + [t], s) == LitUses(ts, s) + (if LitSymbol(t) == s then 1 else 0)
    ensures DistUses(ts + [t], s) == DistUses(ts, s) + (if t.Match? && DistSymbol(t) == s then 1 else 0)
  {
    hide LitSymbol, DistSymbol;
    assert (ts + [t])[..|ts|] == ts;
  }

  lemma SymbolRange(t: Token)
    requires Recordable(t)
    ensures LitSymbol(t) < 286 && (t.Match? ==> DistSymbol(t) < 30)
    ensures LitSymbol(t) != END_OF_BLOCK
  {
    if t.Match? {
      hide LenSym, DistSym;
      LengthRoundTrip(t.len - MIN_MATCH_LEN);
      DistanceRoundTrip(t.dist - 1);
    }
  }

  lemma TalliedSnoc(lc: seq<U16>, dc: seq<U16>, ts: seq<Token>, t: Token)
    requires Tallied(lc, dc, ts) && Recordable(t) && |ts| < 0xFFFF
    ensures LitSymbol(t) < 286 && lc[LitSymbol(t)] < 0xFFFF &&
            (t.Match? ==> DistSymbol(t) < 30 && dc[DistSymbol(t)] < 0xFFFF)
    ensures var lc' := lc[LitSymbol(t) := lc[LitSymbol(t)] + 1];
            var dc' := if t.Match? then dc[DistSymbol(t) := dc[DistSymbol(t)] + 1] else dc;
            Tallied(lc', dc', ts + [t])
  {
    hide Count, LitUses, DistUses, LitSymbol, DistSymbol, Recordable;
    SymbolRange(t);
    var a := LitSymbol(t);
    var lc' := lc[a := lc[a] + 1];
    CountOneMore(lc, a, lc[a] + 1, 288);
    UsesSnoc(ts, t, a);
    forall s | 0 <= s < 288
      ensures lc'[s] == LitUses(ts + [t], s)
    {
      UsesSnoc(ts, t, s);
    }
    if t.Match? {
      CountOneMore(dc, DistSymbol(t), dc[DistSymbol(t)] + 1, 32);
    }
    forall s | 0 <= s < 32
      ensures (if t.Match? then dc[DistSymbol(t) := dc[DistSymbol(t)] + 1] else dc)[s] == DistUses(ts + [t], s)
    {
      UsesSnoc(ts, t, s);
    }
  }

  lemma {:induction false} UsedAt(ts: seq<Token>, i: nat)
    requires AllRecordable(ts) && i < |ts|
    ensures LitUses(ts, LitSymbol(ts[i])) > 0 && (ts[i].Match? ==> DistUses(ts, DistSymbol(ts[i])) > 0)
    decreases |ts|
  {
    hide LitSymbol, DistSymbol;
    if i < |ts| - 1 {
      UsedAt(ts[..|ts| - 1], i);
    }
  }

  lemma {:induction false} UnusedSymbol(ts: seq<Token>, s: nat)
    requires AllRecordable(ts)
    ensures s >= 286 || s == END_OF_BLOCK ==> LitUses(ts, s) == 0
    ensures s >= 30 ==> DistUses(ts, s) == 0
    decreases |ts|
  {
    hide LitSymbol, DistSymbol;
    if ts != [] {
      SymbolRange(ts[|ts| - 1]);
      UnusedSymbol(ts[..|ts| - 1], s);
    }
  }

  // The counters are what tdefl_start_dynamic_block needs.
  lemma TalliedReady(lc: seq<U16>, dc: seq<U16>, ts: seq<Token>)
    requires Tallied(lc, dc, ts) && |ts| < 0xFFFF
    ensures |lc| == 288 && CountsReady(lc[END_OF_BLOCK := 1], dc)
  {
    hide Count, LitUses, DistUses;
    UnusedSymbol(ts, END_OF_BLOCK);
    UnusedSymbol(ts, 286);
    UnusedSymbol(ts, 287);
    UnusedSymbol(ts, 30);
    UnusedSymbol(ts, 31);
    CountOneMore(lc, END_OF_BLOCK, 1, 288);
  }

  // Tables made from the counters give every recorded code's symbols a code.
  lemma TalliedEncodes(lc: seq<U16>, dc: seq<U16>, ts: seq<Token>, ls: seq<nat>, ds: seq<nat>)
    requires Tallied(lc, dc, ts) && TableFor(lc[END_OF_BLOCK := 1], ls, MAX_CODE_SIZE) &&
             TableFor(dc, ds, MAX_CODE_SIZE)
    ensures CanEncode(ls, ds, ts)
  {
    hide Count, LitUses, DistUses, Feasible, Complete, LenSym, DistSym;
    forall i | 0 <= i < |ts|
      ensures Encodable(ls, ds, ts[i])
    {
      UsedAt(ts, i);
      SymbolRange(ts[i]);
    }
  }

  // ---------------------------------------------------------------------------------
  // With the fixed codes a block takes at most ten bits for each byte of the code buffer.

  lemma TokenLength(t: Token)
    requires Recordable(t)
    ensures Encodable(StaticLit(), StaticDist(), t)
    ensures |TokenBits(StaticLit(), StaticDist(), t)| <= 10 * |TokenBytes(t)| + 1
  {
    if t.Match? {
      hide LenSym, DistSym, Codeword, LsbBits;
      ExtraRange(t.len - MIN_MATCH_LEN, t.dist - 1);
      LengthRoundTrip(t.len - MIN_MATCH_LEN);
      DistanceRoundTrip(t.dist - 1);
    }
  }

  lemma {:induction false} BytesLength(ts: seq<Token>)
    requires AllRecordable(ts)
    ensures AllEncodable(StaticLit(), StaticDist(), ts)
    ensures |TokensBits(StaticLit(), StaticDist(), ts)| <= 10 * |Bytes(ts)| + |ts|
  {
    hide Encodable, TokenBits, TokenBytes, Recordable;
    if ts != [] {
      TokenLength(ts[0]);
      BytesLength(ts[1..]);
      assert forall i :: 1 <= i < |ts| ==> ts[i] == ts[1..][i - 1];
    }
  }

  lemma {:induction false} TokensConcat(ls: seq<nat>, ds: seq<nat>, a: seq<Token>, b: seq<Token>)
    requires AllEncodable(ls, ds, a) && AllEncodable(ls, ds, b)
    ensures AllEncodable(ls, ds, a + b) && TokensBits(ls, ds, a + b) == TokensBits(ls, ds, a) + TokensBits(ls, ds, b)
  {
    hide Encodable, TokenBits;
    if a == [] {
      assert a + b == b;
    } else {
      TokensConcat(ls, ds, a[1..], b);
      assert (a + b)[1..] == a[1..] + b;
    }
  }

  lemma {:induction false} PackedLength(ts: seq<Token>)
    requires AllRecordable(ts)
    ensures AllEncodable(StaticLit(), StaticDist(), ts)
    ensures |TokensBits(StaticLit(), StaticDist(), ts)| <= 10 * |Packed(ts)|
    decreases |ts|
  {
    hide Encodable, TokensBits, Bytes, Recordable, StaticLit, StaticDist, FlagByte;
    if ts == [] {
      NoTokens(StaticLit(), StaticDist(), ts);
      assert ts[..0] == ts;
    } else {
      var g, r := Group(ts), ts[|Group(ts)|..];
      PackedStep(ts);
      assert ts == g + r;
      BytesLength(g);
      PackedLength(r);
      TokensConcat(StaticLit(), StaticDist(), g, r);
    }
  }

  // The fallback to the fixed codes always fits the output buffer, with room to spare for
  // what a flush appends.
  lemma StaticFits(before: seq<bool>, fin: bool, ts: seq<Token>, sent: nat)
    requires AllRecordable(ts) && |Packed(ts)| <= LZ_CODE_BUF_SIZE && sent == |before| / 8
    ensures CanEncode(StaticLit(), StaticDist(), ts)
    ensures |before + StaticBlock(fin, ts)| / 8 - sent <= 81924
  {
    hide TokensBits, Packed, StaticLit, StaticDist, AllEncodable, Encodable, Codeword;
    PackedLength(ts);
    StaticEnd();
  }

  lemma StaticEnd()
    ensures Used(StaticLit(), END_OF_BLOCK) && |Codeword(StaticLit(), END_OF_BLOCK)| == 7
  {
  }
}
