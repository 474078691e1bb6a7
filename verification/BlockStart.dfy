// Starting a block: tdefl_start_dynamic_block and tdefl_start_static_block
// (kernel/miniz/miniz.c:969-1076).
module BlockStart {
  import opened Arith
  import opened Bits
  import opened Canonical
  import opened HuffTable
  import opened LimitCost
  import opened FastTable
  import opened CodeSizeRle
  import opened Tokens
  import opened InflateMachine
  import opened InflateRun
  import opened BlockBits
  import opened HeaderDecode
  import opened TableTrim
  import opened BitWriter
  import opened BlockEncoder

  // What a dynamic header tells the decompressor.
  datatype Header = Header(l: seq<nat>, d: seq<nat>, cl: seq<nat>, n: nat, items: seq<Item>)

  ghost predicate Understood(h: Header)
  {
    HeaderOK(h.l, h.d, h.cl, h.n, h.items)
  }

  ghost function HeaderBits(h: Header): seq<bool>
    requires Understood(h)
  {
    DynamicHeader(h.l, h.d, h.cl, h.n, h.items)
  }

  // The loops that drop unused symbols at the end (source lines 980-985).
  method CountUsed(sizes: array<nat>, most: nat, least: nat) returns (n: nat)
    requires least <= most <= sizes.Length && UnusedFrom(sizes[..], most)
    ensures least <= n <= most && UnusedFrom(sizes[..], n)
  {
    n := most;
    while n > least
      invariant least <= n <= most && UnusedFrom(sizes[..], n)
    {
      if sizes[n - 1] != 0 {
        break;
      }
      n := n - 1;
    }
  }

  // Counts the token recorder leaves: symbols that cannot occur have none.
  ghost predicate CountsReady(lc: seq<U16>, dc: seq<U16>)
  {
    && |lc| == 288 && |dc| == 32
    && lc[286] == lc[287] == 0 && dc[30] == dc[31] == 0
    && Count(lc, 288) < 0x1_0000 && Count(dc, 32) < 0x1_0000
  }

  lemma UnusedEnd(counts: seq<U16>, sizes: seq<nat>, n: nat)
    requires TableFor(counts, sizes, MAX_CODE_SIZE) && n <= |counts| && forall i :: n <= i < |counts| ==> counts[i] == 0
    ensures UnusedFrom(sizes, n)
  {
    hide Feasible, Complete;
  }

  method BuildTable(t: CodeTable, n: nat, limit: nat)
    requires t.Shaped(n) && 1 <= limit <= MAX_CODE_SIZE && n <= Pow2(limit) && n <= 288 &&
             Count(t.counts[..], n) < 0x1_0000
    modifies t.sizes, t.codes
    ensures t.counts[..] == old(t.counts[..]) && t.Coded() && TableFor(t.counts[..], t.sizes[..], limit) &&
            Decodable(t.sizes[..])
    ensures limit == LIMIT ==> NearOptimal(t.counts[..], t.sizes[..])
  {
    hide NearOptimal, TableFor, CodesFor, Count, Pow2, Feasible, Decodable;
    OptimizeHuffmanTable(t.counts, t.sizes, t.codes, limit, false);
    TableDecodable(t.counts[..], t.sizes[..], limit);
    DecodableMeans(t.sizes[..]);
  }

  lemma DecodableMeans(sizes: seq<nat>)
    requires Decodable(sizes)
    ensures Feasible(MAX_CODE_SIZE, sizes) && AllAtMost(sizes, MAX_CODE_SIZE)
  {
  }

  // ---------------------------------------------------------------------------------
  // Counting the packed symbols.

  ghost function OccursBelow(items: seq<Item>, k: nat): nat {
    if k == 0 then 0 else OccursBelow(items, k - 1) + Occurrences(items, k - 1)
  }

  lemma {:induction false} OccursSnoc(items: seq<Item>, x: Item, k: nat)
    ensures OccursBelow(items + [x], k) == OccursBelow(items, k) + (if x.code < k then 1 else 0)
  {
    if k > 0 {
      OccursSnoc(items, x, k - 1);
      OccurrencesSnoc(items, x, k - 1);
    }
  }

  lemma {:induction false} OccursNone(k: nat)
    ensures OccursBelow([], k) == 0
  {
    if k > 0 {
      OccursNone(k - 1);
    }
  }

  lemma {:induction false} OccursAtMost(items: seq<Item>, k: nat)
    ensures OccursBelow(items, k) <= |items|
  {
    if items == [] {
      OccursNone(k);
    } else {
      var r, x := items[..|items| - 1], items[|items| - 1];
      assert items == r + [x];
      OccursAtMost(r, k);
      OccursSnoc(r, x, k);
    }
  }

  lemma {:induction false} CountIsOccurs(counts: seq<U16>, items: seq<Item>, k: nat)
    requires Counted(counts, items) && k <= 19
    ensures Count(counts, k) == OccursBelow(items, k)
  {
    if k > 0 {
      CountIsOccurs(counts, items, k - 1);
    }
  }

  lemma {:induction false} OccursAt(items: seq<Item>, i: nat)
    requires i < |items|
    ensures Occurrences(items, items[i].code) > 0
    decreases |items|
  {
    if i < |items| - 1 {
      OccursAt(items[..|items| - 1], i);
    }
  }

  lemma PackedUsed(counts: seq<U16>, cl: seq<nat>, items: seq<Item>)
    requires Counted(counts, items) && TableFor(counts, cl, 7) && Expandable(items)
    ensures ItemsUsed(cl, items) && CodesBelow(items, 19)
  {
    hide Feasible, Complete, Occurrences, Expand;
    forall i | 0 <= i < |items|
      ensures Used(cl, items[i].code) && items[i].code < 19
    {
      OccursAt(items, i);
      assert ValidItem(items[i]);
    }
  }

  // Packing the sizes and giving the packed symbols codes of their own (source lines 987-1031).
  method PackSizes(toPack: seq<nat>, cl: CodeTable) returns (items: seq<Item>)
    requires |toPack| <= 320 && AllAtMost(toPack, MAX_CODE_SIZE) && cl.Shaped(19)
    modifies cl.counts, cl.sizes, cl.codes
    ensures Expandable(items) && Expand(items) == toPack && cl.Coded() && ClOK(cl.sizes[..]) &&
            AllAtMost(cl.sizes[..], 7)
    ensures ItemsUsed(cl.sizes[..], items) && CodesBelow(items, 19)
  {
    hide Expandable, Expand, PackedLength, Counted, TableFor, Count, Decodable, CodesFor, Feasible, Pow2;
    items := PackCodeSizes(toPack, cl.counts);
    ItemsBounded(items);
    CountIsOccurs(cl.counts[..], items, 19);
    OccursAtMost(items, 19);
    SmallPowers();
    BuildTable(cl, 19, 7);
    PackedUsed(cl.counts[..], cl.sizes[..], items);
    TableBound(cl.counts[..], cl.sizes[..], 7);
  }

  lemma TableBound(counts: seq<U16>, sizes: seq<nat>, limit: nat)
    requires TableFor(counts, sizes, limit)
    ensures AllAtMost(sizes, limit)
  {
  }

  // ---------------------------------------------------------------------------------
  // Sending.

  // How many code-length sizes are sent (source lines 1038-1041).
  method CountBitLengths(cl: array<nat>) returns (n: nat)
    requires cl.Length == 19
    ensures 4 <= n <= 19 && RestZero(cl[..], n)
  {
    hide Dezigzag;
    var k := 18;
    while k >= 0
      invariant -1 <= k <= 18 && forall i :: k < i < 19 ==> cl[Dezigzag(i)] == 0
    {
      if cl[Dezigzag(k)] != 0 {
        break;
      }
      k := k - 1;
    }
    n := if k + 1 > 4 then k + 1 else 4;
  }

  method SendClSizes(w: BitWriter, cl: array<nat>, n: nat)
    requires w.Valid() && cl.Length == 19 && n <= 19 && AllAtMost(cl[..], 7)
    modifies w, w.buf
    ensures w.Valid() && w.sent == old(w.sent) && w.outPos >= old(w.outPos) && w.bits == old(w.bits) + ClBits(cl[..], n)
  {
    hide Pow2, LsbBits, Dezigzag;
    ghost var before, c := w.bits, cl[..];
    NoClBits(c);
    for i := 0 to n
      invariant w.Valid() && w.sent == old(w.sent) && w.outPos >= old(w.outPos) && cl[..] == c
      invariant w.bits == before + ClBits(c, i)
    {
      SmallPowers();
      MoreClBits(c, i);
      assert c[Dezigzag(i)] <= 7;
      w.PutBits(cl[Dezigzag(i)], 3);
    }
  }

  lemma NoClBits(cl: seq<nat>)
    requires |cl| == 19
    ensures ClBits(cl, 0) == []
  {
  }

  lemma MoreClBits(cl: seq<nat>, i: nat)
    requires |cl| == 19 && i < 19
    ensures ClBits(cl, i + 1) == ClBits(cl, i) + LsbBits(cl[Dezigzag(i)], 3)
  {
  }

  method SendItems(w: BitWriter, cl: CodeTable, items: seq<Item>)
    requires w.Valid() && cl.Shaped(19) && cl.Coded() && ItemsUsed(cl.sizes[..], items) && CodesBelow(items, 19) &&
             Expandable(items)
    modifies w, w.buf
    ensures w.Valid() && w.sent == old(w.sent) && w.outPos >= old(w.outPos) &&
            w.bits == old(w.bits) + ItemsBits(cl.sizes[..], items)
  {
    hide Pow2, LsbBits, Feasible, CodesFor, Codeword, Expandable, ItemBits;
    ghost var before, c := w.bits, cl.sizes[..];
    NoItems(c, items);
    for i := 0 to |items|
      invariant w.Valid() && w.sent == old(w.sent) && w.outPos >= old(w.outPos)
      invariant CodesBelow(items[..i], 19) && w.bits == before + ItemsBits(c, items[..i])
    {
      MoreItems(c, items, i);
      SendItem(w, cl, items[i]);
    }
    assert items[..|items|] == items;
  }

  method SendItem(w: BitWriter, cl: CodeTable, x: Item)
    requires w.Valid() && cl.Shaped(19) && cl.Coded() && ValidItem(x) && Used(cl.sizes[..], x.code)
    modifies w, w.buf
    ensures w.Valid() && w.sent == old(w.sent) && w.outPos >= old(w.outPos) &&
            w.bits == old(w.bits) + ItemBits(cl.sizes[..], x)
  {
    hide Feasible, CodesFor, Codeword, Pow2;
    cl.PutSymbol(w, x.code);
    if x.code >= 16 {
      w.PutBits(x.extra, ExtraBits(x.code));
    }
  }

  lemma NoItems(cl: seq<nat>, items: seq<Item>)
    requires |cl| == 19
    ensures CodesBelow(items[..0], 19) && ItemsBits(cl, items[..0]) == []
  {
  }

  lemma MoreItems(cl: seq<nat>, items: seq<Item>, i: nat)
    requires |cl| == 19 && i < |items| && CodesBelow(items, 19) && Expandable(items)
    ensures CodesBelow(items[..i], 19) && CodesBelow(items[..i + 1], 19) && ValidItem(items[i])
    ensures ItemsBits(cl, items[..i + 1]) == ItemsBits(cl, items[..i]) + ItemBits(cl, items[i])
  {
    hide ItemBits, Expand, ValidItem;
    assert items[..i + 1][..i] == items[..i];
  }

  ghost predicate Apart(a: CodeTable, b: CodeTable)
  {
    && a.counts != b.counts && a.sizes != b.sizes && a.sizes != b.codes && a.codes != b.sizes && a.codes != b.codes
  }

  // Source lines 1033-1053.
  method SendHeader(w: BitWriter, numLit: nat, numDist: nat, cl: CodeTable, items: seq<Item>) returns (ghost n: nat)
    requires w.Valid() && 257 <= numLit <= 286 && 1 <= numDist <= 30 && cl.Shaped(19) && cl.Coded()
    requires AllAtMost(cl.sizes[..], 7) && ItemsUsed(cl.sizes[..], items) && CodesBelow(items, 19) && Expandable(items)
    modifies w, w.buf
    ensures w.Valid() && w.sent == old(w.sent) && w.outPos >= old(w.outPos) && 4 <= n <= 19 && RestZero(cl.sizes[..], n)
    ensures w.bits == old(w.bits)
            + (LsbBits(2, 2) + LsbBits(numLit - 257, 5) + LsbBits(numDist - 1, 5) + LsbBits(n - 4, 4)
                                     + ClBits(cl.sizes[..], n) + ItemsBits(cl.sizes[..], items))
  {
    hide Feasible, CodesFor, LsbBits, Pow2, RestZero, ItemsUsed, Expandable, AllAtMost, ClBits, ItemsBits;
    hide BitWriter.Valid;
    SmallPowers();
    ghost var before, c := w.bits, cl.sizes[..];
    w.PutBits(2, 2);
    w.PutBits(numLit - 257, 5);
    w.PutBits(numDist - 1, 5);
    var numBitLengths := CountBitLengths(cl.sizes);
    n := numBitLengths;
    w.PutBits(numBitLengths - 4, 4);
    SendClSizes(w, cl.sizes, numBitLengths);
    SendItems(w, cl, items);
    assert w.bits == before + LsbBits(2, 2) + LsbBits(numLit - 257, 5) + LsbBits(numDist - 1, 5) + LsbBits(n - 4, 4)
        + ClBits(c, n) + ItemsBits(c, items);
  }

  lemma HeaderAssembled(l: seq<nat>, d: seq<nat>, a: nat, b: nat, cl: seq<nat>, n: nat, items: seq<Item>)
    requires |l| == 288 && |d| == 32 && 257 <= a <= 286 && 1 <= b <= 30 && UnusedFrom(l, a) && UnusedFrom(d, b)
    requires Decodable(l) && Decodable(d) && ClOK(cl) && AllAtMost(cl, 7) && 4 <= n <= 19 && RestZero(cl, n)
    requires CodesBelow(items, 19) && Expandable(items) && Expand(items) == l[..a] + d[..b] && ItemsUsed(cl, items)
    ensures Understood(Header(l[..a], d[..b], cl, n, items))
  {
    hide Decodable, Expandable, Expand, ItemsUsed, RestZero, AllAtMost;
    TrimDecodable(l, a);
    TrimDecodable(d, b);
  }

  // What a started block has set up: the tables in use, and the bits of a header that
  // describes exactly their used beginnings.
  ghost predicate Started(h: Header, ls: seq<nat>, ds: seq<nat>)
  {
    Understood(h) && UnusedFrom(ls, |h.l|) && UnusedFrom(ds, |h.d|) && h.l == ls[..|h.l|] && h.d == ds[..|h.d|]
  }

  // tdefl_start_dynamic_block
  method StartDynamicBlock(w: BitWriter, lit: CodeTable, dist: CodeTable, cl: CodeTable) returns (ghost h: Header)
    requires w.Valid() && lit.Shaped(288) && dist.Shaped(32) && cl.Shaped(19) && Apart(lit, dist) && Apart(lit, cl) &&
             Apart(dist, cl)
    requires CountsReady(lit.counts[..][END_OF_BLOCK := 1], dist.counts[..])
    modifies w, w.buf, lit.counts, lit.sizes, lit.codes, dist.sizes, dist.codes, cl.counts, cl.sizes, cl.codes
    ensures w.Valid() && w.sent == old(w.sent) && w.outPos >= old(w.outPos) && lit.Coded() && dist.Coded()
    ensures lit.counts[..] == old(lit.counts[..])[END_OF_BLOCK := 1] && dist.counts[..] == old(dist.counts[..])
    ensures TableFor(lit.counts[..], lit.sizes[..], MAX_CODE_SIZE) &&
            TableFor(dist.counts[..], dist.sizes[..], MAX_CODE_SIZE)
    ensures NearOptimal(lit.counts[..], lit.sizes[..]) && NearOptimal(dist.counts[..], dist.sizes[..])
    ensures Started(h, lit.sizes[..], dist.sizes[..]) && w.bits == old(w.bits) + HeaderBits(h)
  {
    hide TableFor, CodesFor, Count, Pow2, Feasible, Decodable, Expandable, Expand, ItemsUsed, RestZero, AllAtMost,
         ClBits, ItemsBits, LsbBits;
    hide BitWriter.Valid, Understood, NearOptimal;
    lit.counts[END_OF_BLOCK] := 1;
    ghost var lc, dc := lit.counts[..], dist.counts[..];
    EnoughRoom();
    BuildTable(lit, 288, MAX_CODE_SIZE);
    ghost var ls := lit.sizes[..];
    BuildTable(dist, 32, MAX_CODE_SIZE);
    ghost var ds := dist.sizes[..];
    UnusedEnd(lc, ls, 286);
    UnusedEnd(dc, ds, 30);
    var numLit := CountUsed(lit.sizes, 286, 257);
    var numDist := CountUsed(dist.sizes, 30, 1);
    var toPack := lit.sizes[..numLit] + dist.sizes[..numDist];
    assert lit.sizes[..numLit] == ls[..numLit] && dist.sizes[..numDist] == ds[..numDist];
    JoinedBound(lc, dc, ls, ds, numLit, numDist);
    var items := PackSizes(toPack, cl);
    assert lit.sizes[..] == ls && dist.sizes[..] == ds && lit.counts[..] == lc && dist.counts[..] == dc;
    ghost var n := SendHeader(w, numLit, numDist, cl, items);
    h := Header(ls[..numLit], ds[..numDist], cl.sizes[..], n, items);
    HeaderAssembled(ls, ds, numLit, numDist, cl.sizes[..], n, items);
    HeaderBitsMean(h);
  }

  lemma HeaderBitsMean(h: Header)
    requires Understood(h)
    ensures 257 <= |h.l| && 1 <= |h.d| && |h.cl| == 19 && 4 <= h.n <= 19 && CodesBelow(h.items, 19)
    ensures HeaderBits(h) == DynamicHeader(h.l, h.d, h.cl, h.n, h.items)
  {
    hide DynamicHeader, Decodable;
  }

  lemma EnoughRoom()
    ensures 288 <= Pow2(MAX_CODE_SIZE)
  {
    SmallPowers();
    Pow2Monotone(9, MAX_CODE_SIZE);
  }

  lemma JoinedBound(lc: seq<U16>, dc: seq<U16>, ls: seq<nat>, ds: seq<nat>, a: nat, b: nat)
    requires TableFor(lc, ls, MAX_CODE_SIZE) && TableFor(dc, ds, MAX_CODE_SIZE) && a <= |ls| && b <= |ds|
    ensures AllAtMost(ls[..a] + ds[..b], MAX_CODE_SIZE)
  {
    TableBound(lc, ls, MAX_CODE_SIZE);
    TableBound(dc, ds, MAX_CODE_SIZE);
  }

  // tdefl_start_static_block
  method StartStaticBlock(w: BitWriter, lit: CodeTable, dist: CodeTable)
    requires w.Valid() && lit.Shaped(288) && dist.Shaped(32) && Apart(lit, dist)
    modifies w, w.buf, lit.sizes, lit.codes, dist.sizes, dist.codes
    ensures w.Valid() && w.sent == old(w.sent) && w.outPos >= old(w.outPos) && lit.Coded() && dist.Coded()
    ensures lit.sizes[..] == StaticLit() && dist.sizes[..] == StaticDist() && w.bits == old(w.bits) + LsbBits(1, 2)
  {
    hide CodesFor, Pow2, Feasible, Complete, LsbBits, BitWriter.Valid, StaticLit, StaticDist, CodesOK;
    forall i | 0 <= i < 288 {
      lit.sizes[i] := if i <= 143 then 8 else if i <= 255 then 9 else if i <= 279 then 7 else 8;
    }
    forall i | 0 <= i < 32 {
      dist.sizes[i] := 5;
    }
    assert lit.sizes[..] == StaticLit() && dist.sizes[..] == StaticDist();
    StaticFeasible();
    OptimizeHuffmanTable(lit.counts, lit.sizes, lit.codes, MAX_CODE_SIZE, true);
    OptimizeHuffmanTable(dist.counts, dist.sizes, dist.codes, MAX_CODE_SIZE, true);
    SmallPowers();
    w.PutBits(1, 2);
  }

  lemma StaticFeasible()
    ensures Feasible(MAX_CODE_SIZE, StaticLit()) && Feasible(MAX_CODE_SIZE, StaticDist())
  {
    hide Bounded, Below, StaticLit, StaticDist, Pow2;
    StaticCodes();
  }
}
