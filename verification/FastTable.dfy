// The decoder's 10-bit lookup table with its overflow tree
// (kernel/miniz/miniz.c:2347-2379 and 2511-2572).
module FastTable {
  import opened Arith
  import opened Bits
  import opened Canonical
  import opened HuffTable

  const FAST_LOOKUP_BITS := 10
  const FAST_LOOKUP_SIZE := 1024
  const MAX_HUFF_SYMBOLS := 288
  const TREE_SIZE := 576
  const MAX_CODE_SIZE := 15

  // Tree node k occupies entries 2k and 2k+1 and is named by a negative number.
  function NodeName(k: nat): int {
    -1 - 2 * k
  }

  // x names the tree node that stands for the code prefix p.
  ghost predicate IsNode(P: seq<seq<bool>>, x: int, p: seq<bool>)
  {
    exists k :: 0 <= k < |P| && x == NodeName(k) && P[k] == p
  }

  // x is the entry of a symbol whose whole code lies within the 10 bits p.
  ghost predicate IsShort(sizes: seq<nat>, x: int, p: seq<bool>)
  {
    x >= 0 && Used(sizes, x % 512) && x / 512 == sizes[x % 512] <= FAST_LOOKUP_BITS && Codeword(sizes, x % 512) <= p
  }

  // p is a proper beginning of some symbol's code.
  ghost predicate IsInner(sizes: seq<nat>, p: seq<bool>)
  {
    exists u: nat :: Used(sizes, u) && |p| < sizes[u] && p <= Codeword(sizes, u)
  }

  ghost predicate LookOK(sizes: seq<nat>, L: seq<int>, P: seq<seq<bool>>)
  {
    && |L| == FAST_LOOKUP_SIZE
    && forall i :: 0 <= i < |L| ==>
         && (L[i] < 0 ==> IsNode(P, L[i], LsbBits(i, FAST_LOOKUP_BITS)))
         && (L[i] > 0 ==> IsShort(sizes, L[i], LsbBits(i, FAST_LOOKUP_BITS)))
  }

  // The prefix that tree entry e stands for.
  function EntryPrefix(P: seq<seq<bool>>, e: nat): seq<bool>
    requires e < 2 * |P|
  {
    P[e / 2] + [e % 2 == 1]
  }

  ghost predicate TreeOK(sizes: seq<nat>, T: seq<int>, P: seq<seq<bool>>)
  {
    && |T| == TREE_SIZE
    && (forall e :: 0 <= e < |T| && e < 2 * |P| ==>
          && (T[e] < 0 ==> IsNode(P, T[e], EntryPrefix(P, e)))
          && (T[e] > 0 ==> Used(sizes, T[e]) && Codeword(sizes, T[e]) == EntryPrefix(P, e)))
    && (forall e :: 2 * |P| <= e < |T| ==> T[e] == 0)
  }

  // Node k can be reached: from the lookup table, or from an earlier node.
  ghost predicate Linked(L: seq<int>, T: seq<int>, P: seq<seq<bool>>, k: nat)
    requires k < |P|
  {
    var p := P[k];
    && |p| >= FAST_LOOKUP_BITS
    && (|p| == FAST_LOOKUP_BITS ==> LsbValue(p) < |L| && L[LsbValue(p)] == NodeName(k))
    && (|p| > FAST_LOOKUP_BITS ==>
          exists q :: 0 <= q < k && P[q] == p[..|p| - 1] && 2 * q + Bit(p[|p| - 1]) < |T| &&
              T[2 * q + Bit(p[|p| - 1])] == NodeName(k))
  }

  ghost predicate NodesOK(sizes: seq<nat>, L: seq<int>, T: seq<int>, P: seq<seq<bool>>)
  {
    && (forall k :: 0 <= k < |P| ==> IsInner(sizes, P[k]) && Linked(L, T, P, k))
    && (forall k, k' :: 0 <= k < k' < |P| ==> P[k] != P[k'])
  }

  // Decoding finds symbol s wherever its code stands.
  ghost predicate Covered(sizes: seq<nat>, L: seq<int>, T: seq<int>, P: seq<seq<bool>>, s: nat)
    requires Used(sizes, s) && |L| == FAST_LOOKUP_SIZE && |T| == TREE_SIZE
  {
    var c := Codeword(sizes, s);
    && (sizes[s] <= FAST_LOOKUP_BITS ==>
          forall i :: 0 <= i < |L| && c <= LsbBits(i, FAST_LOOKUP_BITS) ==> L[i] == sizes[s] * 512 + s)
    && (sizes[s] > FAST_LOOKUP_BITS ==>
          exists k :: 0 <= k < |P| && P[k] == c[..|c| - 1] && 2 * k + Bit(c[|c| - 1]) < |T| &&
              T[2 * k + Bit(c[|c| - 1])] == s)
  }

  // The tables after the first n symbols have been entered.
  ghost predicate Table(sizes: seq<nat>, n: nat, L: seq<int>, T: seq<int>, P: seq<seq<bool>>)
  {
    && n <= |sizes| <= MAX_HUFF_SYMBOLS && Feasible(MAX_CODE_SIZE, sizes)
    && LookOK(sizes, L, P) && TreeOK(sizes, T, P) && NodesOK(sizes, L, T, P)
    && forall s :: 0 <= s < n && sizes[s] > 0 ==> Covered(sizes, L, T, P, s)
  }

  // ---------------------------------------------------------------------------------
  // Decoding one symbol.

  // The chain of nodes for the beginnings of p, from the 10-bit prefix to p itself.
  ghost predicate Chain(T: seq<int>, P: seq<seq<bool>>, p: seq<bool>, ks: seq<nat>)
  {
    && |p| >= FAST_LOOKUP_BITS && |ks| == |p| - FAST_LOOKUP_BITS + 1
    && (forall j :: 0 <= j < |ks| ==> ks[j] < |P| && P[ks[j]] == p[..FAST_LOOKUP_BITS + j])
    && (forall j :: 0 <= j < |ks| - 1 ==>
          && 2 * ks[j] + Bit(p[FAST_LOOKUP_BITS + j]) < |T|
          && T[2 * ks[j] + Bit(p[FAST_LOOKUP_BITS + j])] == NodeName(ks[j + 1]))
  }

  lemma ChainSnoc(T: seq<int>, P: seq<seq<bool>>, p: seq<bool>, k: nat, r: seq<nat>)
    requires |p| > FAST_LOOKUP_BITS && k < |P| && P[k] == p && Chain(T, P, p[..|p| - 1], r)
    requires var e := 2 * r[|r| - 1] + Bit(p[|p| - 1]); e < |T| && T[e] == NodeName(k)
    ensures Chain(T, P, p, r + [k])
  {
    var ks := r + [k];
    assert p[..|p|] == p;
    forall j | 0 <= j < |ks|
      ensures ks[j] < |P| && P[ks[j]] == p[..FAST_LOOKUP_BITS + j]
    {
      if j < |r| {
        assert p[..|p| - 1][..FAST_LOOKUP_BITS + j] == p[..FAST_LOOKUP_BITS + j];
      }
    }
    forall j | 0 <= j < |ks| - 1
      ensures 2 * ks[j] + Bit(p[FAST_LOOKUP_BITS + j]) < |T|
      ensures T[2 * ks[j] + Bit(p[FAST_LOOKUP_BITS + j])] == NodeName(ks[j + 1])
    {
      assert ks[j] == r[j];
      if j < |r| - 1 {
        assert p[..|p| - 1][FAST_LOOKUP_BITS + j] == p[FAST_LOOKUP_BITS + j];
      }
    }
  }

  lemma {:induction false} ChainTo(L: seq<int>, T: seq<int>, P: seq<seq<bool>>, k: nat) returns (ks: seq<nat>)
    requires k < |P| && forall j :: 0 <= j < |P| ==> Linked(L, T, P, j)
    ensures Chain(T, P, P[k], ks) && ks[|ks| - 1] == k
    ensures LsbValue(P[k][..FAST_LOOKUP_BITS]) < |L|
    ensures L[LsbValue(P[k][..FAST_LOOKUP_BITS])] == NodeName(ks[0])
    decreases k
  {
    hide LsbValue;
    assert Linked(L, T, P, k);
    var p := P[k];
    assert p[..|p|] == p;
    if |p| == FAST_LOOKUP_BITS {
      ks := [k];
    } else {
      var q :| 0 <= q < k && P[q] == p[..|p| - 1] && 2 * q + Bit(p[|p| - 1]) < |T| &&
          T[2 * q + Bit(p[|p| - 1])] == NodeName(k);
      var r := ChainTo(L, T, P, q);
      ChainSnoc(T, P, p, k, r);
      ks := r + [k];
      assert P[q][..FAST_LOOKUP_BITS] == p[..FAST_LOOKUP_BITS];
    }
  }

  lemma TableParts(sizes: seq<nat>, n: nat, L: seq<int>, T: seq<int>, P: seq<seq<bool>>)
    requires Table(sizes, n, L, T, P)
    ensures |L| == FAST_LOOKUP_SIZE && |T| == TREE_SIZE && n <= |sizes| <= MAX_HUFF_SYMBOLS
    ensures forall j :: 0 <= j < |P| ==> Linked(L, T, P, j)
    ensures forall s :: 0 <= s < n && sizes[s] > 0 ==> Covered(sizes, L, T, P, s)
  {
    hide Covered, Linked;
  }

  lemma CoveredLong(sizes: seq<nat>, L: seq<int>, T: seq<int>, P: seq<seq<bool>>, s: nat) returns (k: nat)
    requires |L| == FAST_LOOKUP_SIZE && |T| == TREE_SIZE
    requires Used(sizes, s) && sizes[s] > FAST_LOOKUP_BITS && Covered(sizes, L, T, P, s)
    ensures var c := Codeword(sizes, s);
            k < |P| && P[k] == c[..|c| - 1] && 2 * k + Bit(c[|c| - 1]) < |T| && T[2 * k + Bit(c[|c| - 1])] == s
  {
    var c := Codeword(sizes, s);
    k :| 0 <= k < |P| && P[k] == c[..|c| - 1] && 2 * k + Bit(c[|c| - 1]) < |T| && T[2 * k + Bit(c[|c| - 1])] == s;
  }

  // What the table promises about a symbol whose code needs the tree.
  lemma LongChain(sizes: seq<nat>, L: seq<int>, T: seq<int>, P: seq<seq<bool>>, s: nat) returns (ks: seq<nat>)
    requires Table(sizes, |sizes|, L, T, P) && Used(sizes, s) && sizes[s] > FAST_LOOKUP_BITS
    ensures |L| == FAST_LOOKUP_SIZE && |T| == TREE_SIZE
    ensures var c := Codeword(sizes, s);
            && Chain(T, P, c[..|c| - 1], ks) && |ks| == |c| - FAST_LOOKUP_BITS
            && LsbValue(c[..FAST_LOOKUP_BITS]) < |L| && L[LsbValue(c[..FAST_LOOKUP_BITS])] == NodeName(ks[0])
            && 2 * ks[|ks| - 1] + Bit(c[|c| - 1]) < |T| && T[2 * ks[|ks| - 1] + Bit(c[|c| - 1])] == s
  {
    hide Table, Linked, LsbValue, Codeword, Covered;
    var c := Codeword(sizes, s);
    TableParts(sizes, |sizes|, L, T, P);
    var k := CoveredLong(sizes, L, T, P, s);
    ks := ChainTo(L, T, P, k);
    assert c[..|c| - 1][..FAST_LOOKUP_BITS] == c[..FAST_LOOKUP_BITS];
  }

  // Following a chain one bit further.
  lemma ChainStep(T: seq<int>, P: seq<seq<bool>>, c: seq<bool>, ks: seq<nat>, j: nat)
    requires c != [] && Chain(T, P, c[..|c| - 1], ks) && j + 1 < |ks|
    ensures FAST_LOOKUP_BITS + j < |c|
    ensures var e := 2 * ks[j] + Bit(c[FAST_LOOKUP_BITS + j]); e < |T| && T[e] == NodeName(ks[j + 1])
  {
    assert c[..|c| - 1][FAST_LOOKUP_BITS + j] == c[FAST_LOOKUP_BITS + j];
  }

  lemma ShortEntry(sizes: seq<nat>, L: seq<int>, T: seq<int>, P: seq<seq<bool>>, s: nat, i: nat)
    requires Table(sizes, |sizes|, L, T, P) && Used(sizes, s) && sizes[s] <= FAST_LOOKUP_BITS
    requires i < FAST_LOOKUP_SIZE && Codeword(sizes, s) <= LsbBits(i, FAST_LOOKUP_BITS)
    ensures |L| == FAST_LOOKUP_SIZE && L[i] == sizes[s] * 512 + s && s < 512
  {
    hide Codeword, LsbBits, Table;
    TableParts(sizes, |sizes|, L, T, P);
  }

  // The bits at the low end of the buffer are the code of s.
  ghost predicate Spells(sizes: seq<nat>, bitBuf: nat, s: nat)
  {
    Used(sizes, s) && LsbBits(bitBuf, sizes[s]) == Codeword(sizes, s)
  }

  lemma SpellsPrefix(sizes: seq<nat>, bitBuf: nat, s: nat)
    requires Used(sizes, s) && sizes[s] <= MAX_CODE_SIZE
    ensures Spells(sizes, bitBuf, s) <==> Codeword(sizes, s) <= LsbBits(bitBuf, MAX_CODE_SIZE)
  {
    hide Codeword, LsbBits;
    LsbPrefix(bitBuf, MAX_CODE_SIZE, sizes[s]);
  }

  lemma SpellsUnique(sizes: seq<nat>, bitBuf: nat, s: nat, t: nat)
    requires Feasible(MAX_CODE_SIZE, sizes) && Spells(sizes, bitBuf, s) && Spells(sizes, bitBuf, t)
    ensures s == t
  {
    hide Codeword, LsbBits;
    SpellsPrefix(sizes, bitBuf, s);
    SpellsPrefix(sizes, bitBuf, t);
    UniqueDecoding(MAX_CODE_SIZE, sizes, s, t, LsbBits(bitBuf, MAX_CODE_SIZE));
  }

  // Whatever the bits are, a complete code has a symbol for them.
  lemma SpellsExists(sizes: seq<nat>, bitBuf: nat) returns (s: nat)
    requires Complete(MAX_CODE_SIZE, sizes)
    ensures Spells(sizes, bitBuf, s)
  {
    hide Codeword, LsbBits, Below, Pow2, Spells;
    AlwaysDecodes(MAX_CODE_SIZE, sizes);
    assert |LsbBits(bitBuf, MAX_CODE_SIZE)| == MAX_CODE_SIZE;
    s :| Used(sizes, s) && Codeword(sizes, s) <= LsbBits(bitBuf, MAX_CODE_SIZE);
    SpellsPrefix(sizes, bitBuf, s);
  }

  // How the source reads a code: a lookup on the low 10 bits, then one tree step per
  // further bit (source lines 2365-2374).  With a complete table there is always one.
  method DecodeSymbol(sizes: seq<nat>, lookUp: array<int>, tree: array<int>, bitBuf: nat, ghost P: seq<seq<bool>>)
    returns (sym: nat, codeLen: nat)
    requires Table(sizes, |sizes|, lookUp[..], tree[..], P) && lookUp.Length == FAST_LOOKUP_SIZE &&
             tree.Length == TREE_SIZE
    requires Feasible(MAX_CODE_SIZE, sizes)
    requires Complete(MAX_CODE_SIZE, sizes) || exists s: nat :: Spells(sizes, bitBuf, s)
    ensures Spells(sizes, bitBuf, sym) && codeLen == sizes[sym]
    ensures forall s: nat :: Spells(sizes, bitBuf, s) ==> s == sym
  {
    hide Table, Codeword, LsbBits, LsbValue, Pow2, Chain, Feasible, Complete;
    ghost var s: nat;
    if s': nat :| Spells(sizes, bitBuf, s') {
      s := s';
    } else {
      s := SpellsExists(sizes, bitBuf);
    }
    forall t: nat | Spells(sizes, bitBuf, t)
      ensures t == s
    {
      SpellsUnique(sizes, bitBuf, s, t);
    }
    ghost var c := Codeword(sizes, s);
    LowBits(bitBuf, sizes[s]);
    var temp := lookUp[bitBuf % FAST_LOOKUP_SIZE];
    ghost var ks: seq<nat> := [0];
    if sizes[s] <= FAST_LOOKUP_BITS {
      ShortEntry(sizes, lookUp[..], tree[..], P, s, bitBuf % FAST_LOOKUP_SIZE);
    } else {
      ks := LongChain(sizes, lookUp[..], tree[..], P, s);
    }
    if temp >= 0 {
      return temp % 512, temp / 512;
    }
    codeLen := FAST_LOOKUP_BITS;
    ghost var j := 0;
    while true
      invariant 0 <= j < |ks| && codeLen == FAST_LOOKUP_BITS + j && temp == NodeName(ks[j])
      decreases |ks| - j
    {
      LsbAt(bitBuf, sizes[s], codeLen);
      assert bitBuf / Pow2(codeLen) % 2 == Bit(c[codeLen]);
      if j + 1 < |ks| {
        ChainStep(tree[..], P, c, ks, j);
      }
      temp := tree[-temp - 1 + bitBuf / Pow2(codeLen) % 2];
      codeLen := codeLen + 1;
      if temp >= 0 {
        break;
      }
      j := j + 1;
    }
    sym := temp;
  }
  lemma LowBits(v: nat, size: nat)
    ensures size <= FAST_LOOKUP_BITS ==> LsbBits(v, size) <= LsbBits(v % FAST_LOOKUP_SIZE, FAST_LOOKUP_BITS)
    ensures size > FAST_LOOKUP_BITS ==> LsbValue(LsbBits(v, size)[..FAST_LOOKUP_BITS]) == v % FAST_LOOKUP_SIZE
  {
    assert Pow2(FAST_LOOKUP_BITS) == FAST_LOOKUP_SIZE;
    LsbMod(v, FAST_LOOKUP_BITS);
    if size <= FAST_LOOKUP_BITS {
      LsbPrefix(v, FAST_LOOKUP_BITS, size);
    } else {
      LsbPrefix(v, size, FAST_LOOKUP_BITS);
    }
  }

  // ---------------------------------------------------------------------------------
  // How many tree nodes a code can need.

  // The tables tinfl accepts: complete codes, and codes of at most one symbol.
  ghost predicate Decodable(sizes: seq<nat>)
  {
    && |sizes| <= MAX_HUFF_SYMBOLS && Feasible(MAX_CODE_SIZE, sizes)
    && (Complete(MAX_CODE_SIZE, sizes) || forall u: nat, v: nat :: Used(sizes, u) && Used(sizes, v) ==> u == v)
  }

  // Codes of size up to d, counted as prefixes of length d.
  function Spent(sizes: seq<nat>, d: nat): (r: nat) {
    if d == 0 then 0 else First(sizes, d) + Num(sizes, d, |sizes|)
  }

  // Prefixes of length d that are proper beginnings of codes.
  function Inner(sizes: seq<nat>, d: nat): int {
    Pow2(d) - Spent(sizes, d)
  }

  function InnerTo(sizes: seq<nat>, d: nat): int {
    if d == 0 then 0 else InnerTo(sizes, d - 1) + Inner(sizes, d - 1)
  }

  function NumTo(sizes: seq<nat>, d: nat): (r: nat) {
    if d == 0 then 0 else NumTo(sizes, d - 1) + Num(sizes, d, |sizes|)
  }

  lemma InnerStep(sizes: seq<nat>, d: nat)
    ensures Inner(sizes, d + 1) == 2 * Inner(sizes, d) - Num(sizes, d + 1, |sizes|)
  {
  }

  lemma {:induction false} InnerTotal(sizes: seq<nat>, d: nat)
    ensures InnerTo(sizes, d) == NumTo(sizes, d) + Inner(sizes, d) - 1
  {
    if d > 0 {
      InnerTotal(sizes, d - 1);
      InnerStep(sizes, d - 1);
    }
  }

  lemma {:induction false} SpentScaled(m: nat, sizes: seq<nat>, d: nat)
    requires Bounded(m, sizes) && d <= m
    ensures Spent(sizes, d) * Pow2(m - d) == Below(m, sizes, d + 1, |sizes|)
  {
    if d == 0 {
      BelowOne(m, sizes, |sizes|);
    } else {
      FirstScaled(m, sizes, d);
      BelowNext(m, sizes, d, |sizes|);
      Distribute(First(sizes, d), Num(sizes, d, |sizes|), Pow2(m - d));
    }
  }

  lemma InnerNonNegative(m: nat, sizes: seq<nat>, d: nat)
    requires Feasible(m, sizes) && d <= m
    ensures 0 <= Inner(sizes, d)
    ensures Complete(m, sizes) && d == m ==> Inner(sizes, d) == 0
  {
    hide Below, Spent;
    SpentScaled(m, sizes, d);
    BelowMonotone(m, sizes, d + 1, m + 1, |sizes|);
    Pow2Add(d, m - d);
    if Spent(sizes, d) > Pow2(d) {
      RankRoom(Pow2(d), Spent(sizes, d), Pow2(m - d));
    }
    assert Pow2(0) == 1;
  }

  function CountUpTo(sizes: seq<nat>, d: nat, k: nat): (r: nat)
    requires k <= |sizes|
    ensures r <= k
  {
    if k == 0 then 0 else CountUpTo(sizes, d, k - 1) + (if 0 < sizes[k - 1] <= d then 1 else 0)
  }

  lemma {:induction false} CountUpToStep(sizes: seq<nat>, d: nat, k: nat)
    requires k <= |sizes| && d > 0
    ensures CountUpTo(sizes, d, k) == CountUpTo(sizes, d - 1, k) + Num(sizes, d, k)
  {
    if k > 0 {
      CountUpToStep(sizes, d, k - 1);
    }
  }

  lemma {:induction false} CountUpToZero(sizes: seq<nat>, k: nat)
    requires k <= |sizes|
    ensures CountUpTo(sizes, 0, k) == 0
  {
    if k > 0 {
      CountUpToZero(sizes, k - 1);
    }
  }

  lemma {:induction false} NumToAtMost(sizes: seq<nat>, d: nat)
    ensures NumTo(sizes, d) == CountUpTo(sizes, d, |sizes|) <= |sizes|
  {
    if d == 0 {
      CountUpToZero(sizes, |sizes|);
    } else {
      NumToAtMost(sizes, d - 1);
      CountUpToStep(sizes, d, |sizes|);
    }
  }

  lemma {:induction false} InnerToMonotone(sizes: seq<nat>, j: nat, k: nat)
    requires Feasible(MAX_CODE_SIZE, sizes) && j <= k <= MAX_CODE_SIZE + 1
    ensures InnerTo(sizes, j) <= InnerTo(sizes, k)
    ensures j < k ==> InnerTo(sizes, j + 1) <= InnerTo(sizes, k)
    ensures 0 <= InnerTo(sizes, j)
    decreases k
  {
    hide Inner, Feasible;
    if j < k {
      InnerToMonotone(sizes, j, k - 1);
      InnerNonNegative(MAX_CODE_SIZE, sizes, k - 1);
    } else if k > 0 {
      InnerToMonotone(sizes, j - 1, k - 1);
      InnerNonNegative(MAX_CODE_SIZE, sizes, k - 1);
    }
  }

  // Longer codes start after all prefixes that shorter ones have used up.
  lemma {:induction false} FirstDominates(sizes: seq<nat>, d: nat, l: nat)
    requires d < l
    ensures Spent(sizes, d) * Pow2(l - d) <= First(sizes, l)
    decreases l
  {
    if l == d + 1 {
      assert Pow2(1) == 2;
    } else {
      FirstDominates(sizes, d, l - 1);
      DoubleProduct(Spent(sizes, d), Pow2(l - 1 - d));
    }
  }

  lemma InnerValue(sizes: seq<nat>, p: seq<bool>)
    requires Feasible(MAX_CODE_SIZE, sizes) && IsInner(sizes, p)
    ensures |p| < MAX_CODE_SIZE && Spent(sizes, |p|) <= MsbValue(p) < Pow2(|p|)
  {
    hide Pow2, MsbBits, MsbValue, Spent, First;
    var u: nat :| Used(sizes, u) && |p| < sizes[u] && p <= Codeword(sizes, u);
    CodeFits(MAX_CODE_SIZE, sizes, u);
    FirstDominates(sizes, |p|, sizes[u]);
    CodeAtLeastFirst(sizes, u);
    assert p == Codeword(sizes, u)[..|p|];
    TopValue(Code(sizes, u), sizes[u], |p|, Spent(sizes, |p|));
  }

  lemma CodeAtLeastFirst(sizes: seq<nat>, u: nat)
    requires Used(sizes, u)
    ensures First(sizes, sizes[u]) <= Code(sizes, u)
    ensures Codeword(sizes, u) == MsbBits(Code(sizes, u), sizes[u])
  {
  }

  lemma TopValue(c: nat, l: nat, d: nat, q: nat)
    requires d < l && c < Pow2(l) && q * Pow2(l - d) <= c
    ensures q <= MsbValue(MsbBits(c, l)[..d]) < Pow2(d)
  {
    hide Pow2, MsbBits, MsbValue;
    MsbPrefix(c, l, d);
    Pow2Add(d, l - d);
    QuotientBelow(c, Pow2(l - d), Pow2(d));
    MsbValueOfBits(c / Pow2(l - d), d);
    QuotientAbove(c, Pow2(l - d), q);
  }

  // A number below the total count of inner prefixes that identifies p.
  function Rank(sizes: seq<nat>, p: seq<bool>): int {
    InnerTo(sizes, |p|) + MsbValue(p) - Spent(sizes, |p|)
  }

  lemma RankRange(sizes: seq<nat>, p: seq<bool>)
    requires Feasible(MAX_CODE_SIZE, sizes) && IsInner(sizes, p)
    ensures |p| < MAX_CODE_SIZE
    ensures 0 <= InnerTo(sizes, |p|) <= Rank(sizes, p) < InnerTo(sizes, |p| + 1)
  {
    hide MsbValue, Spent, Feasible;
    InnerValue(sizes, p);
    InnerToMonotone(sizes, |p|, |p|);
  }

  lemma RankInjective(sizes: seq<nat>, p: seq<bool>, q: seq<bool>)
    requires Feasible(MAX_CODE_SIZE, sizes) && IsInner(sizes, p) && IsInner(sizes, q)
    requires Rank(sizes, p) == Rank(sizes, q)
    ensures p == q
  {
    hide MsbValue, Feasible, InnerTo, Spent, MsbBits;
    RankRange(sizes, p);
    RankRange(sizes, q);
    if |p| < |q| {
      InnerToMonotone(sizes, |p|, |q|);
    } else if |q| < |p| {
      InnerToMonotone(sizes, |q|, |p|);
    }
    MsbBitsOfValue(p);
    MsbBitsOfValue(q);
  }

  // Distinct numbers below b: there are at most b of them.
  lemma {:induction false} Pigeonhole(r: seq<int>, b: nat)
    requires forall i :: 0 <= i < |r| ==> 0 <= r[i] < b
    requires forall i, j :: 0 <= i < j < |r| ==> r[i] != r[j]
    ensures |r| <= b
    decreases b
  {
    if r != [] {
      assert 0 <= r[0] < b;
      if i :| 0 <= i < |r| && r[i] == b - 1 {
        Pigeonhole(r[..i] + r[i + 1..], b - 1);
      } else {
        Pigeonhole(r, b - 1);
      }
    }
  }

  // The tree array is large enough for any acceptable code.
  lemma Capacity(sizes: seq<nat>, P: seq<seq<bool>>)
    requires Decodable(sizes)
    requires forall k :: 0 <= k < |P| ==> IsInner(sizes, P[k])
    requires forall k, k' :: 0 <= k < k' < |P| ==> P[k] != P[k']
    ensures 2 * |P| <= TREE_SIZE
  {
    hide Feasible, Rank, IsInner, Inner;
    if Complete(MAX_CODE_SIZE, sizes) {
      var r := seq(|P|, i requires 0 <= i < |P| => Rank(sizes, P[i]));
      InnerTotal(sizes, MAX_CODE_SIZE);
      NumToAtMost(sizes, MAX_CODE_SIZE);
      InnerNonNegative(MAX_CODE_SIZE, sizes, MAX_CODE_SIZE);
      InnerToMonotone(sizes, 0, MAX_CODE_SIZE);
      forall i | 0 <= i < |r|
        ensures 0 <= r[i] < InnerTo(sizes, MAX_CODE_SIZE)
      {
        RankRange(sizes, P[i]);
        InnerToMonotone(sizes, |P[i]| + 1, MAX_CODE_SIZE);
      }
      forall i, j | 0 <= i < j < |r|
        ensures r[i] != r[j]
      {
        if r[i] == r[j] {
          RankInjective(sizes, P[i], P[j]);
        }
      }
      Pigeonhole(r, InnerTo(sizes, MAX_CODE_SIZE));
    } else {
      SingleCapacity(sizes, P);
    }
  }

  lemma SingleCapacity(sizes: seq<nat>, P: seq<seq<bool>>)
    requires Feasible(MAX_CODE_SIZE, sizes)
    requires forall u: nat, v: nat :: Used(sizes, u) && Used(sizes, v) ==> u == v
    requires forall k :: 0 <= k < |P| ==> IsInner(sizes, P[k])
    requires forall k, k' :: 0 <= k < k' < |P| ==> P[k] != P[k']
    ensures |P| <= MAX_CODE_SIZE
  {
    hide Codeword;
    var r := seq(|P|, i requires 0 <= i < |P| => |P[i]|);
    forall i | 0 <= i < |r|
      ensures 0 <= r[i] < MAX_CODE_SIZE
    {
      assert IsInner(sizes, P[i]);
    }
    forall i, j | 0 <= i < j < |r|
      ensures r[i] != r[j]
    {
      var u: nat :| Used(sizes, u) && |P[i]| < sizes[u] && P[i] <= Codeword(sizes, u);
      var v: nat :| Used(sizes, v) && |P[j]| < sizes[v] && P[j] <= Codeword(sizes, v);
      assert u == v;
    }
    Pigeonhole(r, MAX_CODE_SIZE);
  }

  // ---------------------------------------------------------------------------------
  // Entering symbols.  Each lemma is one write to a table.

  // The tables while symbol n is being entered: symbols before n can all be decoded.
  ghost predicate Partial(sizes: seq<nat>, n: nat, L: seq<int>, T: seq<int>, P: seq<seq<bool>>)
  {
    && n <= |sizes| && Decodable(sizes) && 2 * |P| <= TREE_SIZE
    && LookOK(sizes, L, P) && TreeOK(sizes, T, P) && NodesOK(sizes, L, T, P)
    && forall s :: 0 <= s < n && sizes[s] > 0 ==> Covered(sizes, L, T, P, s)
  }

  lemma PartialParts(sizes: seq<nat>, n: nat, L: seq<int>, T: seq<int>, P: seq<seq<bool>>)
    requires Partial(sizes, n, L, T, P)
    ensures n <= |sizes| && Decodable(sizes) && Feasible(MAX_CODE_SIZE, sizes) && |L| == FAST_LOOKUP_SIZE &&
            |T| == TREE_SIZE
    ensures 2 * |P| <= TREE_SIZE
    ensures LookOK(sizes, L, P) && TreeOK(sizes, T, P) && NodesOK(sizes, L, T, P)
    ensures forall s :: 0 <= s < n && sizes[s] > 0 ==> Covered(sizes, L, T, P, s)
  {
    hide Covered, NodesOK;
  }

  // A prefix that already holds a whole code is not a proper beginning of another one.
  lemma NotInner(sizes: seq<nat>, s: nat, p: seq<bool>)
    requires Feasible(MAX_CODE_SIZE, sizes) && Used(sizes, s) && Codeword(sizes, s) <= p
    ensures !IsInner(sizes, p)
  {
    hide Codeword, Feasible;
    if IsInner(sizes, p) {
      var u: nat :| Used(sizes, u) && |p| < sizes[u] && p <= Codeword(sizes, u);
      PrefixFree(MAX_CODE_SIZE, sizes, s, u);
    }
  }

  lemma LsbOf10(p: seq<bool>)
    requires |p| == FAST_LOOKUP_BITS
    ensures LsbValue(p) < FAST_LOOKUP_SIZE && LsbBits(LsbValue(p), FAST_LOOKUP_BITS) == p
  {
    LsbBitsOfValue(p);
    assert Pow2(FAST_LOOKUP_BITS) == FAST_LOOKUP_SIZE;
  }

  // A lookup entry on which the code of s falls is still free.
  lemma FillNodes(sizes: seq<nat>, L: seq<int>, T: seq<int>, P: seq<seq<bool>>, s: nat, i: nat, x: int)
    requires Feasible(MAX_CODE_SIZE, sizes) && |L| == FAST_LOOKUP_SIZE && NodesOK(sizes, L, T, P)
    requires Used(sizes, s) && i < |L| && Codeword(sizes, s) <= LsbBits(i, FAST_LOOKUP_BITS)
    ensures NodesOK(sizes, L[i := x], T, P)
  {
    hide Codeword, LsbBits, LsbValue, IsInner, Feasible;
    var L' := L[i := x];
    forall k | 0 <= k < |P|
      ensures Linked(L', T, P, k)
    {
      assert Linked(L, T, P, k) && IsInner(sizes, P[k]);
      if |P[k]| == FAST_LOOKUP_BITS && LsbValue(P[k]) == i {
        LsbOf10(P[k]);
        NotInner(sizes, s, P[k]);
      }
    }
  }

  lemma FillCovered(sizes: seq<nat>, L: seq<int>, T: seq<int>, P: seq<seq<bool>>, s: nat, i: nat, x: int, t: nat)
    requires Feasible(MAX_CODE_SIZE, sizes) && |L| == FAST_LOOKUP_SIZE && |T| == TREE_SIZE
    requires Used(sizes, s) && i < |L| && Codeword(sizes, s) <= LsbBits(i, FAST_LOOKUP_BITS)
    requires Used(sizes, t) && t != s && Covered(sizes, L, T, P, t)
    ensures Covered(sizes, L[i := x], T, P, t)
  {
    hide Codeword, LsbBits, Feasible;
    if Codeword(sizes, t) <= LsbBits(i, FAST_LOOKUP_BITS) {
      UniqueDecoding(MAX_CODE_SIZE, sizes, s, t, LsbBits(i, FAST_LOOKUP_BITS));
    }
  }

  lemma FillEntry(sizes: seq<nat>, n: nat, L: seq<int>, T: seq<int>, P: seq<seq<bool>>, i: nat)
    requires Partial(sizes, n, L, T, P) && Used(sizes, n) && sizes[n] <= FAST_LOOKUP_BITS
    requires i < FAST_LOOKUP_SIZE && Codeword(sizes, n) <= LsbBits(i, FAST_LOOKUP_BITS)
    ensures |L| == FAST_LOOKUP_SIZE && Partial(sizes, n, L[i := sizes[n] * 512 + n], T, P)
  {
    hide Codeword, LsbBits, Decodable, Feasible, Covered, NodesOK, TreeOK, IsNode;
    PartialParts(sizes, n, L, T, P);
    var x := sizes[n] * 512 + n;
    DecodableSize(sizes);
    assert x % 512 == n && x / 512 == sizes[n];
    FillNodes(sizes, L, T, P, n, i, x);
    forall t | 0 <= t < n && sizes[t] > 0
      ensures Covered(sizes, L[i := x], T, P, t)
    {
      FillCovered(sizes, L, T, P, n, i, x, t);
    }
  }

  lemma DecodableSize(sizes: seq<nat>)
    requires Decodable(sizes)
    ensures |sizes| <= MAX_HUFF_SYMBOLS
  {
  }

  lemma IsNodeSnoc(P: seq<seq<bool>>, q: seq<bool>, x: int, p: seq<bool>)
    requires IsNode(P, x, p)
    ensures IsNode(P + [q], x, p)
  {
    var k :| 0 <= k < |P| && x == NodeName(k) && P[k] == p;
    assert (P + [q])[k] == p;
  }

  lemma NewIsNode(P: seq<seq<bool>>, q: seq<bool>)
    ensures IsNode(P + [q], NodeName(|P|), q)
  {
    assert (P + [q])[|P|] == q;
  }

  lemma LookSnoc(sizes: seq<nat>, L: seq<int>, P: seq<seq<bool>>, q: seq<bool>)
    requires LookOK(sizes, L, P)
    ensures LookOK(sizes, L, P + [q])
  {
    hide IsNode, IsShort;
    forall i | 0 <= i < |L| && L[i] < 0
      ensures IsNode(P + [q], L[i], LsbBits(i, FAST_LOOKUP_BITS))
    {
      IsNodeSnoc(P, q, L[i], LsbBits(i, FAST_LOOKUP_BITS));
    }
  }

  lemma TreeSnoc(sizes: seq<nat>, T: seq<int>, P: seq<seq<bool>>, q: seq<bool>)
    requires TreeOK(sizes, T, P)
    ensures TreeOK(sizes, T, P + [q])
  {
    hide IsNode, Codeword;
    forall e | 0 <= e < |T| && e < 2 * |P + [q]|
      ensures T[e] < 0 ==> IsNode(P + [q], T[e], EntryPrefix(P + [q], e))
      ensures T[e] > 0 ==> Used(sizes, T[e]) && Codeword(sizes, T[e]) == EntryPrefix(P + [q], e)
    {
      if e < 2 * |P| && T[e] < 0 {
        IsNodeSnoc(P, q, T[e], EntryPrefix(P, e));
      }
    }
  }

  lemma CoveredSnoc(sizes: seq<nat>, L: seq<int>, T: seq<int>, P: seq<seq<bool>>, q: seq<bool>, t: nat)
    requires |L| == FAST_LOOKUP_SIZE && |T| == TREE_SIZE && Used(sizes, t) && Covered(sizes, L, T, P, t)
    ensures Covered(sizes, L, T, P + [q], t)
  {
    hide Codeword, LsbBits;
    var c := Codeword(sizes, t);
    if sizes[t] > FAST_LOOKUP_BITS {
      var k :| 0 <= k < |P| && P[k] == c[..|c| - 1] && 2 * k + Bit(c[|c| - 1]) < |T| && T[2 * k + Bit(c[|c| - 1])] == t;
      assert (P + [q])[k] == P[k];
    }
  }

  lemma LinkedSnoc(L: seq<int>, T: seq<int>, P: seq<seq<bool>>, q: seq<bool>, k: nat)
    requires k < |P| && Linked(L, T, P, k)
    ensures Linked(L, T, P + [q], k)
  {
    var P' := P + [q];
    assert P'[k] == P[k];
    var p := P[k];
    if |p| > FAST_LOOKUP_BITS {
      var j :| 0 <= j < k && P[j] == p[..|p| - 1] && 2 * j + Bit(p[|p| - 1]) < |T| &&
          T[2 * j + Bit(p[|p| - 1])] == NodeName(k);
      assert P'[j] == P[j];
    }
  }

  // The lookup entry of a long code's first ten bits is still free: start a tree there.
  lemma RootEntry(sizes: seq<nat>, n: nat, L: seq<int>, T: seq<int>, P: seq<seq<bool>>, q: seq<bool>)
    requires Partial(sizes, n, L, T, P) && |q| == FAST_LOOKUP_BITS && IsInner(sizes, q)
    requires LsbValue(q) < |L| && L[LsbValue(q)] == 0
    ensures Partial(sizes, n, L[LsbValue(q) := NodeName(|P|)], T, P + [q])
  {
    hide Codeword, LsbBits, LsbValue, Decodable, Feasible, IsInner, IsNode, IsShort, Covered, NodesOK, TreeOK, LookOK;
    PartialParts(sizes, n, L, T, P);
    var i, x, P' := LsbValue(q), NodeName(|P|), P + [q];
    RootLook(sizes, L, P, q);
    TreeSnoc(sizes, T, P, q);
    RootNodes(sizes, L, T, P, q);
    forall t | 0 <= t < n && sizes[t] > 0
      ensures Covered(sizes, L[i := x], T, P', t)
    {
      RootCovered(sizes, L, T, P, q, t);
    }
    NodesCapacity(sizes, L[i := x], T, P');
  }

  lemma RootLook(sizes: seq<nat>, L: seq<int>, P: seq<seq<bool>>, q: seq<bool>)
    requires LookOK(sizes, L, P) && |q| == FAST_LOOKUP_BITS && LsbValue(q) < |L|
    ensures LookOK(sizes, L[LsbValue(q) := NodeName(|P|)], P + [q])
  {
    hide IsNode, IsShort, LsbBits, LsbValue;
    LookSnoc(sizes, L, P, q);
    NewIsNode(P, q);
    LsbOf10(q);
  }

  lemma RootCovered(sizes: seq<nat>, L: seq<int>, T: seq<int>, P: seq<seq<bool>>, q: seq<bool>, t: nat)
    requires |L| == FAST_LOOKUP_SIZE && |T| == TREE_SIZE && Used(sizes, t) && Covered(sizes, L, T, P, t)
    requires LsbValue(q) < |L| && L[LsbValue(q)] == 0
    ensures Covered(sizes, L[LsbValue(q) := NodeName(|P|)], T, P + [q], t)
  {
    hide Codeword, LsbBits, LsbValue;
    CoveredSnoc(sizes, L, T, P, q, t);
  }

  lemma RootNodes(sizes: seq<nat>, L: seq<int>, T: seq<int>, P: seq<seq<bool>>, q: seq<bool>)
    requires NodesOK(sizes, L, T, P) && |q| == FAST_LOOKUP_BITS && IsInner(sizes, q)
    requires LsbValue(q) < |L| && L[LsbValue(q)] == 0
    ensures NodesOK(sizes, L[LsbValue(q) := NodeName(|P|)], T, P + [q])
  {
    hide LsbValue, IsInner;
    var i := LsbValue(q);
    var L', P' := L[i := NodeName(|P|)], P + [q];
    forall k | 0 <= k < |P'|
      ensures Linked(L', T, P', k) && IsInner(sizes, P'[k])
      ensures k < |P| ==> P'[k] != q
    {
      if k < |P| {
        assert Linked(L, T, P, k) && IsInner(sizes, P[k]);
        LinkedSnoc(L, T, P, q, k);
        RootKeeps(L, T, P', k, i, NodeName(|P|));
      }
    }
  }

  lemma RootKeeps(L: seq<int>, T: seq<int>, P: seq<seq<bool>>, k: nat, i: nat, x: int)
    requires k < |P| && i < |L| && Linked(L, T, P, k) && L[i] == 0
    ensures Linked(L[i := x], T, P, k)
    ensures |P[k]| == FAST_LOOKUP_BITS ==> LsbValue(P[k]) != i
  {
  }

  lemma NodesCapacity(sizes: seq<nat>, L: seq<int>, T: seq<int>, P: seq<seq<bool>>)
    requires Decodable(sizes) && NodesOK(sizes, L, T, P)
    ensures 2 * |P| <= TREE_SIZE
  {
    hide Linked, IsInner, Decodable;
    Capacity(sizes, P);
  }

  lemma SplitLast(p: seq<bool>, r: seq<bool>, b: bool)
    requires p != [] && r == p[..|p| - 1] && b == p[|p| - 1]
    ensures p == r + [b]
  {
  }

  // A free tree entry under node k gets a new node.
  lemma InnerEntry(sizes: seq<nat>, n: nat, L: seq<int>, T: seq<int>, P: seq<seq<bool>>, k: nat, b: bool)
    requires Partial(sizes, n, L, T, P) && k < |P| && |P[k]| >= FAST_LOOKUP_BITS && IsInner(sizes, P[k] + [b])
    requires 2 * k + Bit(b) < |T| && T[2 * k + Bit(b)] == 0
    ensures Partial(sizes, n, L, T[2 * k + Bit(b) := NodeName(|P|)], P + [P[k] + [b]])
  {
    hide Codeword, LsbBits, LsbValue, Decodable, Feasible, IsInner, IsNode, IsShort, Covered, NodesOK, TreeOK, LookOK;
    PartialParts(sizes, n, L, T, P);
    var q, e := P[k] + [b], 2 * k + Bit(b);
    var T', P' := T[e := NodeName(|P|)], P + [q];
    LookSnoc(sizes, L, P, q);
    InnerTree(sizes, T, P, k, b);
    InnerNodes(sizes, L, T, P, k, b);
    forall t | 0 <= t < n && sizes[t] > 0
      ensures Covered(sizes, L, T', P', t)
    {
      CoveredSnoc(sizes, L, T, P, q, t);
      if Codeword(sizes, t) == q {
        NotInner(sizes, t, q);
      }
      OtherCovered(sizes, L, T, P', k, b, NodeName(|P|), t);
    }
    NodesCapacity(sizes, L, T', P');
  }

  // Symbols whose code does not end at tree entry e do not notice a write to it.
  lemma OtherCovered(sizes: seq<nat>, L: seq<int>, T: seq<int>, P: seq<seq<bool>>, k: nat, b: bool, x: int, t: nat)
    requires |L| == FAST_LOOKUP_SIZE && |T| == TREE_SIZE && Used(sizes, t) && Covered(sizes, L, T, P, t)
    requires k < |P| && 2 * k + Bit(b) < |T| && Codeword(sizes, t) != P[k] + [b]
    ensures Covered(sizes, L, T[2 * k + Bit(b) := x], P, t)
  {
    hide Codeword, LsbBits;
    var c := Codeword(sizes, t);
    if sizes[t] > FAST_LOOKUP_BITS {
      var j :| 0 <= j < |P| && P[j] == c[..|c| - 1] && 2 * j + Bit(c[|c| - 1]) < |T| && T[2 * j + Bit(c[|c| - 1])] == t;
      if 2 * j + Bit(c[|c| - 1]) == 2 * k + Bit(b) {
        SplitLast(c, P[k], b);
      }
    }
  }

  lemma InnerTree(sizes: seq<nat>, T: seq<int>, P: seq<seq<bool>>, k: nat, b: bool)
    requires TreeOK(sizes, T, P) && k < |P| && 2 * k + Bit(b) < |T|
    ensures TreeOK(sizes, T[2 * k + Bit(b) := NodeName(|P|)], P + [P[k] + [b]])
  {
    hide IsNode, Codeword;
    TreeSnoc(sizes, T, P, P[k] + [b]);
    NewIsNode(P, P[k] + [b]);
    assert EntryPrefix(P + [P[k] + [b]], 2 * k + Bit(b)) == P[k] + [b];
  }

  lemma InnerKeeps(L: seq<int>, T: seq<int>, P: seq<seq<bool>>, j: nat, e: nat, x: int)
    requires j < |P| && e < |T| && Linked(L, T, P, j) && T[e] == 0
    ensures Linked(L, T[e := x], P, j)
  {
    var p := P[j];
    if |p| > FAST_LOOKUP_BITS {
      var i :| 0 <= i < j && P[i] == p[..|p| - 1] && 2 * i + Bit(p[|p| - 1]) < |T| &&
          T[2 * i + Bit(p[|p| - 1])] == NodeName(j);
      assert T[e := x][2 * i + Bit(p[|p| - 1])] == NodeName(j);
    }
  }

  // No node stands for q while the entry that would lead to it is free.
  lemma NoSuchNode(L: seq<int>, T: seq<int>, P: seq<seq<bool>>, k: nat, b: bool, j: nat)
    requires k < |P| && j < |P| && Linked(L, T, P, j) && |P[k]| >= FAST_LOOKUP_BITS
    requires forall k, k' :: 0 <= k < k' < |P| ==> P[k] != P[k']
    requires 2 * k + Bit(b) < |T| && T[2 * k + Bit(b)] == 0
    ensures P[j] != P[k] + [b]
  {
    var p := P[j];
    if |p| > FAST_LOOKUP_BITS {
      var i :| 0 <= i < j && P[i] == p[..|p| - 1] && 2 * i + Bit(p[|p| - 1]) < |T| &&
          T[2 * i + Bit(p[|p| - 1])] == NodeName(j);
      assert i != k || p[|p| - 1] != b;
    }
  }

  lemma InnerNodes(sizes: seq<nat>, L: seq<int>, T: seq<int>, P: seq<seq<bool>>, k: nat, b: bool)
    requires NodesOK(sizes, L, T, P) && k < |P| && |P[k]| >= FAST_LOOKUP_BITS && IsInner(sizes, P[k] + [b])
    requires 2 * k + Bit(b) < |T| && T[2 * k + Bit(b)] == 0
    ensures NodesOK(sizes, L, T[2 * k + Bit(b) := NodeName(|P|)], P + [P[k] + [b]])
  {
    hide IsInner, Linked;
    var q, e := P[k] + [b], 2 * k + Bit(b);
    var T', P' := T[e := NodeName(|P|)], P + [q];
    forall j | 0 <= j < |P'|
      ensures Linked(L, T', P', j) && IsInner(sizes, P'[j])
      ensures j < |P| ==> P'[j] != q
    {
      if j < |P| {
        assert Linked(L, T, P, j) && IsInner(sizes, P[j]);
        LinkedSnoc(L, T, P, q, j);
        InnerKeeps(L, T, P', j, e, NodeName(|P|));
        NoSuchNode(L, T, P, k, b, j);
      } else {
        NewLinked(L, T', P', k, b);
      }
    }
  }

  lemma NewLinked(L: seq<int>, T: seq<int>, P: seq<seq<bool>>, k: nat, b: bool)
    requires k < |P| - 1 && P[|P| - 1] == P[k] + [b] && |P[k]| >= FAST_LOOKUP_BITS
    requires 2 * k + Bit(b) < |T| && T[2 * k + Bit(b)] == NodeName(|P| - 1)
    ensures Linked(L, T, P, |P| - 1)
  {
    var p := P[|P| - 1];
    assert P[k] == p[..|p| - 1] && b == p[|p| - 1];
  }

  // The last entry on the path of a long code gets the symbol itself.
  lemma SymbolEntry(sizes: seq<nat>, n: nat, L: seq<int>, T: seq<int>, P: seq<seq<bool>>, k: nat, b: bool)
    requires Partial(sizes, n, L, T, P) && Used(sizes, n) && k < |P| && P[k] + [b] == Codeword(sizes, n)
    requires 2 * k + Bit(b) < |T|
    ensures sizes[n] > FAST_LOOKUP_BITS ==>
              |L| == FAST_LOOKUP_SIZE && Partial(sizes, n + 1, L, T[2 * k + Bit(b) := n], P)
  {
    hide Codeword, LsbBits, LsbValue, Decodable, Feasible, IsInner, IsNode, IsShort, Covered, NodesOK, TreeOK, LookOK;
    if sizes[n] > FAST_LOOKUP_BITS {
      PartialParts(sizes, n, L, T, P);
      var T' := T[2 * k + Bit(b) := n];
      SymbolTree(sizes, n, T, P, k, b);
      SymbolNodes(sizes, n, L, T, P, k, b);
      SymbolCovered(sizes, n, L, T', P, k, b);
      forall t | 0 <= t < n && sizes[t] > 0
        ensures Covered(sizes, L, T', P, t)
      {
        if Codeword(sizes, t) == P[k] + [b] {
          PrefixFree(MAX_CODE_SIZE, sizes, t, n);
        }
        OtherCovered(sizes, L, T, P, k, b, n, t);
      }
    }
  }

  lemma SymbolTree(sizes: seq<nat>, n: nat, T: seq<int>, P: seq<seq<bool>>, k: nat, b: bool)
    requires TreeOK(sizes, T, P) && Used(sizes, n) && k < |P| && P[k] + [b] == Codeword(sizes, n)
    requires 2 * k + Bit(b) < |T|
    ensures TreeOK(sizes, T[2 * k + Bit(b) := n], P)
  {
    hide IsNode, Codeword;
    assert EntryPrefix(P, 2 * k + Bit(b)) == P[k] + [b];
  }

  lemma SymbolCovered(sizes: seq<nat>, n: nat, L: seq<int>, T: seq<int>, P: seq<seq<bool>>, k: nat, b: bool)
    requires |L| == FAST_LOOKUP_SIZE && |T| == TREE_SIZE && Used(sizes, n) && sizes[n] > FAST_LOOKUP_BITS
    requires k < |P| && P[k] + [b] == Codeword(sizes, n) && 2 * k + Bit(b) < |T| && T[2 * k + Bit(b)] == n
    ensures Covered(sizes, L, T, P, n)
  {
    hide Codeword;
    var c := Codeword(sizes, n);
    assert P[k] == c[..|c| - 1] && b == c[|c| - 1];
  }

  lemma SymbolNodes(sizes: seq<nat>, n: nat, L: seq<int>, T: seq<int>, P: seq<seq<bool>>, k: nat, b: bool)
    requires Feasible(MAX_CODE_SIZE, sizes) && NodesOK(sizes, L, T, P)
    requires Used(sizes, n) && k < |P| && P[k] + [b] == Codeword(sizes, n) && 2 * k + Bit(b) < |T|
    ensures NodesOK(sizes, L, T[2 * k + Bit(b) := n], P)
  {
    hide IsInner, Linked, Codeword, Feasible;
    var T' := T[2 * k + Bit(b) := n];
    NotInner(sizes, n, Codeword(sizes, n));
    forall j | 0 <= j < |P|
      ensures Linked(L, T', P, j)
    {
      assert Linked(L, T, P, j) && IsInner(sizes, P[j]);
      SymbolKeeps(L, T, P, k, b, j, n);
    }
  }

  lemma SymbolKeeps(L: seq<int>, T: seq<int>, P: seq<seq<bool>>, k: nat, b: bool, j: nat, x: int)
    requires k < |P| && j < |P| && Linked(L, T, P, j) && P[j] != P[k] + [b] && 2 * k + Bit(b) < |T|
    ensures Linked(L, T[2 * k + Bit(b) := x], P, j)
  {
    var p, e := P[j], 2 * k + Bit(b);
    if |p| > FAST_LOOKUP_BITS {
      var i :| 0 <= i < j && P[i] == p[..|p| - 1] && 2 * i + Bit(p[|p| - 1]) < |T| &&
          T[2 * i + Bit(p[|p| - 1])] == NodeName(j);
      if 2 * i + Bit(p[|p| - 1]) == e {
        SplitLast(p, P[k], b);
      }
      assert T[e := x][2 * i + Bit(p[|p| - 1])] == NodeName(j);
    }
  }

  // ---------------------------------------------------------------------------------
  // Building the tables (source lines 2511-2572).

  lemma PartialStart(sizes: seq<nat>, L: seq<int>, T: seq<int>)
    requires Decodable(sizes) && |L| == FAST_LOOKUP_SIZE && |T| == TREE_SIZE
    requires (forall i :: 0 <= i < |L| ==> L[i] == 0) && (forall i :: 0 <= i < |T| ==> T[i] == 0)
    ensures Partial(sizes, 0, L, T, [])
  {
  }

  lemma PartialSkip(sizes: seq<nat>, n: nat, L: seq<int>, T: seq<int>, P: seq<seq<bool>>)
    requires Partial(sizes, n, L, T, P) && n < |sizes|
    requires sizes[n] > 0 ==> |L| == FAST_LOOKUP_SIZE && |T| == TREE_SIZE && Covered(sizes, L, T, P, n)
    ensures Partial(sizes, n + 1, L, T, P)
  {
    hide LookOK, TreeOK, NodesOK, Covered, Decodable;
    PartialParts(sizes, n, L, T, P);
  }

  lemma PartialDone(sizes: seq<nat>, L: seq<int>, T: seq<int>, P: seq<seq<bool>>)
    requires Partial(sizes, |sizes|, L, T, P)
    ensures Table(sizes, |sizes|, L, T, P)
  {
    hide LookOK, TreeOK, NodesOK, Covered, Decodable;
    PartialParts(sizes, |sizes|, L, T, P);
    DecodableSize(sizes);
  }

  lemma SameLowBits(i: nat, size: nat, c: seq<bool>)
    requires size <= FAST_LOOKUP_BITS && |c| == size
    ensures c <= LsbBits(i, FAST_LOOKUP_BITS) <==> i % Pow2(size) == LsbValue(c)
  {
    hide Pow2, LsbBits, LsbValue;
    LsbPrefix(i, FAST_LOOKUP_BITS, size);
    LsbMod(i, size);
    LsbBitsOfValue(c);
    assert c <= LsbBits(i, FAST_LOOKUP_BITS) <==> LsbBits(i, FAST_LOOKUP_BITS)[..size] == c;
  }

  // Less than a whole period on, the remainder is another one.
  lemma OtherResidue(a: nat, x: nat, u: nat)
    requires u > 0 && a < x < a + u
    ensures x % u != a % u
  {
    var q, r := a / u, a % u;
    if r + x - a < u {
      DivUnique(x, u, q, r + x - a);
    } else {
      Distribute(q, 1, u);
      DivUnique(x, u, q + 1, r + x - a - u);
    }
  }

  lemma NextResidue(a: nat, u: nat)
    requires u > 0
    ensures (a + u) % u == a % u
  {
    var q, r := a / u, a % u;
    Distribute(q, 1, u);
    DivUnique(a + u, u, q + 1, r);
  }

  method EnterShort(sizes: seq<nat>, n: nat, rev0: nat, lookUp: array<int>, tree: array<int>, ghost P: seq<seq<bool>>)
    requires lookUp != tree && lookUp.Length == FAST_LOOKUP_SIZE && tree.Length == TREE_SIZE
    requires Partial(sizes, n, lookUp[..], tree[..], P) && Used(sizes, n) && sizes[n] <= FAST_LOOKUP_BITS
    requires rev0 == LsbValue(Codeword(sizes, n))
    modifies lookUp
    ensures Partial(sizes, n + 1, lookUp[..], tree[..], P)
  {
    hide Partial, Codeword, LsbBits, LsbValue, Pow2;
    ghost var T := tree[..];
    var size := sizes[n];
    ghost var c := Codeword(sizes, n);
    LsbBitsOfValue(c);
    var k, rev := size * 512 + n, rev0;
    assert rev % Pow2(size) == rev0 by { SmallMod(rev0, Pow2(size)); }
    while rev < FAST_LOOKUP_SIZE
      invariant rev % Pow2(size) == rev0 && tree[..] == T
      invariant Partial(sizes, n, lookUp[..], T, P)
      invariant forall i: nat :: i < FAST_LOOKUP_SIZE && i < rev && i % Pow2(size) == rev0 ==> lookUp[i] == k
      decreases FAST_LOOKUP_SIZE - rev
    {
      SameLowBits(rev, size, c);
      FillEntry(sizes, n, lookUp[..], T, P, rev);
      ghost var L := lookUp[..];
      lookUp[rev] := k;
      assert lookUp[..] == L[rev := k];
      NextResidue(rev, Pow2(size));
      forall i: nat | rev < i < rev + Pow2(size)
        ensures i % Pow2(size) != rev0
      {
        OtherResidue(rev, i, Pow2(size));
      }
      rev := rev + Pow2(size);
    }
    forall i: nat | i < FAST_LOOKUP_SIZE && c <= LsbBits(i, FAST_LOOKUP_BITS)
      ensures lookUp[i] == k
    {
      SameLowBits(i, size, c);
    }
    ShortCovered(sizes, n, lookUp[..], T, P);
    PartialSkip(sizes, n, lookUp[..], T, P);
  }

  lemma SmallMod(a: nat, u: nat)
    requires a < u
    ensures a % u == a
  {
  }

  lemma ShortCovered(sizes: seq<nat>, n: nat, L: seq<int>, T: seq<int>, P: seq<seq<bool>>)
    requires |L| == FAST_LOOKUP_SIZE && |T| == TREE_SIZE && Used(sizes, n) && sizes[n] <= FAST_LOOKUP_BITS
    requires forall i: nat :: i < FAST_LOOKUP_SIZE && Codeword(sizes, n) <= LsbBits(i, FAST_LOOKUP_BITS) ==>
               L[i] == sizes[n] * 512 + n
    ensures Covered(sizes, L, T, P, n)
  {
    hide Codeword, LsbBits;
  }

  // The lookup entry under a long code is free or already leads into the tree.
  lemma ReadLook(sizes: seq<nat>, n: nat, L: seq<int>, T: seq<int>, P: seq<seq<bool>>)
    requires Partial(sizes, n, L, T, P) && Used(sizes, n) && sizes[n] > FAST_LOOKUP_BITS
    ensures |L| == FAST_LOOKUP_SIZE && LsbValue(Codeword(sizes, n)[..FAST_LOOKUP_BITS]) < |L|
    ensures var q := Codeword(sizes, n)[..FAST_LOOKUP_BITS];
            L[LsbValue(q)] == 0 || IsNode(P, L[LsbValue(q)], q)
  {
    hide Codeword, LsbBits, LsbValue, IsNode, TreeOK, NodesOK, Covered, Decodable, Feasible;
    PartialParts(sizes, n, L, T, P);
    var q := Codeword(sizes, n)[..FAST_LOOKUP_BITS];
    LsbOf10(q);
    var x := L[LsbValue(q)];
    if x > 0 {
      PrefixFree(MAX_CODE_SIZE, sizes, x % 512, n);
    }
  }

  lemma ReadTree(sizes: seq<nat>, n: nat, L: seq<int>, T: seq<int>, P: seq<seq<bool>>, k: nat, b: bool)
    requires Partial(sizes, n, L, T, P) && k < |P| && IsInner(sizes, P[k] + [b])
    ensures |T| == TREE_SIZE && 2 * k + Bit(b) < |T|
    ensures T[2 * k + Bit(b)] == 0 || IsNode(P, T[2 * k + Bit(b)], P[k] + [b])
  {
    hide Codeword, LookOK, IsNode, NodesOK, Covered, Decodable, Feasible, IsInner;
    PartialParts(sizes, n, L, T, P);
    assert EntryPrefix(P, 2 * k + Bit(b)) == P[k] + [b];
    var x := T[2 * k + Bit(b)];
    if x > 0 {
      NotInner(sizes, x, P[k] + [b]);
    }
  }

  lemma PrefixIsInner(sizes: seq<nat>, n: nat, j: nat)
    requires Used(sizes, n) && j < sizes[n]
    ensures IsInner(sizes, Codeword(sizes, n)[..j])
  {
    hide Codeword;
  }

  method EnterLong(sizes: seq<nat>, n: nat, rev0: nat, lookUp: array<int>, tree: array<int>, treeNext0: int,
      ghost P0: seq<seq<bool>>)
    returns (treeNext: int, ghost P: seq<seq<bool>>)
    requires lookUp != tree && lookUp.Length == FAST_LOOKUP_SIZE && tree.Length == TREE_SIZE
    requires Partial(sizes, n, lookUp[..], tree[..], P0) && Used(sizes, n) && sizes[n] > FAST_LOOKUP_BITS
    requires rev0 < Pow2(sizes[n]) && LsbBits(rev0, sizes[n]) == Codeword(sizes, n) && treeNext0 == NodeName(|P0|)
    modifies lookUp, tree
    ensures Partial(sizes, n + 1, lookUp[..], tree[..], P) && treeNext == NodeName(|P|)
  {
    hide Partial, Codeword, LsbBits, LsbValue, Pow2, IsNode, IsInner;
    ghost var c := Codeword(sizes, n);
    var size := sizes[n];
    ghost var k: nat;
    var treeCur;
    treeCur, treeNext, P, k := EnterRoot(sizes, n, rev0, lookUp, tree, treeNext0, P0);
    var rev := rev0 / Pow2(FAST_LOOKUP_BITS - 1);
    var j := size;
    while j > FAST_LOOKUP_BITS + 1
      invariant FAST_LOOKUP_BITS < j <= size
      invariant Partial(sizes, n, lookUp[..], tree[..], P) && treeNext == NodeName(|P|)
      invariant k < |P| && treeCur == NodeName(k) && P[k] == c[..FAST_LOOKUP_BITS + size - j]
      invariant rev == rev0 / Pow2(FAST_LOOKUP_BITS - 1 + size - j)
      decreases j
    {
      var d := FAST_LOOKUP_BITS + size - j;
      NextBit(rev0, size, d, c);
      rev := rev / 2;
      treeCur, treeNext, P, k := EnterNode(sizes, n, d, rev % 2, lookUp, tree, treeCur, treeNext, P, k);
      j := j - 1;
    }
    NextBit(rev0, size, size - 1, c);
    rev := rev / 2;
    treeCur := treeCur - rev % 2;
    ghost var b := c[size - 1];
    assert P[k] + [b] == c;
    PartialRoom(sizes, n, lookUp[..], tree[..], P);
    SymbolEntry(sizes, n, lookUp[..], tree[..], P, k, b);
    ghost var T := tree[..];
    tree[-treeCur - 1] := n;
    assert tree[..] == T[2 * k + Bit(b) := n];
  }

  lemma PartialRoom(sizes: seq<nat>, n: nat, L: seq<int>, T: seq<int>, P: seq<seq<bool>>)
    requires Partial(sizes, n, L, T, P)
    ensures 2 * |P| <= TREE_SIZE == |T| && |L| == FAST_LOOKUP_SIZE
  {
    hide LookOK, TreeOK, NodesOK, Covered, Decodable;
    PartialParts(sizes, n, L, T, P);
  }

  // The next bit of the shifted reversed code is the next bit of the codeword.
  lemma NextBit(rev0: nat, size: nat, d: nat, c: seq<bool>)
    requires 1 <= d < size && c == LsbBits(rev0, size)
    ensures rev0 / Pow2(d - 1) / 2 == rev0 / Pow2(d) && rev0 / Pow2(d) % 2 == Bit(c[d])
  {
    hide Pow2, LsbBits;
    DivPow2(rev0, d - 1);
    LsbAt(rev0, size, d);
  }

  // The tree root for a long code, new or shared (source lines 2551-2556).
  method EnterRoot(sizes: seq<nat>, n: nat, rev0: nat, lookUp: array<int>, tree: array<int>, treeNext0: int,
      ghost P0: seq<seq<bool>>)
    returns (treeCur: int, treeNext: int, ghost P: seq<seq<bool>>, ghost k: nat)
    requires lookUp != tree && lookUp.Length == FAST_LOOKUP_SIZE && tree.Length == TREE_SIZE
    requires Partial(sizes, n, lookUp[..], tree[..], P0) && Used(sizes, n) && sizes[n] > FAST_LOOKUP_BITS
    requires LsbBits(rev0, sizes[n]) == Codeword(sizes, n) && treeNext0 == NodeName(|P0|)
    modifies lookUp
    ensures Partial(sizes, n, lookUp[..], tree[..], P) && treeNext == NodeName(|P|)
    ensures k < |P| && treeCur == NodeName(k) && P[k] == Codeword(sizes, n)[..FAST_LOOKUP_BITS]
  {
    hide Partial, Codeword, LsbBits, LsbValue, IsInner;
    ghost var q := Codeword(sizes, n)[..FAST_LOOKUP_BITS];
    LowBits(rev0, sizes[n]);
    ReadLook(sizes, n, lookUp[..], tree[..], P0);
    treeNext, P := treeNext0, P0;
    treeCur := lookUp[rev0 % FAST_LOOKUP_SIZE];
    if treeCur == 0 {
      PrefixIsInner(sizes, n, FAST_LOOKUP_BITS);
      RootEntry(sizes, n, lookUp[..], tree[..], P0, q);
      ghost var L := lookUp[..];
      lookUp[rev0 % FAST_LOOKUP_SIZE] := treeNext;
      assert lookUp[..] == L[LsbValue(q) := NodeName(|P0|)];
      P, k := P0 + [q], |P0|;
      treeCur := treeNext;
      treeNext := treeNext - 2;
    } else {
      k :| 0 <= k < |P| && treeCur == NodeName(k) && P[k] == q;
    }
  }

  // One interior step down the tree (source lines 2560-2568).
  method EnterNode(sizes: seq<nat>, n: nat, ghost d: nat, bit: nat, lookUp: array<int>, tree: array<int>,
      treeCur0: int, treeNext0: int,
      ghost P0: seq<seq<bool>>, ghost k0: nat)
    returns (treeCur: int, treeNext: int, ghost P: seq<seq<bool>>, ghost k: nat)
    requires lookUp != tree && lookUp.Length == FAST_LOOKUP_SIZE && tree.Length == TREE_SIZE
    requires Partial(sizes, n, lookUp[..], tree[..], P0) && Used(sizes, n)
    requires FAST_LOOKUP_BITS <= d && d + 1 < sizes[n] && bit == Bit(Codeword(sizes, n)[d])
    requires k0 < |P0| && treeCur0 == NodeName(k0) && P0[k0] == Codeword(sizes, n)[..d] && treeNext0 == NodeName(|P0|)
    modifies tree
    ensures Partial(sizes, n, lookUp[..], tree[..], P) && treeNext == NodeName(|P|)
    ensures k < |P| && treeCur == NodeName(k) && P[k] == Codeword(sizes, n)[..d + 1]
  {
    hide Partial, Codeword, IsInner;
    ghost var c := Codeword(sizes, n);
    ghost var b := c[d];
    assert P0[k0] + [b] == c[..d + 1];
    PrefixIsInner(sizes, n, d + 1);
    ReadTree(sizes, n, lookUp[..], tree[..], P0, k0, b);
    treeNext, P := treeNext0, P0;
    treeCur := treeCur0 - bit;
    if tree[-treeCur - 1] == 0 {
      InnerEntry(sizes, n, lookUp[..], tree[..], P0, k0, b);
      ghost var T := tree[..];
      tree[-treeCur - 1] := treeNext;
      assert tree[..] == T[2 * k0 + Bit(b) := NodeName(|P0|)];
      P, k := P0 + [P0[k0] + [b]], |P0|;
      treeCur := treeNext;
      treeNext := treeNext - 2;
    } else {
      treeCur := tree[-treeCur - 1];
      k :| 0 <= k < |P| && treeCur == NodeName(k) && P[k] == P0[k0] + [b];
    }
  }

  lemma {:induction false} SpaceAtMost(m: nat, sizes: seq<nat>, k: nat)
    requires Bounded(m, sizes) && k <= |sizes|
    ensures Below(m, sizes, m + 1, k) <= CountUpTo(sizes, m, k) * Pow2(m)
  {
    if k > 0 {
      SpaceAtMost(m, sizes, k - 1);
      Pow2Monotone(m - sizes[k - 1], m);
      Distribute(CountUpTo(sizes, m, k - 1), 1, Pow2(m));
    }
  }

  lemma {:induction false} CountedUsed(m: nat, sizes: seq<nat>, k: nat, u: nat)
    requires Bounded(m, sizes) && u < k <= |sizes| && sizes[u] > 0
    ensures CountUpTo(sizes, m, k) >= 1
    ensures forall v :: u < v < k && sizes[v] > 0 ==> CountUpTo(sizes, m, k) >= 2
    decreases k
  {
    if u < k - 1 {
      CountedUsed(m, sizes, k - 1, u);
    }
  }

  lemma {:induction false} UniqueCount(m: nat, sizes: seq<nat>, k: nat)
    requires Bounded(m, sizes) && k <= |sizes|
    requires forall u: nat, v: nat :: Used(sizes, u) && Used(sizes, v) ==> u == v
    ensures CountUpTo(sizes, m, k) <= 1
    ensures CountUpTo(sizes, m, k) == 1 ==> exists u: nat :: u < k && Used(sizes, u)
  {
    if k > 0 {
      UniqueCount(m, sizes, k - 1);
      if sizes[k - 1] > 0 {
        assert Used(sizes, k - 1);
      }
    }
  }

  // The test the source makes on the code sizes (source lines 2522-2532).
  lemma AcceptedIsDecodable(sizes: seq<nat>)
    requires Bounded(MAX_CODE_SIZE, sizes) && |sizes| <= MAX_HUFF_SYMBOLS
    ensures Decodable(sizes) <==> !(First(sizes, 16) != 65536 && NumTo(sizes, 15) > 1)
  {
    hide Below, Spent, CountUpTo, NumTo, First, Used;
    SpentScaled(15, sizes, 15);
    assert Pow2(0) == 1 && Pow2(15) == 32768;
    SpentNext(sizes, 15);
    NumToAtMost(sizes, 15);
    SpaceAtMost(15, sizes, |sizes|);
    if forall u: nat, v: nat :: Used(sizes, u) && Used(sizes, v) ==> u == v {
      UniqueCount(15, sizes, |sizes|);
    } else {
      var u: nat, v: nat :| Used(sizes, u) && Used(sizes, v) && u != v;
      UsedMeans(sizes, u);
      UsedMeans(sizes, v);
      CountedUsed(15, sizes, |sizes|, if u < v then u else v);
    }
  }

  lemma UsedMeans(sizes: seq<nat>, u: nat)
    requires Used(sizes, u)
    ensures u < |sizes| && sizes[u] > 0
  {
  }

  lemma SpentNext(sizes: seq<nat>, d: nat)
    requires d > 0
    ensures First(sizes, d + 1) == 2 * Spent(sizes, d)
  {
  }

  method CheckSizes(sizes: seq<nat>) returns (ok: bool, nextCode: array<nat>)
    requires Bounded(MAX_CODE_SIZE, sizes) && |sizes| <= MAX_HUFF_SYMBOLS
    ensures ok <==> Decodable(sizes)
    ensures fresh(nextCode) && nextCode.Length == 17
    ensures forall v :: 1 <= v <= 15 ==> nextCode[v] == First(sizes, v)
  {
    hide Num, First, NumTo, Decodable;
    var totalSyms := new nat[16](_ => 0);
    NumStart(sizes);
    for i := 0 to |sizes|
      invariant forall v :: 0 <= v <= 15 ==> totalSyms[v] == Num(sizes, v, i)
    {
      NumStep(sizes, i);
      totalSyms[sizes[i]] := totalSyms[sizes[i]] + 1;
    }
    nextCode := new nat[17](_ => 0);
    var usedSyms, total := 0, 0;
    FirstStep(sizes, 1);
    NumToZero(sizes);
    for i: nat := 1 to 16
      invariant forall v :: 0 <= v <= 15 ==> totalSyms[v] == Num(sizes, v, |sizes|)
      invariant usedSyms == NumTo(sizes, i - 1) && total == First(sizes, i)
      invariant forall v :: 1 <= v <= i ==> nextCode[v] == First(sizes, v)
    {
      FirstStep(sizes, i + 1);
      NumToStep(sizes, i);
      usedSyms := usedSyms + totalSyms[i];
      total := 2 * (total + totalSyms[i]);
      nextCode[i + 1] := total;
    }
    AcceptedIsDecodable(sizes);
    ok := !(65536 != total && usedSyms > 1);
  }

  lemma NumToZero(sizes: seq<nat>)
    ensures NumTo(sizes, 0) == 0
  {
  }

  lemma NumToStep(sizes: seq<nat>, d: nat)
    requires d > 0
    ensures NumTo(sizes, d) == NumTo(sizes, d - 1) + Num(sizes, d, |sizes|)
  {
  }

  // The table-building part of tinfl_decompress: it fails exactly on sizes that are not a
  // complete code nor a code of at most one symbol, and otherwise the tables decode every
  // code.
  method BuildTable(sizes: seq<nat>, lookUp: array<int>, tree: array<int>) returns (ok: bool, ghost P: seq<seq<bool>>)
    requires Bounded(MAX_CODE_SIZE, sizes) && |sizes| <= MAX_HUFF_SYMBOLS
    requires lookUp != tree && lookUp.Length == FAST_LOOKUP_SIZE && tree.Length == TREE_SIZE
    modifies lookUp, tree
    ensures ok <==> Decodable(sizes)
    ensures ok ==> Table(sizes, |sizes|, lookUp[..], tree[..], P)
  {
    hide Partial, Table, Decodable, Num, First, Codeword, LsbBits, LsbValue, Pow2, Covered;
    P := [];
    forall i | 0 <= i < lookUp.Length {
      lookUp[i] := 0;
    }
    forall i | 0 <= i < tree.Length {
      tree[i] := 0;
    }
    ghost var L0, T0 := lookUp[..], tree[..];
    var nextCode;
    ok, nextCode := CheckSizes(sizes);
    if !ok {
      return;
    }
    assert lookUp[..] == L0 && tree[..] == T0;
    PartialStart(sizes, L0, T0);
    NumStart(sizes);
    var treeNext := NodeName(0);
    for i := 0 to |sizes|
      invariant Partial(sizes, i, lookUp[..], tree[..], P) && treeNext == NodeName(|P|)
      invariant forall v :: 1 <= v <= 15 ==> nextCode[v] == First(sizes, v) + Num(sizes, v, i)
    {
      NumStep(sizes, i);
      if sizes[i] == 0 {
        PartialSkip(sizes, i, lookUp[..], tree[..], P);
      } else {
        treeNext, P := EnterSymbol(sizes, i, nextCode[sizes[i]], lookUp, tree, treeNext, P);
        nextCode[sizes[i]] := nextCode[sizes[i]] + 1;
      }
    }
    PartialDone(sizes, lookUp[..], tree[..], P);
  }

  // One symbol (source lines 2535-2571).
  method EnterSymbol(sizes: seq<nat>, i: nat, code: nat, lookUp: array<int>, tree: array<int>, treeNext0: int,
      ghost P0: seq<seq<bool>>)
    returns (treeNext: int, ghost P: seq<seq<bool>>)
    requires lookUp != tree && lookUp.Length == FAST_LOOKUP_SIZE && tree.Length == TREE_SIZE
    requires Partial(sizes, i, lookUp[..], tree[..], P0) && Used(sizes, i)
    requires code == Code(sizes, i) && treeNext0 == NodeName(|P0|)
    modifies lookUp, tree
    ensures Partial(sizes, i + 1, lookUp[..], tree[..], P) && treeNext == NodeName(|P|)
  {
    hide Partial, LsbBits, LsbValue, Pow2, MsbBits;
    var rev := ReverseCode(code, sizes[i]);
    ReversedBits(code, sizes[i]);
    treeNext, P := treeNext0, P0;
    if sizes[i] <= FAST_LOOKUP_BITS {
      EnterShort(sizes, i, rev, lookUp, tree, P0);
    } else {
      treeNext, P := EnterLong(sizes, i, rev, lookUp, tree, treeNext0, P0);
    }
  }
}
