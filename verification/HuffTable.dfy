// Turning symbol counts into code sizes and codes (kernel/miniz/miniz.c:850-901).
module HuffTable {
  import opened Arith
  import opened Bits
  import opened Huffman
  import opened Optimality
  import opened RadixSort
  import opened CodeLimit
  import opened LimitCost
  import opened SymbolSums
  import opened Canonical

  // ---------------------------------------------------------------------------------
  // Codes from sizes.

  // The bit-reversal loop that both sides of the codec use (source lines 897-898).
  method ReverseCode(code: nat, size: nat) returns (rev: nat)
    ensures rev == Reversed(code, size)
  {
    rev := 0;
    var c, l := code, size;
    while l > 0
      invariant 0 <= l <= size
      invariant c == code / Pow2(size - l)
      invariant rev == LsbValue(MsbBits(code, size - l))
      decreases l
    {
      var k := size - l;
      MsbCons(code, k);
      assert ([c % 2 == 1] + MsbBits(code, k))[1..] == MsbBits(code, k);
      DivPow2(code, k);
      rev := 2 * rev + c % 2;
      c := c / 2;
      l := l - 1;
    }
  }

  // codes[i] holds the reversed canonical code of symbol i.
  ghost predicate CodesFor(sizes: seq<nat>, codes: seq<nat>, k: nat)
  {
    && k <= |sizes| == |codes|
    && forall i :: 0 <= i < k && sizes[i] > 0 ==> codes[i] == Reversed(Code(sizes, i), sizes[i])
  }

  lemma FirstStep(sizes: seq<nat>, l: nat)
    requires l >= 1
    ensures First(sizes, l) == if l == 1 then 0 else 2 * (First(sizes, l - 1) + Num(sizes, l - 1, |sizes|))
  {
  }

  method NextCodes(numCodes: array<int>, limit: nat, ghost sizes: seq<nat>) returns (next: array<nat>)
    requires numCodes.Length == 33 && 1 <= limit <= 32
    requires forall i :: 1 <= i <= limit ==> numCodes[i] == Num(sizes, i, |sizes|)
    ensures fresh(next) && next.Length == 33
    ensures forall i :: 1 <= i <= limit ==> next[i] == First(sizes, i)
  {
    hide First, Num;
    next := new nat[33](_ => 0);
    var j := 0;
    FirstStep(sizes, 1);
    for i := 2 to limit + 1
      invariant j == First(sizes, i - 1)
      invariant next[1] == 0
      invariant forall v :: 1 <= v < i ==> next[v] == First(sizes, v)
    {
      FirstStep(sizes, i);
      j := 2 * (j + numCodes[i - 1]);
      next[i] := j;
    }
  }

  // Second half of tdefl_optimize_huffman_table (source lines 887-900).
  method AssignCodes(sizes: array<nat>, codes: array<nat>, numCodes: array<int>, limit: nat)
    requires sizes.Length == codes.Length && sizes != codes && numCodes.Length == 33 && 1 <= limit <= 32
    requires Bounded(limit, sizes[..])
    requires forall i :: 1 <= i <= limit ==> numCodes[i] == Num(sizes[..], i, sizes.Length)
    modifies codes
    ensures CodesFor(sizes[..], codes[..], sizes.Length)
  {
    hide First, Num, CodesFor;
    ghost var s := sizes[..];
    var next := NextCodes(numCodes, limit, s);
    NumStart(s);
    CodesForNone(s, codes[..]);
    for i := 0 to sizes.Length
      invariant sizes[..] == s && next.Length == 33
      invariant forall v :: 1 <= v <= limit ==> next[v] == First(s, v) + Num(s, v, i)
      invariant CodesFor(s, codes[..], i)
    {
      ghost var before := codes[..];
      NumStep(s, i);
      if sizes[i] != 0 {
        var size := sizes[i];
        assert next[size] == Code(s, i);
        var rev := ReverseCode(next[size], size);
        next[size] := next[size] + 1;
        codes[i] := rev;
      }
      CodesForStep(s, before, codes[..], i);
    }
  }

  lemma NumStart(sizes: seq<nat>)
    ensures forall v :: Num(sizes, v, 0) == 0
  {
  }

  lemma NumStep(sizes: seq<nat>, i: nat)
    requires i < |sizes|
    ensures forall v :: Num(sizes, v, i + 1) == Num(sizes, v, i) + (if sizes[i] == v then 1 else 0)
  {
  }

  lemma CodesForNone(sizes: seq<nat>, codes: seq<nat>)
    requires |sizes| == |codes|
    ensures CodesFor(sizes, codes, 0)
  {
  }

  lemma CodesForStep(sizes: seq<nat>, before: seq<nat>, codes: seq<nat>, i: nat)
    requires i < |sizes| == |codes| && CodesFor(sizes, before, i)
    requires forall j :: 0 <= j < i ==> codes[j] == before[j]
    requires sizes[i] > 0 ==> codes[i] == Reversed(Code(sizes, i), sizes[i])
    ensures CodesFor(sizes, codes, i + 1)
  {
  }

  // A reversed code, packed least significant bit first, is the symbol's codeword.
  lemma CodeBits(m: nat, sizes: seq<nat>, codes: seq<nat>, i: nat)
    requires Feasible(m, sizes) && Used(sizes, i) && CodesFor(sizes, codes, |sizes|)
    ensures codes[i] < Pow2(sizes[i]) && LsbBits(codes[i], sizes[i]) == Codeword(sizes, i)
  {
    ReversedBits(Code(sizes, i), sizes[i]);
  }

  // ---------------------------------------------------------------------------------
  // Sizes from counts.

  lemma {:induction false} NumUpdate(sizes: seq<nat>, s: nat, v: nat, w: nat, k: nat)
    requires s < |sizes| && k <= |sizes| && sizes[s] == 0 && v > 0
    ensures w > 0 ==> Num(sizes[s := v], w, k) == Num(sizes, w, k) + (if s < k && w == v then 1 else 0)
  {
    if k > 0 {
      NumUpdate(sizes, s, v, w, k - 1);
    }
  }

  lemma {:induction false} NumZero(sizes: seq<nat>, w: nat, k: nat)
    requires k <= |sizes| && forall i :: 0 <= i < k ==> sizes[i] != w
    ensures Num(sizes, w, k) == 0
  {
    if k > 0 {
      NumZero(sizes, w, k - 1);
    }
  }

  // The space of an array of sizes depends only on how many symbols have each size.
  lemma {:induction false} SpaceFromCounts(m: nat, sizes: seq<nat>, c: seq<int>, k: nat)
    requires Bounded(m, sizes) && k <= m < |c|
    requires forall v :: 1 <= v <= m ==> c[v] == Num(sizes, v, |sizes|)
    ensures Below(m, sizes, k + 1, |sizes|) == UnitsTo(m, c, k)
  {
    if k == 0 {
      BelowOne(m, sizes, |sizes|);
    } else {
      SpaceFromCounts(m, sizes, c, k - 1);
      BelowNext(m, sizes, k, |sizes|);
    }
  }

  ghost predicate Distinct(s: seq<SymFreq>)
  {
    forall i, j :: 0 <= i < j < |s| ==> s[i].sym != s[j].sym
  }

  // Positions from j on have received sizes up to i, `done` of them equal to i.
  ghost predicate Handed(A: seq<SymFreq>, sizes: seq<nat>, c: seq<int>, i: nat, done: int, j: nat)
  {
    && j <= |A| && InRange(A, |sizes|)
    && 1 <= i < |c|
    && (forall p :: 0 <= p < j ==> sizes[A[p].sym] == 0)
    && (forall p :: j <= p < |A| ==> 1 <= sizes[A[p].sym] <= i)
    && (forall p, q :: j <= p <= q < |A| ==> sizes[A[p].sym] >= sizes[A[q].sym])
    && (forall s :: 0 <= s < |sizes| && sizes[s] > 0 ==> exists p :: 0 <= p < |A| && A[p].sym == s)
    && (forall v :: 1 <= v < i ==> Num(sizes, v, |sizes|) == c[v])
    && Num(sizes, i, |sizes|) == done
    && CountTo(c, i - 1) + done == |A| - j
  }

  lemma HandedStep(A: seq<SymFreq>, sizes: seq<nat>, c: seq<int>, i: nat, done: int, j: nat)
    requires Handed(A, sizes, c, i, done, j) && Distinct(A) && j > 0
    requires Bounded(i, sizes)
    ensures InRange(A, |sizes|) && Handed(A, sizes[A[j - 1].sym := i], c, i, done + 1, j - 1)
  {
    var x := A[j - 1].sym;
    var sizes' := sizes[x := i];
    HandedCounts(sizes, x, i);
    hide Num;
    assert A[j - 1].sym == x;
    assert forall p :: 0 <= p < |A| && p != j - 1 ==> sizes'[A[p].sym] == sizes[A[p].sym];
  }

  lemma HandedCounts(sizes: seq<nat>, x: nat, i: nat)
    requires x < |sizes| && sizes[x] == 0 && Bounded(i, sizes)
    ensures forall v :: 1 <= v <= i ==>
              Num(sizes[x := i], v, |sizes|) == Num(sizes, v, |sizes|) + (if v == i then 1 else 0)
  {
    forall v | 1 <= v <= i
      ensures Num(sizes[x := i], v, |sizes|) == Num(sizes, v, |sizes|) + (if v == i then 1 else 0)
    {
      NumUpdate(sizes, x, i, v, |sizes|);
    }
  }

  lemma HandedNext(A: seq<SymFreq>, sizes: seq<nat>, c: seq<int>, i: nat, j: nat)
    requires 1 <= i && i + 1 < |c| && Handed(A, sizes, c, i, c[i], j) && Bounded(i, sizes)
    ensures Handed(A, sizes, c, i + 1, 0, j)
  {
    NumZero(sizes, i + 1, |sizes|);
  }

  lemma HandedStart(A: seq<SymFreq>, sizes: seq<nat>, c: seq<int>)
    requires InRange(A, |sizes|) && |c| >= 2 && forall i :: 0 <= i < |sizes| ==> sizes[i] == 0
    ensures Handed(A, sizes, c, 1, 0, |A|)
  {
    NumZero(sizes, 1, |sizes|);
  }

  lemma HandedRoom(A: seq<SymFreq>, sizes: seq<nat>, c: seq<int>, i: nat, done: int, j: nat, limit: nat)
    requires 1 <= i <= limit < |c| && Handed(A, sizes, c, i, done, j) && done < c[i]
    requires NonNegative(c) && CountTo(c, limit) == |A|
    ensures j > 0
  {
    CountNonNegative(c, i, limit);
  }

  lemma HandedBounded(A: seq<SymFreq>, sizes: seq<nat>, c: seq<int>, i: nat, done: int, j: nat)
    requires Handed(A, sizes, c, i, done, j)
    ensures Bounded(i, sizes) && InRange(A, |sizes|)
  {
    forall s | 0 <= s < |sizes|
      ensures sizes[s] <= i
    {
      if sizes[s] > 0 {
        var p :| 0 <= p < |A| && A[p].sym == s;
        if p < j {
          assert sizes[A[p].sym] == 0;
        }
      }
    }
  }

  // The size of each position from j on is that of its rank.
  ghost predicate Ranked(A: seq<SymFreq>, sizes: seq<nat>, c: seq<int>, j: nat)
  {
    && j <= |A| && InRange(A, |sizes|)
    && forall p :: j <= p < |A| ==>
         1 <= sizes[A[p].sym] < |c| && CountTo(c, sizes[A[p].sym] - 1) < |A| - p <= CountTo(c, sizes[A[p].sym])
  }

  lemma RankedStep(A: seq<SymFreq>, sizes: seq<nat>, c: seq<int>, i: nat, done: int, j: nat)
    requires Handed(A, sizes, c, i, done, j) && Ranked(A, sizes, c, j) && Distinct(A) && j > 0 && 0 <= done < c[i]
    ensures InRange(A, |sizes|) && Ranked(A, sizes[A[j - 1].sym := i], c, j - 1)
  {
    hide Num;
    var x := A[j - 1].sym;
    assert forall p :: j <= p < |A| ==> A[p].sym != x;
  }

  // Every symbol has a size, lighter symbols have longer ones, and each size is used as
  // often as its count says.
  ghost predicate AllHanded(A: seq<SymFreq>, sizes: seq<nat>, c: seq<int>, limit: nat)
  {
    && 1 <= limit < |c| && Bounded(limit, sizes) && InRange(A, |sizes|)
    && (forall p :: 0 <= p < |A| ==> sizes[A[p].sym] >= 1)
    && (forall p, q :: 0 <= p <= q < |A| ==> sizes[A[p].sym] >= sizes[A[q].sym])
    && (forall s :: 0 <= s < |sizes| && sizes[s] > 0 ==> exists p :: 0 <= p < |A| && A[p].sym == s)
    && (forall v :: 1 <= v <= limit ==> Num(sizes, v, |sizes|) == c[v])
  }

  lemma HandedAll(A: seq<SymFreq>, sizes: seq<nat>, c: seq<int>, limit: nat, j: nat)
    requires 1 <= limit && limit + 1 < |c| && Handed(A, sizes, c, limit + 1, 0, j) && Bounded(limit, sizes)
    requires CountTo(c, limit) == |A|
    ensures j == 0 && AllHanded(A, sizes, c, limit)
  {
  }

  // Source lines 882-884: the shortest codes go to the most frequent symbols.
  method AssignSizes(A: array<SymFreq>, numCodes: array<int>, sizes: array<nat>, limit: nat)
    requires numCodes.Length == 33 && 1 <= limit < 32
    requires NonNegative(numCodes[..]) && CountTo(numCodes[..], limit) == A.Length
    requires Distinct(A[..]) && InRange(A[..], sizes.Length)
    requires forall i :: 0 <= i < sizes.Length ==> sizes[i] == 0
    modifies sizes
    ensures AllHanded(A[..], sizes[..], numCodes[..], limit) && Ranked(A[..], sizes[..], numCodes[..], 0)
  {
    hide Handed, NonNegative, CountTo, AllHanded, Distinct, Ranked;
    ghost var a, c := A[..], numCodes[..];
    HandedStart(a, sizes[..], c);
    RankedStart(a, sizes[..], c);
    var j := A.Length;
    for i: nat := 1 to limit + 1
      invariant A[..] == a && numCodes[..] == c && 0 <= j <= A.Length
      invariant Handed(a, sizes[..], c, i, 0, j) && Bounded(i - 1, sizes[..]) && Ranked(a, sizes[..], c, j)
    {
      NonNegativeIndex(c, i);
      var l := numCodes[i];
      while l > 0
        invariant A[..] == a && numCodes[..] == c && 0 <= j <= A.Length && 0 <= l <= c[i]
        invariant Handed(a, sizes[..], c, i, c[i] - l, j) && Ranked(a, sizes[..], c, j)
      {
        HandedRoom(a, sizes[..], c, i, c[i] - l, j, limit);
        HandedBounded(a, sizes[..], c, i, c[i] - l, j);
        HandedStep(a, sizes[..], c, i, c[i] - l, j);
        RankedStep(a, sizes[..], c, i, c[i] - l, j);
        ghost var before := sizes[..];
        j := j - 1;
        sizes[A[j].sym] := i;
        assert sizes[..] == before[a[j].sym := i];
        l := l - 1;
      }
      HandedBounded(a, sizes[..], c, i, c[i], j);
      HandedNext(a, sizes[..], c, i, j);
    }
    HandedAll(a, sizes[..], c, limit, j);
  }

  lemma RankedStart(A: seq<SymFreq>, sizes: seq<nat>, c: seq<int>)
    requires InRange(A, |sizes|)
    ensures Ranked(A, sizes, c, |A|)
  {
  }

  lemma NonNegativeIndex(c: seq<int>, i: nat)
    requires NonNegative(c) && i < |c|
    ensures c[i] >= 0
  {
  }

  // Source lines 875-876: how many symbols have each code length.
  method CountLengths(A: array<SymFreq>) returns (numCodes: array<int>)
    requires forall i :: 0 <= i < A.Length ==> 1 <= A[i].key <= 30
    ensures fresh(numCodes) && numCodes.Length == 33 && NonNegative(numCodes[..])
    ensures CountTo(numCodes[..], 32) == A.Length
    ensures UnitsTo(32, numCodes[..], 32) == 4 * KraftTo(30, Keys(A[..]), A.Length)
    ensures forall k :: 0 <= k < 33 ==> CountTo(numCodes[..], k) == AtMost(Keys(A[..]), k, A.Length)
    ensures (A.Length <= 1 && forall i :: 0 <= i < A.Length ==> A[i].key == 1)
            ==> forall v :: 2 <= v <= 32 ==> numCodes[v] == 0
  {
    hide AtMost, CountTo, UnitsTo, KraftTo, Pow2;
    ghost var l := Keys(A[..]);
    numCodes := new int[33](_ => 0);
    CountZero(numCodes[..], 32);
    forall k | 0 <= k < 33 ensures CountTo(numCodes[..], k) == AtMost(l, k, 0) {
      CountZero(numCodes[..], k);
      NoneAtMost(l, k);
    }
    NoKraft(l);
    for i := 0 to A.Length
      invariant Keys(A[..]) == l && NonNegative(numCodes[..])
      invariant CountTo(numCodes[..], 32) == i
      invariant UnitsTo(32, numCodes[..], 32) == 4 * KraftTo(30, l, i)
      invariant forall k :: 0 <= k < 33 ==> CountTo(numCodes[..], k) == AtMost(l, k, i)
      invariant (A.Length <= 1 && forall p :: 0 <= p < A.Length ==> A[p].key == 1)
                ==> forall v :: 2 <= v <= 32 ==> numCodes[v] == 0
    {
      ghost var c := numCodes[..];
      var v := A[i].key;
      CountUpdate(c, v, c[v] + 1, 32);
      UnitsUpdate(32, c, v, c[v] + 1, 32);
      numCodes[v] := numCodes[v] + 1;
      assert numCodes[..] == c[v := c[v] + 1];
      forall k | 0 <= k < 33 ensures CountTo(numCodes[..], k) == AtMost(l, k, i + 1) {
        CountUpdate(c, v, c[v] + 1, k);
        MoreAtMost(l, k, i);
      }
      KraftStep(l, i);
      FourTimesMore(v);
    }
  }

  lemma NoneAtMost(l: seq<nat>, v: nat)
    ensures AtMost(l, v, 0) == 0
  {
  }

  lemma MoreAtMost(l: seq<nat>, v: nat, i: nat)
    requires i < |l|
    ensures AtMost(l, v, i + 1) == AtMost(l, v, i) + (if l[i] <= v then 1 else 0)
  {
  }

  lemma NoKraft(l: seq<nat>)
    ensures KraftTo(30, l, 0) == 0
  {
  }

  lemma FourTimesMore(v: nat)
    requires v <= 30
    ensures Pow2(32 - v) == 4 * Pow2(30 - v)
  {
    Pow2Add(2, 30 - v);
    assert Pow2(2) == 4;
  }

  lemma {:induction false} CountZero(c: seq<int>, k: nat)
    requires k < |c| == 33 && forall i :: 0 <= i < |c| ==> c[i] == 0
    ensures CountTo(c, k) == 0 && UnitsTo(32, c, k) == 0
  {
    if k > 0 {
      CountZero(c, k - 1);
    }
  }

  lemma {:induction false} CountTail(c: seq<int>, j: nat, k: nat)
    requires j <= k < |c| && forall v :: j < v <= k ==> c[v] == 0
    ensures CountTo(c, j) == CountTo(c, k)
    decreases k
  {
    if j < k {
      CountTail(c, j, k - 1);
    }
  }

  // ---------------------------------------------------------------------------------
  // Sorting keeps the facts about the symbols.

  lemma {:induction false} KeySumConcat(s: seq<SymFreq>, t: seq<SymFreq>)
    ensures SumTo(Keys(s + t), |s + t|) == SumTo(Keys(s), |s|) + SumTo(Keys(t), |t|)
  {
    if t == [] {
      assert s + t == s;
    } else {
      var t' := t[..|t| - 1];
      KeySumConcat(s, t');
      assert (s + t)[..|s + t| - 1] == s + t';
      KeySumLast(s + t);
      KeySumLast(t);
    }
  }

  lemma KeySumLast(s: seq<SymFreq>)
    requires s != []
    ensures SumTo(Keys(s), |s|) == SumTo(Keys(s[..|s| - 1]), |s| - 1) + s[|s| - 1].key
  {
    assert Keys(s)[..|s| - 1] == Keys(s[..|s| - 1])[..|s| - 1];
    SumToPrefix(Keys(s), Keys(s[..|s| - 1]), |s| - 1);
  }

  lemma PermutedMembers(s: seq<SymFreq>, t: seq<SymFreq>)
    requires multiset(s) == multiset(t)
    ensures |s| == |t| && forall x :: x in t <==> x in s
  {
    assert |s| == |multiset(s)| == |multiset(t)| == |t|;
    forall x
      ensures x in t <==> x in s
    {
      assert x in s <==> x in multiset(s);
      assert x in t <==> x in multiset(t);
    }
  }

  lemma {:induction false} PermutedSum(s: seq<SymFreq>, t: seq<SymFreq>)
    requires multiset(s) == multiset(t)
    ensures |s| == |t| && SumTo(Keys(s), |s|) == SumTo(Keys(t), |t|)
    decreases |s|
  {
    hide SumTo;
    PermutedMembers(s, t);
    if s != [] {
      var x, r := s[|s| - 1], s[..|s| - 1];
      assert s == r + [x];
      var i := RemoveOne(x, t);
      var a, b := t[..i], t[i + 1..];
      PermutedSum(r, a + b);
      KeySumConcat(a, b);
      KeySumConcat(a, [x]);
      KeySumConcat(a + [x], b);
      KeySumConcat(r, [x]);
    } else {
      assert t == [];
    }
  }

  lemma {:induction false} PermutedDistinct(s: seq<SymFreq>, t: seq<SymFreq>)
    requires multiset(s) == multiset(t) && Distinct(s)
    ensures Distinct(t)
    decreases |s|
  {
    PermutedMembers(s, t);
    if s != [] {
      var x, r := s[|s| - 1], s[..|s| - 1];
      assert s == r + [x];
      DistinctPrefix(r, x);
      hide Distinct;
      var i := RemoveOne(x, t);
      var a, b := t[..i], t[i + 1..];
      PermutedDistinct(r, a + b);
      PermutedMembers(r, a + b);
      SplitDistinct(a, b, x, r);
    }
  }

  lemma DistinctPrefix(r: seq<SymFreq>, x: SymFreq)
    requires Distinct(r + [x])
    ensures Distinct(r)
  {
    forall i, j | 0 <= i < j < |r|
      ensures r[i].sym != r[j].sym
    {
      assert (r + [x])[i] == r[i] && (r + [x])[j] == r[j];
    }
  }

  lemma SplitDistinct(a: seq<SymFreq>, b: seq<SymFreq>, x: SymFreq, r: seq<SymFreq>)
    requires Distinct(a + b) && Distinct(r + [x])
    requires forall y :: y in a + b <==> y in r
    ensures Distinct(a + [x] + b)
  {
    forall y | y in a + b
      ensures y.sym != x.sym
    {
      var k :| 0 <= k < |r| && r[k] == y;
      assert (r + [x])[k].sym != (r + [x])[|r|].sym;
    }
    forall i, j | 0 <= i < j < |a + [x] + b|
      ensures (a + [x] + b)[i].sym != (a + [x] + b)[j].sym
    {
      var t := a + [x] + b;
      if i == |a| {
        assert t[j] in a + b;
      } else if j == |a| {
        assert t[i] in a + b;
      } else {
        var i', j' := if i < |a| then i else i - 1, if j < |a| then j else j - 1;
        assert (a + b)[i'] == t[i] && (a + b)[j'] == t[j];
      }
    }
  }

  // ---------------------------------------------------------------------------------
  // The whole function.

  function Count(counts: seq<U16>, k: nat): (r: nat)
    requires k <= |counts|
  {
    if k == 0 then 0 else Count(counts, k - 1) + counts[k - 1]
  }

  // The sizes that a table of counts must get.
  ghost predicate TableFor(counts: seq<U16>, sizes: seq<nat>, limit: nat)
  {
    && |sizes| == |counts| && Feasible(limit, sizes)
    && (forall i :: 0 <= i < |sizes| ==> (sizes[i] > 0 <==> counts[i] > 0))
    && (forall i, j :: 0 <= i < j < |sizes| && counts[i] > 0 && counts[j] > 0 ==> Complete(limit, sizes))
    && (forall i, j :: 0 <= i < |sizes| && 0 <= j < |sizes| && 0 < counts[i] < counts[j] ==> sizes[i] >= sizes[j])
  }

  // The used symbols with their counts, in symbol order (source lines 863-870).
  ghost predicate Collected(counts: seq<U16>, s: seq<SymFreq>, k: nat)
    requires k <= |counts|
  {
    && (forall i :: 0 <= i < |s| ==> s[i].sym < k && s[i].key == counts[s[i].sym] > 0)
    && (forall i, j :: 0 <= i < j < |s| ==> s[i].sym < s[j].sym)
    && (forall x :: 0 <= x < k && counts[x] > 0 ==> exists i :: 0 <= i < |s| && s[i].sym == x)
  }

  lemma CollectedSnoc(counts: seq<U16>, s: seq<SymFreq>, k: nat)
    requires k < |counts| < 0x1_0000 && Collected(counts, s, k)
    ensures Collected(counts, if counts[k] > 0 then s + [SymFreq(counts[k], k)] else s, k + 1)
  {
    var t := if counts[k] > 0 then s + [SymFreq(counts[k], k)] else s;
    forall x | 0 <= x < k + 1 && counts[x] > 0
      ensures exists i :: 0 <= i < |t| && t[i].sym == x
    {
      if x < k {
        var i :| 0 <= i < |s| && s[i].sym == x;
        assert t[i].sym == x;
      } else {
        assert t[|s|].sym == x;
      }
    }
  }

  method CollectSyms(counts: array<U16>) returns (syms: seq<SymFreq>)
    requires counts.Length < 0x1_0000
    ensures Collected(counts[..], syms, counts.Length)
    ensures SumTo(Keys(syms), |syms|) == Count(counts[..], counts.Length) && |syms| <= counts.Length
  {
    hide Collected;
    syms := [];
    assert Collected(counts[..], [], 0) by { CollectedNone(counts[..]); }
    for i := 0 to counts.Length
      invariant Collected(counts[..], syms, i) && |syms| <= i
      invariant SumTo(Keys(syms), |syms|) == Count(counts[..], i)
    {
      CollectedSnoc(counts[..], syms, i);
      if counts[i] != 0 {
        KeySumLast(syms + [SymFreq(counts[i], i)]);
        assert (syms + [SymFreq(counts[i], i)])[..|syms|] == syms;
        syms := syms + [SymFreq(counts[i], i)];
      }
    }
  }

  lemma CollectedNone(counts: seq<U16>)
    ensures Collected(counts, [], 0)
  {
  }

  lemma {:induction false} UnitsAtMost(m: nat, c: seq<int>, k: nat)
    requires NonNegative(c) && k <= m && k < |c|
    ensures 0 <= UnitsTo(m, c, k) <= CountTo(c, k) * Pow2(m)
  {
    if k > 0 {
      UnitsAtMost(m, c, k - 1);
      Pow2Monotone(m - k, m);
      Distribute(CountTo(c, k - 1), c[k], Pow2(m));
      Scale(c[k], 0, Pow2(m - k));
      Scale(c[k], Pow2(m - k), Pow2(m));
    }
  }

  // What the limited counts say about the space of the finished table.
  lemma HandedSpace(A: seq<SymFreq>, sizes: seq<nat>, c: seq<int>, limit: nat)
    requires AllHanded(A, sizes, c, limit) && NonNegative(c) && CountTo(c, limit) == |A|
    requires |A| > 1 ==> UnitsTo(limit, c, limit) == Pow2(limit)
    ensures Feasible(limit, sizes) && (|A| > 1 ==> Complete(limit, sizes))
  {
    hide UnitsTo, CountTo, Below, Num;
    SpaceFromCounts(limit, sizes, c, limit);
    UnitsAtMost(limit, c, limit);
    if |A| == 1 {
      assert 1 * Pow2(limit) == Pow2(limit);
    }
  }

  lemma CollectedDistinct(counts: seq<U16>, s: seq<SymFreq>)
    requires Collected(counts, s, |counts|)
    ensures Distinct(s)
  {
  }

  // Where symbol x of the table stands among the sorted symbols.
  lemma Position(counts: seq<U16>, s: seq<SymFreq>, t: seq<SymFreq>, x: nat) returns (p: nat)
    requires Collected(counts, s, |counts|) && multiset(s) == multiset(t)
    requires x < |counts| && counts[x] > 0
    ensures p < |t| && t[p].sym == x && t[p].key == counts[x]
  {
    PermutedMembers(s, t);
    var i :| 0 <= i < |s| && s[i].sym == x;
    assert s[i] in t;
    p :| 0 <= p < |t| && t[p] == s[i];
  }

  lemma TableFromHanded(counts: seq<U16>, s: seq<SymFreq>, t: seq<SymFreq>, A: seq<SymFreq>, sizes: seq<nat>,
      c: seq<int>, limit: nat)
    requires Collected(counts, s, |counts|) && multiset(s) == multiset(t) && SortedByKey(t) && SameSyms(t, A)
    requires |sizes| == |counts| && AllHanded(A, sizes, c, limit)
    requires Feasible(limit, sizes) && (|A| > 1 ==> Complete(limit, sizes))
    ensures TableFor(counts, sizes, limit)
  {
    hide Collected, Feasible, Complete;
    PermutedMembers(s, t);
    forall i | 0 <= i < |sizes|
      ensures sizes[i] > 0 <==> counts[i] > 0
    {
      if counts[i] > 0 {
        var p := Position(counts, s, t, i);
        assert A[p].sym == i;
      } else if sizes[i] > 0 {
        var p :| 0 <= p < |A| && A[p].sym == i;
        assert t[p] in s;
        CollectedKey(counts, s, t[p]);
      }
    }
    forall i, j | 0 <= i < j < |sizes| && counts[i] > 0 && counts[j] > 0
      ensures Complete(limit, sizes)
    {
      var p := Position(counts, s, t, i);
      var q := Position(counts, s, t, j);
    }
    forall i, j | 0 <= i < |sizes| && 0 <= j < |sizes| && 0 < counts[i] < counts[j]
      ensures sizes[i] >= sizes[j]
    {
      var p := Position(counts, s, t, i);
      var q := Position(counts, s, t, j);
      KeyOrder(t, p, q);
      assert A[p].sym == i && A[q].sym == j;
    }
  }

  lemma KeyOrder(t: seq<SymFreq>, p: nat, q: nat)
    requires SortedByKey(t) && p < |t| && q < |t| && t[p].key < t[q].key
    ensures p < q
  {
  }

  lemma CollectedKey(counts: seq<U16>, s: seq<SymFreq>, x: SymFreq)
    requires Collected(counts, s, |counts|) && x in s
    ensures x.sym < |counts| && counts[x.sym] > 0
  {
  }

  // What sorting hands to the code-length computation.
  lemma SortedReady(counts: seq<U16>, s: seq<SymFreq>, t: seq<SymFreq>)
    requires Collected(counts, s, |counts|) && multiset(s) == multiset(t) && SortedByKey(t)
    ensures |t| == |s| && AscendingPositive(Keys(t)) && Distinct(t) && InRange(t, |counts|)
    ensures SumTo(Keys(t), |t|) == SumTo(Keys(s), |s|)
  {
    hide SumTo;
    PermutedMembers(s, t);
    PermutedSum(s, t);
    CollectedDistinct(counts, s);
    PermutedDistinct(s, t);
    forall i | 0 <= i < |t|
      ensures t[i].key > 0 && t[i].sym < |counts|
    {
      assert t[i] in s;
    }
  }

  lemma RenamedReady(t: seq<SymFreq>, A: seq<SymFreq>, n: nat)
    requires SameSyms(t, A) && Distinct(t) && InRange(t, n)
    ensures Distinct(A) && InRange(A, n)
  {
  }

  lemma LengthsKnown(w: seq<nat>, A: seq<SymFreq>)
    requires |w| == |A| && (|A| == 1 ==> A[0].key == 1) && (|A| >= 2 ==> MinimumRedundancy(w, Keys(A)))
    ensures forall i :: 0 <= i < |A| ==> 1 <= A[i].key <= 30
    ensures |A| > 1 ==> 4 * KraftTo(30, Keys(A), |A|) == Pow2(32)
  {
    hide KraftTo, DotTo, MinimumRedundancy, Pow2;
    if |A| >= 2 {
      MinimumParts(w, Keys(A));
    }
    forall i | 0 <= i < |A|
      ensures 1 <= A[i].key <= 30
    {
      assert Keys(A)[i] == A[i].key;
    }
    FourTimes();
  }

  lemma FourTimes()
    ensures 4 * Pow2(30) == Pow2(32)
  {
    Pow2Add(2, 30);
    assert Pow2(2) == 4;
  }

  lemma MinimumParts(w: seq<nat>, l: seq<nat>)
    requires MinimumRedundancy(w, l)
    ensures |l| == |w| && (forall i :: 0 <= i < |l| ==> 1 <= l[i] <= 30) && KraftTo(30, l, |l|) == Pow2(30)
    ensures Descending(l) && forall i :: 0 <= i < |l| ==> Fib(l[i] - 1) * w[i] <= SumTo(w, |w|)
  {
    hide KraftTo, DotTo, Pow2, SumTo, Fib;
  }

  // ---------------------------------------------------------------------------------
  // What a table costs.

  // The bits that the first k symbols take with the sizes g.
  ghost function Cost(counts: seq<U16>, g: seq<nat>, k: nat): (r: nat)
    requires k <= |counts| == |g|
  {
    if k == 0 then 0 else Cost(counts, g, k - 1) + counts[k - 1] * g[k - 1]
  }

  // Sizes of at least 1 and at most m for the symbols in use.
  ghost predicate Allowed(m: nat, counts: seq<U16>, g: seq<nat>)
  {
    |g| == |counts| && forall x :: 0 <= x < |g| && counts[x] > 0 ==> 1 <= g[x] <= m
  }

  ghost function SpaceOf(m: nat, counts: seq<U16>, g: seq<nat>, k: nat): (r: nat)
    requires Allowed(m, counts, g) && k <= |counts|
  {
    if k == 0 then 0 else SpaceOf(m, counts, g, k - 1) + (if counts[k - 1] > 0 then Pow2(m - g[k - 1]) else 0)
  }

  ghost predicate HardlyDearer(m: nat, counts: seq<U16>, sizes: seq<nat>, g: seq<nat>)
    requires |sizes| == |counts| == |g|
  {
    Allowed(m, counts, g) && SpaceOf(m, counts, g, |counts|) <= Pow2(m) ==>
      176 * Cost(counts, sizes, |counts|) <= 176 * Cost(counts, g, |counts|) + |counts| * Count(counts, |counts|)
  }

  // The sizes cost at most one bit for each 176 symbols of the table and each occurrence more than
  // the sizes of any prefix code.
  ghost predicate NearOptimal(counts: seq<U16>, sizes: seq<nat>)
  {
    |sizes| == |counts| && forall m: nat, g: seq<nat> :: |g| == |counts| ==> HardlyDearer(m, counts, sizes, g)
  }

  // The last symbol comes last, if it is in use.
  lemma CollectedLast(counts: seq<U16>, s: seq<SymFreq>, k: nat)
    requires 0 < k <= |counts| && Collected(counts, s, k) && counts[k - 1] > 0
    ensures |s| > 0 && s[|s| - 1].key == counts[k - 1] && s[|s| - 1].sym == k - 1
  {
    var i :| 0 <= i < |s| && s[i].sym == k - 1;
    assert s[|s| - 1].sym < k;
  }

  lemma CollectedFront(counts: seq<U16>, s: seq<SymFreq>, k: nat)
    requires 0 < k <= |counts| && Collected(counts, s, k) && |s| > 0 && s[|s| - 1].sym == k - 1
    ensures Collected(counts, s[..|s| - 1], k - 1)
  {
    var r := s[..|s| - 1];
    forall x | 0 <= x < k - 1 && counts[x] > 0
      ensures exists j :: 0 <= j < |r| && r[j].sym == x
    {
      var j :| 0 <= j < |s| && s[j].sym == x;
      assert r[j].sym == x;
    }
  }

  lemma CollectedUnused(counts: seq<U16>, s: seq<SymFreq>, k: nat)
    requires 0 < k <= |counts| && Collected(counts, s, k) && counts[k - 1] == 0
    ensures Collected(counts, s, k - 1)
  {
    forall i | 0 <= i < |s| ensures s[i].sym < k - 1 {
      assert counts[s[i].sym] > 0;
    }
  }

  lemma CollectedSized(m: nat, counts: seq<U16>, s: seq<SymFreq>, k: nat, g: seq<nat>)
    requires k <= |counts| && Collected(counts, s, k) && Allowed(m, counts, g)
    ensures Sized(m, s, g)
  {
  }

  lemma {:induction false} CollectedSums(m: nat, counts: seq<U16>, s: seq<SymFreq>, k: nat, g: seq<nat>)
    requires k <= |counts| && Collected(counts, s, k) && Allowed(m, counts, g)
    ensures Sized(m, s, g) && Weighed(s, g) == Cost(counts, g, k) && Taken(m, s, g) == SpaceOf(m, counts, g, k)
  {
    hide Collected, Allowed;
    CollectedSized(m, counts, s, k, g);
    if k > 0 && counts[k - 1] > 0 {
      CollectedLast(counts, s, k);
      CollectedFront(counts, s, k);
      CollectedSums(m, counts, s[..|s| - 1], k - 1, g);
    } else if k > 0 {
      CollectedUnused(counts, s, k);
      CollectedSums(m, counts, s, k - 1, g);
    } else {
      CollectedNothing(counts, s);
    }
  }

  lemma CollectedNothing(counts: seq<U16>, s: seq<SymFreq>)
    requires Collected(counts, s, 0)
    ensures s == []
  {
    assert s != [] ==> s[0].sym < 0;
  }

  // A table's cost and space, from any order of its symbols.
  lemma TableSums(m: nat, counts: seq<U16>, s: seq<SymFreq>, t: seq<SymFreq>, g: seq<nat>)
    requires Collected(counts, s, |counts|) && multiset(s) == multiset(t) && Allowed(m, counts, g)
    ensures Sized(m, t, g) && DotTo(Keys(t), SizesOf(t, g), |t|) == Cost(counts, g, |counts|)
    ensures KraftTo(m, SizesOf(t, g), |t|) == SpaceOf(m, counts, g, |counts|)
  {
    hide Collected, Allowed, Cost, SpaceOf, DotTo, KraftTo, Weighed, Taken;
    CollectedSums(m, counts, s, |counts|, g);
    PermutedSums(m, s, t, g);
    SumsAreProducts(m, t, g, |t|);
    assert t[..|t|] == t;
  }

  lemma {:induction false} RankCounts(f: seq<nat>, c: seq<int>, v: nat, k: nat)
    requires k <= |f| && v < |c| && 0 <= CountTo(c, v) <= |f|
    requires forall p :: 0 <= p < |f| ==> (f[p] <= v <==> |f| - p <= CountTo(c, v))
    ensures AtMost(f, v, k) == if k + CountTo(c, v) <= |f| then 0 else k + CountTo(c, v) - |f|
  {
    hide CountTo;
    if k > 0 {
      RankCounts(f, c, v, k - 1);
    }
  }

  // The sizes handed out, in the order of the sorted symbols.
  lemma HandedSizes(A: seq<SymFreq>, sizes: seq<nat>, c: seq<int>)
    requires AllHanded(A, sizes, c, LIMIT) && Ranked(A, sizes, c, 0) && NonNegative(c)
    requires |c| > LIMIT && CountTo(c, LIMIT) == |A|
    ensures InRange(A, |sizes|)
    ensures var f := SizesOf(A, sizes);
            Descending(f) && (forall i :: 0 <= i < |f| ==> 1 <= f[i] <= LIMIT) && CountsOf(c, f)
  {
    hide CountTo, AtMost, Num, NonNegative;
    var f := SizesOf(A, sizes);
    forall v | 0 <= v < LIMIT ensures CountTo(c, v) == AtMost(f, v, |f|) {
      CountNonNegative(c, v, LIMIT);
      forall p | 0 <= p < |f| ensures f[p] <= v <==> |f| - p <= CountTo(c, v) {
        if f[p] <= v {
          CountNonNegative(c, f[p], v);
        } else {
          CountNonNegative(c, v, f[p] - 1);
        }
      }
      RankCounts(f, c, v, |f|);
    }
  }

  // What is known of the sorted symbols t, their least sizes and the counts before and after limiting.
  ghost predicate Limitable(t: seq<SymFreq>, A: seq<SymFreq>, c0: seq<int>, c: seq<int>)
  {
    && SameSyms(t, A) && |c0| > LIMIT && CountsOf(c0, Keys(A)) && MinimumRedundancy(Keys(t), Keys(A))
    && exists kept :: Lowered(LIMIT, |A|, c0, c, kept)
  }

  lemma SortedNearLeast(t: seq<SymFreq>, A: seq<SymFreq>, sizes: seq<nat>, c0: seq<int>, c: seq<int>)
    requires Limitable(t, A, c0, c) && AllHanded(A, sizes, c, LIMIT) && Ranked(A, sizes, c, 0) && NonNegative(c)
    requires |c| > LIMIT && CountTo(c, LIMIT) == |A|
    ensures InRange(t, |sizes|)
    ensures 176 * DotTo(Keys(t), SizesOf(t, sizes), |t|)
            <= 176 * DotTo(Keys(t), Keys(A), |t|) + |t| * SumTo(Keys(t), |t|)
  {
    hide AllHanded, Ranked, NonNegative, CountTo, DotTo, SumTo, Limitable, Limited, CountsOf, Descending, SameSyms;
    HandedSizes(A, sizes, c);
    SameSizes(t, A, sizes, c0, c);
    var kept := LimitableMeans(t, A, SizesOf(A, sizes), c0, c);
    LimitingCosts(Keys(t), Keys(A), SizesOf(A, sizes), c0, c, kept);
  }

  lemma SameSizes(t: seq<SymFreq>, A: seq<SymFreq>, sizes: seq<nat>, c0: seq<int>, c: seq<int>)
    requires Limitable(t, A, c0, c) && InRange(A, |sizes|)
    ensures |t| == |A| && InRange(t, |sizes|) && SizesOf(t, sizes) == SizesOf(A, sizes)
  {
    hide CountsOf, MinimumRedundancy, Lowered;
  }

  lemma LimitableMeans(t: seq<SymFreq>, A: seq<SymFreq>, f: seq<nat>, c0: seq<int>, c: seq<int>) returns (kept: int)
    requires Limitable(t, A, c0, c) && |f| == |A|
    requires Descending(f) && (forall i :: 0 <= i < |f| ==> 1 <= f[i] <= LIMIT) && |c| > LIMIT && CountsOf(c, f)
    ensures Limited(Keys(t), Keys(A), f, c0, c, kept)
  {
    hide Lowered, CountsOf, KraftTo, SumTo, Fib, MinimumRedundancy;
    MinimumParts(Keys(t), Keys(A));
    kept :| Lowered(LIMIT, |A|, c0, c, kept);
  }

  // A table with one symbol or none costs no more than any other.
  lemma FewNearOptimal(counts: seq<U16>, s: seq<SymFreq>, t: seq<SymFreq>, sizes: seq<nat>)
    requires Collected(counts, s, |counts|) && multiset(s) == multiset(t) && |t| <= 1 && |sizes| == |counts|
    requires Allowed(LIMIT, counts, sizes) && forall i :: 0 <= i < |t| ==> t[i].sym < |sizes| && sizes[t[i].sym] == 1
    ensures NearOptimal(counts, sizes)
  {
    hide Collected, Allowed, HardlyDearer, SameSyms;
    forall m: nat, g: seq<nat> | |g| == |counts| ensures HardlyDearer(m, counts, sizes, g) {
      FewHardlyDearer(m, counts, s, t, sizes, g);
    }
  }

  lemma FewHardlyDearer(m: nat, counts: seq<U16>, s: seq<SymFreq>, t: seq<SymFreq>, sizes: seq<nat>, g: seq<nat>)
    requires Collected(counts, s, |counts|) && multiset(s) == multiset(t) && |t| <= 1 && |sizes| == |counts| == |g|
    requires Allowed(LIMIT, counts, sizes) && forall i :: 0 <= i < |t| ==> t[i].sym < |sizes| && sizes[t[i].sym] == 1
    ensures HardlyDearer(m, counts, sizes, g)
  {
    hide Collected, Allowed, Cost, SpaceOf, Count, KraftTo, DotTo, Pow2;
    if Allowed(m, counts, g) {
      TableSums(LIMIT, counts, s, t, sizes);
      TableSums(m, counts, s, t, g);
      Scale(Count(counts, |counts|), 0, |counts|);
      if |t| == 1 {
        OneProduct(Keys(t), SizesOf(t, sizes));
        OneProduct(Keys(t), SizesOf(t, g));
        OneUsed(m, counts, s, t, g);
        MulLe(t[0].key, 1, g[t[0].sym]);
      } else {
        NoProduct(Keys(t), SizesOf(t, sizes));
      }
    }
  }

  lemma NoProduct(w: seq<nat>, f: seq<nat>)
    ensures DotTo(w, f, 0) == 0
  {
  }

  lemma OneProduct(w: seq<nat>, f: seq<nat>)
    requires |w| == |f| == 1
    ensures DotTo(w, f, 1) == w[0] * f[0]
  {
    assert DotTo(w, f, 0) == 0;
  }

  lemma OneUsed(m: nat, counts: seq<U16>, s: seq<SymFreq>, t: seq<SymFreq>, g: seq<nat>)
    requires Collected(counts, s, |counts|) && multiset(s) == multiset(t) && |t| == 1 && Allowed(m, counts, g)
    ensures t[0].sym < |g| && g[t[0].sym] >= 1
  {
    assert t[0] in multiset(s);
    assert t[0] in s;
  }

  // With limiting to 15 bits the sizes of a table cost little more than the least there can be.
  lemma TableNearOptimal(counts: seq<U16>, s: seq<SymFreq>, t: seq<SymFreq>, A: seq<SymFreq>, sizes: seq<nat>,
                         c0: seq<int>, c: seq<int>)
    requires Collected(counts, s, |counts|) && multiset(s) == multiset(t) && Limitable(t, A, c0, c)
    requires |sizes| == |counts| && AllHanded(A, sizes, c, LIMIT) && Ranked(A, sizes, c, 0) && NonNegative(c)
    requires |c| > LIMIT && CountTo(c, LIMIT) == |A| && Allowed(LIMIT, counts, sizes)
    requires SumTo(Keys(t), |t|) == Count(counts, |counts|) && |t| <= |counts|
    ensures NearOptimal(counts, sizes)
  {
    hide Collected, Allowed, Cost, Count, AllHanded, Ranked, NonNegative, CountTo, DotTo, SumTo, Limitable,
         HardlyDearer;
    TableSums(LIMIT, counts, s, t, sizes);
    SortedNearLeast(t, A, sizes, c0, c);
    LimitableLength(t, A, c0, c);
    MoreSymbols(Cost(counts, sizes, |counts|), DotTo(Keys(t), Keys(A), |t|), |t|, |counts|, Count(counts, |counts|));
    forall m: nat, g: seq<nat> | |g| == |counts| ensures HardlyDearer(m, counts, sizes, g) {
      NoneCheaper(m, counts, s, t, A, c0, c, sizes, g);
    }
  }

  lemma LimitableLength(t: seq<SymFreq>, A: seq<SymFreq>, c0: seq<int>, c: seq<int>)
    requires Limitable(t, A, c0, c)
    ensures |t| == |A|
  {
    hide CountsOf, MinimumRedundancy, Lowered;
  }

  lemma MoreSymbols(x: nat, y: nat, n: nat, k: nat, total: nat)
    requires 176 * x <= 176 * y + n * total && n <= k
    ensures 176 * x <= 176 * y + k * total
  {
    MulMonotone(total, n, k);
  }

  lemma NoneCheaper(m: nat, counts: seq<U16>, s: seq<SymFreq>, t: seq<SymFreq>, A: seq<SymFreq>, c0: seq<int>,
      c: seq<int>,
                    sizes: seq<nat>, g: seq<nat>)
    requires Collected(counts, s, |counts|) && multiset(s) == multiset(t) && Limitable(t, A, c0, c)
    requires |g| == |counts| == |sizes| && |Keys(A)| == |t|
    requires 176 * Cost(counts, sizes, |counts|)
             <= 176 * DotTo(Keys(t), Keys(A), |t|) + |counts| * Count(counts, |counts|)
    ensures HardlyDearer(m, counts, sizes, g)
  {
    hide Collected, Allowed, Cost, SpaceOf, KraftTo, DotTo, Limitable, Count, Pow2;
    if Allowed(m, counts, g) && SpaceOf(m, counts, g, |counts|) <= Pow2(m) {
      TableSums(m, counts, s, t, g);
      LeastOf(t, A, c0, c, m, SizesOf(t, g));
    }
  }

  lemma LeastOf(t: seq<SymFreq>, A: seq<SymFreq>, c0: seq<int>, c: seq<int>, m: nat, k: seq<nat>)
    requires Limitable(t, A, c0, c)
    requires |k| == |t| && (forall i :: 0 <= i < |k| ==> k[i] <= m) && KraftTo(m, k, |k|) <= Pow2(m)
    ensures |t| == |A| && DotTo(Keys(t), Keys(A), |t|) <= DotTo(Keys(t), k, |t|)
  {
    hide KraftTo, DotTo, SumTo, Fib, Lowered, CountsOf;
  }

  // Sorting the used symbols and finding their least code lengths (source lines 863-876).
  method LeastLengths(counts: array<U16>) returns (A: array<SymFreq>, ghost syms: seq<SymFreq>, ghost t: seq<SymFreq>)
    requires counts.Length < 0x1_0000 && Count(counts[..], counts.Length) < 0x1_0000
    ensures fresh(A) && Collected(counts[..], syms, counts.Length) && multiset(syms) == multiset(t) && SortedByKey(t)
    ensures SameSyms(t, A[..]) && Distinct(A[..]) && InRange(A[..], counts.Length) && |t| <= counts.Length
    ensures A.Length == 1 ==> A[0].key == 1
    ensures A.Length >= 2 ==> MinimumRedundancy(Keys(t), Keys(A[..]))
    ensures SumTo(Keys(t), |t|) == Count(counts[..], counts.Length)
  {
    hide Collected, AscendingPositive, SumTo, Distinct, InRange, SortedByKey, MinimumRedundancy, Count, SameSyms;
    ghost var cs := counts[..];
    var used := CollectSyms(counts);
    syms := used;
    var n := |used|;
    var syms0 := new SymFreq[n](i requires 0 <= i < n => used[i]);
    var syms1 := new SymFreq[n](i requires 0 <= i < n => used[i]);
    assert syms0[..] == syms;
    A := RadixSortSyms(syms0, syms1);
    t := A[..];
    SortedReady(cs, syms, t);
    CalculateMinimumRedundancy(A);
    RenamedReady(t, A[..], counts.Length);
  }

  // Code sizes for counted symbols (source lines 862-885).
  method OptimizeSizes(counts: array<U16>, sizes: array<nat>, limit: nat) returns (numCodes: array<int>)
    requires counts.Length == sizes.Length < 0x1_0000 && counts.Length <= Pow2(limit) && 1 <= limit < 32
    requires Count(counts[..], counts.Length) < 0x1_0000
    modifies sizes
    ensures TableFor(counts[..], sizes[..], limit) && (limit == LIMIT ==> NearOptimal(counts[..], sizes[..]))
    ensures fresh(numCodes) && numCodes.Length == 33
    ensures forall v :: 1 <= v <= limit ==> numCodes[v] == Num(sizes[..], v, sizes.Length)
  {
    hide Collected, SumTo, Distinct, InRange, SortedByKey, MinimumRedundancy, Ranked, Lowered, AtMost, NearOptimal;
    hide UnitsTo, CountTo, NonNegative, TableFor, KraftTo, Count, Feasible, Complete, Num, SameSyms, Pow2;
    ghost var cs := counts[..];
    ghost var syms, t;
    var A;
    A, syms, t := LeastLengths(counts);
    var n := A.Length;
    SameLength(t, A[..]);
    LengthsKnown(Keys(t), A[..]);
    numCodes := CountLengths(A);
    ShortCount(numCodes[..], limit, n);
    ghost var c0 := numCodes[..];
    EnforceMaxCodeSize(numCodes, n, limit);
    ghost var a, nc := A[..], numCodes[..];
    forall i | 0 <= i < sizes.Length {
      sizes[i] := 0;
    }
    assert A[..] == a && numCodes[..] == nc;
    AssignSizes(A, numCodes, sizes, limit);
    assert A[..] == a && numCodes[..] == nc && counts[..] == cs;
    TableMade(cs, syms, t, a, sizes[..], c0, nc, limit);
  }

  lemma SameLength(t: seq<SymFreq>, A: seq<SymFreq>)
    requires SameSyms(t, A)
    ensures |t| == |A|
  {
  }

  // The finished sizes are what they should be.
  lemma TableMade(counts: seq<U16>, s: seq<SymFreq>, t: seq<SymFreq>, A: seq<SymFreq>, sizes: seq<nat>, c0: seq<int>,
                  c: seq<int>, limit: nat)
    requires Collected(counts, s, |counts|) && multiset(s) == multiset(t) && SortedByKey(t) && SameSyms(t, A)
    requires |sizes| == |counts| && |t| <= |counts| && AllHanded(A, sizes, c, limit) && Ranked(A, sizes, c, 0)
    requires |c0| == |c| == 33 && NonNegative(c) && CountTo(c, limit) == |A|
    requires |A| > 1 ==> UnitsTo(limit, c, limit) == Pow2(limit)
    requires |A| > 1 ==> MinimumRedundancy(Keys(t), Keys(A)) && exists kept :: Lowered(limit, |A|, c0, c, kept)
    requires |A| <= 1 ==> forall v :: 2 <= v <= 32 ==> c[v] == 0
    requires (forall k :: 0 <= k < 33 ==> CountTo(c0, k) == AtMost(Keys(A), k, |A|))
    requires SumTo(Keys(t), |t|) == Count(counts, |counts|)
    ensures TableFor(counts, sizes, limit) && (limit == LIMIT ==> NearOptimal(counts, sizes))
  {
    hide Collected, SumTo, SortedByKey, MinimumRedundancy, Ranked, Lowered, AtMost, NearOptimal, AllHanded;
    hide UnitsTo, CountTo, NonNegative, TableFor, Count, Feasible, Complete, SameSyms;
    SameLength(t, A);
    HandedSpace(A, sizes, c, limit);
    TableFromHanded(counts, s, t, A, sizes, c, limit);
    if limit == LIMIT {
      TableAllows(counts, sizes);
      if |A| > 1 {
        TableNearOptimal(counts, s, t, A, sizes, c0, c);
      } else {
        OneBitEach(t, A, sizes, c);
        FewNearOptimal(counts, s, t, sizes);
      }
    }
  }

  lemma TableAllows(counts: seq<U16>, sizes: seq<nat>)
    requires TableFor(counts, sizes, LIMIT)
    ensures Allowed(LIMIT, counts, sizes)
  {
    hide Complete;
  }

  lemma OneBitEach(t: seq<SymFreq>, A: seq<SymFreq>, sizes: seq<nat>, c: seq<int>)
    requires SameSyms(t, A) && |A| <= 1 && AllHanded(A, sizes, c, LIMIT) && Ranked(A, sizes, c, 0)
    requires |c| == 33 && CountTo(c, LIMIT) == |A| && forall v :: 2 <= v <= 32 ==> c[v] == 0
    ensures forall i :: 0 <= i < |t| ==> t[i].sym < |sizes| && sizes[t[i].sym] == 1
  {
    hide Num, CountTo;
    forall k | 1 <= k <= LIMIT ensures CountTo(c, k) == |A| {
      CountTail(c, k, LIMIT);
    }
  }

  lemma ShortCount(c: seq<int>, limit: nat, n: nat)
    requires 1 <= limit < 32 && |c| == 33 && CountTo(c, 32) == n
    requires n <= 1 ==> forall v :: 2 <= v <= 32 ==> c[v] == 0
    ensures n <= 1 ==> CountTo(c, limit) == n
  {
    if n <= 1 {
      CountTail(c, limit, 32);
    }
  }

  // Code sizes already chosen, as for the static tables (source lines 855-859).
  method CountSizes(sizes: array<nat>) returns (numCodes: array<int>)
    requires Bounded(32, sizes[..])
    ensures fresh(numCodes) && numCodes.Length == 33
    ensures forall v :: 0 <= v <= 32 ==> numCodes[v] == Num(sizes[..], v, sizes.Length)
  {
    numCodes := new int[33](_ => 0);
    for i := 0 to sizes.Length
      invariant forall v :: 0 <= v <= 32 ==> numCodes[v] == Num(sizes[..], v, i)
    {
      numCodes[sizes[i]] := numCodes[sizes[i]] + 1;
    }
  }

  // tdefl_optimize_huffman_table for one table whose rows have the table's length.
  method OptimizeHuffmanTable(counts: array<U16>, sizes: array<nat>, codes: array<nat>, limit: nat, staticTable: bool)
    requires counts.Length == sizes.Length == codes.Length < 0x1_0000 && sizes != codes && 1 <= limit < 32
    requires staticTable ==> Feasible(limit, sizes[..])
    requires !staticTable ==> counts.Length <= Pow2(limit) && Count(counts[..], counts.Length) < 0x1_0000
    modifies sizes, codes
    ensures staticTable ==> sizes[..] == old(sizes[..])
    ensures !staticTable ==> TableFor(counts[..], sizes[..], limit)
    ensures !staticTable && limit == LIMIT ==> NearOptimal(counts[..], sizes[..])
    ensures Feasible(limit, sizes[..]) && CodesFor(sizes[..], codes[..], sizes.Length)
  {
    hide Num, CodesFor, Pow2, Count, NearOptimal;
    var numCodes;
    ghost var cs, ss := counts[..], sizes[..];
    if staticTable {
      numCodes := CountSizes(sizes);
    } else {
      numCodes := OptimizeSizes(counts, sizes, limit);
      ss := sizes[..];
      forall i | 0 <= i < codes.Length {
        codes[i] := 0;
      }
      assert sizes[..] == ss && counts[..] == cs;
    }
    AssignCodes(sizes, codes, numCodes, limit);
    assert sizes[..] == ss && counts[..] == cs;
  }
}
