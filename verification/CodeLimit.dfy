// Limiting Huffman code sizes (kernel/miniz/miniz.c:821-848).
module CodeLimit {
  import opened Arith

  const MAX_SUPPORTED_HUFF_CODESIZE := 32

  // Number of codes of sizes 1..k.
  function CountTo(c: seq<int>, k: nat): int
    requires k < |c|
  {
    if k == 0 then 0 else CountTo(c, k - 1) + c[k]
  }

  // Space they take, in units of 2^-m.
  function UnitsTo(m: nat, c: seq<int>, k: nat): int
    requires k < |c| && k <= m
  {
    if k == 0 then 0 else UnitsTo(m, c, k - 1) + c[k] * Pow2(m - k)
  }

  ghost predicate NonNegative(c: seq<int>)
  {
    forall i :: 0 <= i < |c| ==> c[i] >= 0
  }

  lemma {:induction false} CountUpdate(c: seq<int>, i: nat, v: int, k: nat)
    requires 1 <= i < |c| && k < |c|
    ensures CountTo(c[i := v], k) == CountTo(c, k) + (if i <= k then v - c[i] else 0)
  {
    if k > 0 {
      CountUpdate(c, i, v, k - 1);
    }
  }

  lemma {:induction false} UnitsUpdate(m: nat, c: seq<int>, i: nat, v: int, k: nat)
    requires 1 <= i < |c| && k < |c| && i <= m && k <= m
    ensures UnitsTo(m, c[i := v], k) == UnitsTo(m, c, k) + (if i <= k then (v - c[i]) * Pow2(m - i) else 0)
  {
    if k > 0 {
      UnitsUpdate(m, c, i, v, k - 1);
      if k == i {
        Distribute(v - c[i], c[i], Pow2(m - i));
      }
    }
  }

  lemma {:induction false} CountNonNegative(c: seq<int>, j: nat, k: nat)
    requires NonNegative(c) && j <= k < |c|
    ensures 0 <= CountTo(c, j) <= CountTo(c, k)
    decreases k
  {
    if j < k {
      CountNonNegative(c, j, k - 1);
    } else if k > 0 {
      CountNonNegative(c, j - 1, k - 1);
    }
  }

  // Counts of codes longer than m, moved to m, take at least the space they had before,
  // and less than one unit each on top of it.
  lemma {:induction false} MovedSpace(m: nat, c: seq<int>, k: nat)
    requires NonNegative(c) && 1 <= m <= k < |c| && |c| == 33
    ensures var moved := CountTo(c, k) - CountTo(c, m);
            var before := UnitsTo(32, c, k) - UnitsTo(32, c, m);
            && 0 <= before <= moved * Pow2(32 - m)
            && moved <= before
    decreases k
  {
    if k > m {
      MovedSpace(m, c, k - 1);
      var moved := CountTo(c, k - 1) - CountTo(c, m);
      Distribute(moved, c[k], Pow2(32 - m));
      Pow2Monotone(32 - k, 32 - m);
      Scale(c[k], 1, Pow2(32 - k));
      Scale(c[k], Pow2(32 - k), Pow2(32 - m));
    }
  }

  lemma Scale(c: nat, x: nat, y: nat)
    requires x <= y
    ensures c * x <= c * y
  {
  }

  lemma {:induction false} UnitsRescale(m: nat, c: seq<int>, k: nat)
    requires k <= m <= 32 && k < |c|
    ensures UnitsTo(32, c, k) == UnitsTo(m, c, k) * Pow2(32 - m)
  {
    if k > 0 {
      UnitsRescale(m, c, k - 1);
      Pow2Add(m - k, 32 - m);
      Distribute(UnitsTo(m, c, k - 1), c[k] * Pow2(m - k), Pow2(32 - m));
      Assoc(c[k], Pow2(m - k), Pow2(32 - m));
    }
  }

  lemma Assoc(x: int, y: int, z: int)
    ensures x * (y * z) == (x * y) * z
  {
  }

  // The state of the limiting loop: c takes `excess` units too many, all sizes are at most
  // m, and more codes of size m remain than units of excess.
  ghost predicate Limiting(m: nat, c: seq<int>, n: int, excess: int)
  {
    && 1 <= m < |c| && NonNegative(c)
    && CountTo(c, m) == n
    && 0 <= excess && UnitsTo(m, c, m) == Pow2(m) + excess
    && (excess > 0 ==> excess < c[m])
  }

  // Moving the longest codes to size m leaves the loop's invariant.
  lemma MovedIsLimiting(m: nat, c: seq<int>)
    requires |c| == 33 && NonNegative(c) && 1 <= m < 32
    requires UnitsTo(32, c, 32) == Pow2(32)
    ensures var moved := CountTo(c, 32) - CountTo(c, m);
            var d := c[m := c[m] + moved];
            Limiting(m, d, CountTo(c, 32), UnitsTo(m, d, m) - Pow2(m))
  {
    hide UnitsTo, CountTo, Pow2;
    var moved := CountTo(c, 32) - CountTo(c, m);
    var d := c[m := c[m] + moved];
    CountNonNegative(c, m, 32);
    CountUpdate(c, m, d[m], m);
    UnitsUpdate(m, c, m, d[m], m);
    assert Pow2(m - m) == 1 by { PowZero(); }
    MovedSpace(m, c, 32);
    UnitsRescale(m, c, m);
    Pow2Add(m, 32 - m);
    var u := Pow2(32 - m);
    var before := Pow2(32) - UnitsTo(m, c, m) * u;
    var excess := UnitsTo(m, d, m) - Pow2(m);
    assert UnitsTo(m, d, m) == UnitsTo(m, c, m) + moved;
    ExcessBound(UnitsTo(m, c, m), moved, Pow2(m), u, before);
  }

  lemma PowZero()
    ensures Pow2(0) == 1
  {
  }

  lemma Cancel(a: int, b: int, u: nat)
    requires u > 0 && a * u <= b * u
    ensures a <= b
  {
    if a > b {
      Distribute(b, a - b, u);
      Scale(u, 1, a - b);
    }
  }

  lemma ExcessBound(x: int, moved: int, p: int, u: nat, before: int)
    requires u > 0 && before == p * u - x * u && 0 <= before <= moved * u && moved <= before
    ensures 0 <= x + moved - p
    ensures 0 < x + moved - p ==> x + moved - p < moved
  {
    Distribute(x, moved, u);
    Cancel(p, x + moved, u);
    if p <= x {
      Distribute(x, p - x, u);
      Cancel(p, x, u);
      Cancel(x, p, u) by {
        assert before == 0 by {
          Scale(u, 0, x - p);
          Distribute(p, x - p, u);
        }
      }
    }
  }

  // A code shorter than m can always be lengthened while there is excess.
  lemma {:induction false} OnlyLongest(m: nat, c: seq<int>, k: nat)
    requires k < m < |c| && forall i :: 1 <= i <= k ==> c[i] == 0
    ensures CountTo(c, k) == 0 && UnitsTo(m, c, k) == 0
  {
    if k > 0 {
      OnlyLongest(m, c, k - 1);
    }
  }

  lemma ShorterExists(m: nat, c: seq<int>, n: int, excess: int)
    requires Limiting(m, c, n, excess) && excess > 0 && n <= Pow2(m)
    ensures exists i :: 1 <= i < m && c[i] != 0
  {
    PowZero();
    if forall i :: 1 <= i < m ==> c[i] == 0 {
      OnlyLongest(m, c, m - 1);
    }
  }

  // One round of the limiting loop: a code of size m and one of size i < m become two of
  // size i + 1.
  function Lengthen(m: nat, c: seq<int>, i: nat): seq<int>
    requires 1 <= i < m < |c|
  {
    var c1 := c[m := c[m] - 1];
    var c2 := c1[i := c1[i] - 1];
    c2[i + 1 := c2[i + 1] + 2]
  }

  lemma LengthenIsLimiting(m: nat, c: seq<int>, n: int, excess: int, i: nat)
    requires Limiting(m, c, n, excess) && excess > 0 && 1 <= i < m && c[i] > 0
    ensures Limiting(m, Lengthen(m, c, i), n, excess - 1)
  {
    hide CountTo, UnitsTo, Pow2;
    var c1 := c[m := c[m] - 1];
    var c2 := c1[i := c1[i] - 1];
    var d := c2[i + 1 := c2[i + 1] + 2];
    CountUpdate(c, m, c[m] - 1, m);
    CountUpdate(c1, i, c1[i] - 1, m);
    CountUpdate(c2, i + 1, c2[i + 1] + 2, m);
    UnitsUpdate(m, c, m, c[m] - 1, m);
    UnitsUpdate(m, c1, i, c1[i] - 1, m);
    UnitsUpdate(m, c2, i + 1, c2[i + 1] + 2, m);
    assert Pow2(m - m) == 1 by { PowZero(); }
    PowHalf(m - i);
    assert m - (i + 1) == m - i - 1;
  }

  lemma PowHalf(k: nat)
    requires k > 0
    ensures Pow2(k) == 2 * Pow2(k - 1)
  {
  }

  // ---------------------------------------------------------------------------------
  // What limiting does to the codes that are short enough already.

  function Lesser(a: int, b: int): int {
    if a <= b then a else b
  }

  // Space of the `most` shortest codes in units of 2^-m, beyond the one unit that a code of size m
  // takes, counted by how many of them are no longer than 1..k.
  function StairsTo(m: nat, c: seq<int>, most: int, k: nat): int
    requires k < |c| && k < m
  {
    if k == 0 then 0 else StairsTo(m, c, most, k - 1) + Lesser(CountTo(c, k), most) * Pow2(m - 1 - k)
  }

  lemma {:induction false} UnitsAreStairs(m: nat, c: seq<int>, most: int, k: nat)
    requires 1 <= k <= m < |c| && forall j :: 0 <= j < k ==> CountTo(c, j) <= most
    ensures UnitsTo(m, c, k) == CountTo(c, k) * Pow2(m - k) + StairsTo(m, c, most, k - 1)
  {
    if k > 1 {
      UnitsAreStairs(m, c, most, k - 1);
      PowHalf(m - k + 1);
      Distribute(CountTo(c, k - 1), c[k], Pow2(m - k));
      DoubleProduct(CountTo(c, k - 1), Pow2(m - k));
    }
  }

  lemma {:induction false} StairsMonotone(m: nat, c: seq<int>, most: int, d: seq<int>, most': int, k: nat)
    requires k < |c| && k < |d| && k < m
    requires forall j :: 1 <= j <= k ==> Lesser(CountTo(c, j), most) <= Lesser(CountTo(d, j), most')
    ensures StairsTo(m, c, most, k) <= StairsTo(m, d, most', k)
  {
    if k > 0 {
      StairsMonotone(m, c, most, d, most', k - 1);
      var x, y := Lesser(CountTo(c, k), most), Lesser(CountTo(d, k), most');
      Distribute(x, y - x, Pow2(m - 1 - k));
      Scale(y - x, 0, Pow2(m - 1 - k));
    }
  }

  // Of n codes with sizes counted by c0, the `kept` shortest ones are no longer now.  Each of the
  // others that has been lengthened was in the way: with one code more kept and the rest at size m
  // there would not be room.
  ghost predicate Lowered(m: nat, n: int, c0: seq<int>, c: seq<int>, kept: int)
  {
    && 1 <= m < |c0| && m < |c| && 0 <= kept <= CountTo(c0, m - 1)
    && (forall k :: 0 <= k < m ==> Lesser(CountTo(c0, k), kept) <= CountTo(c, k))
    && (forall k :: 0 <= k < m ==> CountTo(c, k) <= CountTo(c0, k) || kept <= CountTo(c0, k))
    && (kept < CountTo(c0, m - 1) ==> n + StairsTo(m, c0, kept + 1, m - 1) > Pow2(m))
  }

  lemma LoweredStart(m: nat, n: int, c0: seq<int>, c: seq<int>)
    requires 1 <= m < |c0| == |c| && NonNegative(c0) && forall k :: 0 <= k < m ==> c[k] == c0[k]
    ensures Lowered(m, n, c0, c, CountTo(c0, m - 1))
  {
    forall k | 0 <= k < m ensures CountTo(c, k) == CountTo(c0, k) <= CountTo(c0, m - 1) {
      SameCounts(c0, c, k);
      CountNonNegative(c0, k, m - 1);
    }
    CountNonNegative(c0, 0, m - 1);
  }

  lemma {:induction false} SameCounts(c: seq<int>, d: seq<int>, k: nat)
    requires k < |c| && k < |d| && forall j :: 0 <= j <= k ==> c[j] == d[j]
    ensures CountTo(c, k) == CountTo(d, k)
  {
    if k > 0 {
      SameCounts(c, d, k - 1);
    }
  }

  lemma LengthenCounts(m: nat, c: seq<int>, i: nat, k: nat)
    requires 1 <= i < m < |c| && k < m
    ensures |Lengthen(m, c, i)| == |c|
    ensures CountTo(Lengthen(m, c, i), k) == CountTo(c, k) + (if k < i then 0 else if k == i then -1 else 1)
  {
    hide CountTo;
    var c1 := c[m := c[m] - 1];
    var c2 := c1[i := c1[i] - 1];
    CountUpdate(c, m, c[m] - 1, k);
    CountUpdate(c1, i, c1[i] - 1, k);
    CountUpdate(c2, i + 1, c2[i + 1] + 2, k);
  }

  // How lengthening changes the counts up to each size, when no code is longer than i but those at m.
  ghost predicate OneLonger(m: nat, c0: seq<int>, c: seq<int>, d: seq<int>, i: nat)
  {
    && 1 <= i < m < |c0| && |c| == |d| > m
    && (forall k :: 0 <= k < m ==> CountTo(d, k) == CountTo(c, k) + (if k < i then 0 else if k == i then -1 else 1))
    && (forall k :: i <= k < m ==> CountTo(c, k) == CountTo(c, i) && CountTo(c0, i) <= CountTo(c0, k))
    && (forall k :: 0 <= k < i ==> CountTo(c, k) <= CountTo(c, i) && CountTo(c0, k) <= CountTo(c0, i))
    && (forall k :: 0 <= k < m ==> 0 <= CountTo(c0, k) <= CountTo(c0, m - 1) && CountTo(c, k) >= 0)
  }

  lemma LengthenIsOneLonger(m: nat, c0: seq<int>, c: seq<int>, i: nat)
    requires 1 <= i < m < |c0| && m < |c| && NonNegative(c0) && NonNegative(c) && forall j :: i < j < m ==> c[j] == 0
    ensures OneLonger(m, c0, c, Lengthen(m, c, i), i)
  {
    hide CountTo, Lengthen;
    var d := Lengthen(m, c, i);
    LengthenCounts(m, c, i, 0);
    forall k | 0 <= k < m
      ensures CountTo(d, k) == CountTo(c, k) + (if k < i then 0 else if k == i then -1 else 1)
      ensures 0 <= CountTo(c0, k) <= CountTo(c0, m - 1) && CountTo(c, k) >= 0
    {
      LengthenCounts(m, c, i, k);
      CountNonNegative(c0, k, m - 1);
      CountNonNegative(c, 0, k);
    }
    forall k | i <= k < m ensures CountTo(c, k) == CountTo(c, i) && CountTo(c0, i) <= CountTo(c0, k) {
      EmptyLevels(c, i, k);
      CountNonNegative(c0, i, k);
    }
    forall k | 0 <= k < i ensures CountTo(c, k) <= CountTo(c, i) && CountTo(c0, k) <= CountTo(c0, i) {
      CountNonNegative(c, k, i);
      CountNonNegative(c0, k, i);
    }
  }

  lemma SameKept(m: nat, n: int, c0: seq<int>, c: seq<int>, d: seq<int>, kept: int, i: nat)
    requires Lowered(m, n, c0, c, kept) && OneLonger(m, c0, c, d, i) && CountTo(d, i) >= Lesser(CountTo(c0, i), kept)
    ensures Lowered(m, n, c0, d, kept)
  {
    hide CountTo, StairsTo;
    assert kept <= CountTo(c, m - 1);
  }

  lemma OneFewer(m: nat, n: int, c0: seq<int>, c: seq<int>, d: seq<int>, kept: int, excess: int, i: nat)
    requires Lowered(m, n, c0, c, kept) && OneLonger(m, c0, c, d, i) && CountTo(d, i) < Lesser(CountTo(c0, i), kept)
    requires Limiting(m, c, n, excess) && excess > 0 && CountTo(c, i) > 0
    ensures Lowered(m, n, c0, d, kept - 1)
  {
    hide CountTo, StairsTo, UnitsTo;
    assert kept <= CountTo(c, m - 1) == CountTo(c, i);
    AllKeptAre(m, n, c0, c, kept, excess, i);
  }

  // Lengthening the longest codes below m first costs a kept code only when all the others are at m.
  lemma LengthenLowers(m: nat, n: int, c0: seq<int>, c: seq<int>, kept: int, excess: int, i: nat) returns (kept': int)
    requires Lowered(m, n, c0, c, kept) && Limiting(m, c, n, excess) && excess > 0 && NonNegative(c0)
    requires 1 <= i < m && c[i] > 0 && forall j :: i < j < m ==> c[j] == 0
    ensures Lowered(m, n, c0, Lengthen(m, c, i), kept')
  {
    hide CountTo, UnitsTo, StairsTo, Pow2, Lengthen, OneLonger;
    var d := Lengthen(m, c, i);
    LengthenIsOneLonger(m, c0, c, i);
    LengthenCounts(m, c, i, i);
    SomeCount(c, i);
    if CountTo(d, i) >= Lesser(CountTo(c0, i), kept) {
      kept' := kept;
      SameKept(m, n, c0, c, d, kept, i);
    } else {
      kept' := kept - 1;
      OneFewer(m, n, c0, c, d, kept, excess, i);
    }
  }

  lemma SomeCount(c: seq<int>, i: nat)
    requires 1 <= i < |c| && NonNegative(c) && c[i] > 0
    ensures CountTo(c, i) > 0
  {
    CountNonNegative(c, 0, i - 1);
  }

  lemma {:induction false} EmptyLevels(c: seq<int>, i: nat, k: nat)
    requires i <= k < |c| && forall j :: i < j <= k ==> c[j] == 0
    ensures CountTo(c, k) == CountTo(c, i)
    decreases k
  {
    if k > i {
      EmptyLevels(c, i, k - 1);
    }
  }

  lemma AllKeptAre(m: nat, n: int, c0: seq<int>, c: seq<int>, kept: int, excess: int, i: nat)
    requires 1 <= i < m < |c0| && Limiting(m, c, n, excess) && excess > 0
    requires CountTo(c, i) == kept && forall k :: 0 <= k < m ==> CountTo(c, k) <= Lesser(CountTo(c0, k), kept)
    ensures n + StairsTo(m, c0, kept, m - 1) > Pow2(m)
  {
    hide CountTo, UnitsTo, StairsTo;
    UnitsAreStairs(m, c, kept, m);
    StairsMonotone(m, c, kept, c0, kept, m - 1);
    assert Pow2(m - m) == 1;
  }

  method MoveLongCodes(numCodes: array<int>, m: nat)
    requires numCodes.Length == 33 && 1 <= m < 32
    modifies numCodes
    ensures numCodes[..] ==
            old(numCodes[..])[m := old(numCodes[m]) + CountTo(old(numCodes[..]), 32) - CountTo(old(numCodes[..]), m)]
  {
    ghost var c := numCodes[..];
    var i := m + 1;
    while i <= MAX_SUPPORTED_HUFF_CODESIZE
      invariant m < i <= 33
      invariant numCodes[..] == c[m := c[m] + CountTo(c, i - 1) - CountTo(c, m)]
    {
      numCodes[m] := numCodes[m] + numCodes[i];
      i := i + 1;
    }
  }

  method TotalUnits(numCodes: array<int>, m: nat) returns (total: int)
    requires numCodes.Length == 33 && 1 <= m < 32
    ensures total == UnitsTo(m, numCodes[..], m)
  {
    total := 0;
    var i := m;
    while i > 0
      invariant 0 <= i <= m
      invariant total == UnitsTo(m, numCodes[..], m) - UnitsTo(m, numCodes[..], i)
    {
      total := total + numCodes[i] * Pow2(m - i);
      i := i - 1;
    }
  }

  method LengthenOne(numCodes: array<int>, m: nat, ghost n: int, ghost excess: int, ghost c0: seq<int>, ghost kept: int)
    returns (ghost kept': int)
    requires numCodes.Length == 33 && 1 <= m < 32
    requires Limiting(m, numCodes[..], n, excess) && excess > 0 && n <= Pow2(m)
    requires NonNegative(c0) && Lowered(m, n, c0, numCodes[..], kept)
    modifies numCodes
    ensures Limiting(m, numCodes[..], n, excess - 1) && Lowered(m, n, c0, numCodes[..], kept')
    ensures forall i :: 0 <= i < 33 && (i == 0 || i > m) ==> numCodes[i] == old(numCodes[i])
  {
    hide Limiting, Lengthen, Lowered;
    ghost var c := numCodes[..];
    kept' := kept;
    numCodes[m] := numCodes[m] - 1;
    var i := m - 1;
    while i > 0
      invariant 0 <= i < m
      invariant forall j :: i < j < m ==> c[j] == 0
      invariant numCodes[..] == c[m := c[m] - 1]
    {
      if numCodes[i] != 0 {
        LengthenDef(m, c, i);
        NonNegativeAt(m, c, n, excess, i);
        LengthenIsLimiting(m, c, n, excess, i);
        kept' := LengthenLowers(m, n, c0, c, kept, excess, i);
        numCodes[i] := numCodes[i] - 1;
        numCodes[i + 1] := numCodes[i + 1] + 2;
        assert numCodes[..] == Lengthen(m, c, i);
        return;
      }
      i := i - 1;
    }
    ShorterExists(m, c, n, excess);
  }

  lemma LengthenDef(m: nat, c: seq<int>, i: nat)
    requires 1 <= i < m < |c|
    ensures Lengthen(m, c, i) == c[m := c[m] - 1][i := c[i] - 1][i + 1 := c[m := c[m] - 1][i + 1] + 2]
  {
  }

  lemma NonNegativeAt(m: nat, c: seq<int>, n: int, excess: int, i: nat)
    requires Limiting(m, c, n, excess) && i < |c|
    ensures c[i] >= 0
  {
  }

  // tdefl_huffman_enforce_max_code_size: the number of codes is kept, none is longer than
  // maxCodeSize, together they still fill the code space exactly, and no more codes are lengthened
  // than have to be.
  method EnforceMaxCodeSize(numCodes: array<int>, codeListLen: int, maxCodeSize: nat)
    requires numCodes.Length == 33 && 1 <= maxCodeSize < 32
    requires NonNegative(numCodes[..]) && codeListLen == CountTo(numCodes[..], 32) <= Pow2(maxCodeSize)
    requires codeListLen > 1 ==> UnitsTo(32, numCodes[..], 32) == Pow2(32)
    modifies numCodes
    ensures NonNegative(numCodes[..])
    ensures codeListLen <= 1 ==> numCodes[..] == old(numCodes[..])
    ensures codeListLen > 1 ==> CountTo(numCodes[..], maxCodeSize) == codeListLen
    ensures codeListLen > 1 ==> UnitsTo(maxCodeSize, numCodes[..], maxCodeSize) == Pow2(maxCodeSize)
    ensures codeListLen > 1 ==> exists kept :: Lowered(maxCodeSize, codeListLen, old(numCodes[..]), numCodes[..], kept)
  {
    if codeListLen <= 1 {
      return;
    }
    hide UnitsTo, CountTo, Limiting, Lowered;
    ghost var c := numCodes[..];
    MovedIsLimiting(maxCodeSize, c);
    MoveLongCodes(numCodes, maxCodeSize);
    var total := TotalUnits(numCodes, maxCodeSize);
    ghost var kept := CountTo(c, maxCodeSize - 1);
    LoweredStart(maxCodeSize, codeListLen, c, numCodes[..]);
    LimitingMeans(maxCodeSize, numCodes[..], codeListLen, total - Pow2(maxCodeSize));
    while total != Pow2(maxCodeSize)
      invariant Limiting(maxCodeSize, numCodes[..], codeListLen, total - Pow2(maxCodeSize))
      invariant Pow2(maxCodeSize) <= total && Lowered(maxCodeSize, codeListLen, c, numCodes[..], kept)
      decreases total - Pow2(maxCodeSize)
    {
      kept := LengthenOne(numCodes, maxCodeSize, codeListLen, total - Pow2(maxCodeSize), c, kept);
      total := total - 1;
    }
    LimitingMeans(maxCodeSize, numCodes[..], codeListLen, 0);
  }

  lemma LimitingMeans(m: nat, c: seq<int>, n: int, excess: int)
    requires Limiting(m, c, n, excess)
    ensures excess >= 0 && 1 <= m < |c| && NonNegative(c)
    ensures CountTo(c, m) == n && UnitsTo(m, c, m) == Pow2(m) + excess
  {
  }
}
