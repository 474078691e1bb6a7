// What limiting the sizes of a Huffman code to 15 bits costs (kernel/miniz/miniz.c:821-848, 882-884).
module LimitCost {
  import opened Arith
  import opened Bits
  import opened Huffman
  import opened Optimality
  import opened CodeLimit

  const LIMIT := 15

  // How many of the first k sizes are at most v.
  function AtMost(l: seq<nat>, v: nat, k: nat): (r: nat)
    requires k <= |l|
    ensures r <= k
  {
    if k == 0 then 0 else AtMost(l, v, k - 1) + (if l[k - 1] <= v then 1 else 0)
  }

  lemma {:induction false} AtMostFrom(l: seq<nat>, v: nat, i: nat, k: nat)
    requires Descending(l) && i < |l| && k <= |l|
    ensures l[i] <= v && k >= i ==> AtMost(l, v, k) >= k - i
    ensures l[i] > v ==> AtMost(l, v, k) <= if k <= i then 0 else k - i - 1
  {
    if k > 0 {
      AtMostFrom(l, v, i, k - 1);
    }
  }

  // In descending order the sizes up to v come last.
  lemma Rank(l: seq<nat>, v: nat, i: nat)
    requires Descending(l) && i < |l|
    ensures l[i] <= v <==> |l| - i <= AtMost(l, v, |l|)
  {
    AtMostFrom(l, v, i, |l|);
  }

  // The counts below the limit are those of the given sizes.
  ghost predicate CountsOf(c: seq<int>, l: seq<nat>)
  {
    |c| > LIMIT && forall v :: 0 <= v < LIMIT ==> CountTo(c, v) == AtMost(l, v, |l|)
  }

  // Code sizes l of least cost for the weights w, and what limiting makes of them.
  ghost predicate Limited(w: seq<nat>, l: seq<nat>, f: seq<nat>, c0: seq<int>, c: seq<int>, kept: int)
  {
    && |w| == |l| == |f| && Descending(l) && Descending(f)
    && (forall i :: 0 <= i < |l| ==> 1 <= l[i] <= 30 && 1 <= f[i] <= LIMIT)
    && CountsOf(c0, l) && CountsOf(c, f) && Lowered(LIMIT, |l|, c0, c, kept)
    && KraftTo(30, l, |l|) == Pow2(30)
    && (forall i :: 0 <= i < |l| ==> Fib(l[i] - 1) * w[i] <= SumTo(w, |w|))
  }

  lemma LimitedParts(w: seq<nat>, l: seq<nat>, f: seq<nat>, c0: seq<int>, c: seq<int>, kept: int)
    requires Limited(w, l, f, c0, c, kept)
    ensures |w| == |l| == |f| && LIMIT < |c0| && CountsOf(c0, l) && Lowered(LIMIT, |l|, c0, c, kept)
    ensures forall i :: 0 <= i < |l| ==> 1 <= l[i] <= 30 && 1 <= f[i] <= LIMIT
    ensures Descending(l) && KraftTo(30, l, |l|) == Pow2(30)
    ensures forall i :: 0 <= i < |l| ==> Fib(l[i] - 1) * w[i] <= SumTo(w, |w|)
  {
    hide CountTo, KraftTo, Fib, SumTo, StairsTo, AtMost, Descending, Lowered;
  }

  // The kept codes get no longer, and neither do those that were too long.
  lemma KeptNoLonger(w: seq<nat>, l: seq<nat>, f: seq<nat>, c0: seq<int>, c: seq<int>, kept: int, i: nat)
    requires Limited(w, l, f, c0, c, kept) && i < |l|
    ensures |l| - i <= kept || CountTo(c0, LIMIT - 1) <= kept ==> f[i] <= l[i]
  {
    hide CountTo, AtMost, StairsTo, KraftTo, SumTo, Descending;
    if l[i] < LIMIT {
      Rank(l, l[i], i);
      Rank(l, LIMIT - 1, i);
      Rank(f, l[i], i);
      assert Lesser(CountTo(c0, l[i]), kept) <= CountTo(c, l[i]);
    }
  }

  lemma {:induction false} NoDearer(w: seq<nat>, l: seq<nat>, f: seq<nat>, j: nat, k: nat)
    requires |w| == |l| == |f| && j <= k <= |w| && forall i :: j <= i < k ==> f[i] <= l[i]
    ensures DotTo(w, f, k) - DotTo(w, f, j) <= DotTo(w, l, k) - DotTo(w, l, j)
    decreases k
  {
    if j < k {
      NoDearer(w, l, f, j, k - 1);
      MulLe(w[k - 1], f[k - 1], l[k - 1]);
    }
  }

  // ---------------------------------------------------------------------------------
  // The room that the lengthened codes had.

  lemma {:induction false} StairsStep(c: seq<int>, t: nat, v: nat, k: nat)
    requires |c| > LIMIT && 1 <= v <= LIMIT && k < LIMIT && t > 0
    requires forall j :: 0 <= j <= k ==> (CountTo(c, j) >= t <==> j >= v)
    ensures StairsTo(LIMIT, c, t, k) - StairsTo(LIMIT, c, t - 1, k) == if k < v then 0
            else Pow2(LIMIT - v) - Pow2(14 - k)
  {
    hide CountTo;
    if k > 0 {
      StairsStep(c, t, v, k - 1);
      var x, y := Lesser(CountTo(c, k), t - 1), Lesser(CountTo(c, k), t);
      Distribute(x, y - x, Pow2(14 - k));
      PowHalf(LIMIT - k);
    }
  }

  // Where the stairs lead: to the space of the t shortest codes.
  lemma {:induction false} StairsAreSpace(l: seq<nat>, c: seq<int>, t: nat)
    requires Descending(l) && (forall i :: 0 <= i < |l| ==> 1 <= l[i] <= 30) && CountsOf(c, l) &&
             t <= CountTo(c, LIMIT - 1)
    ensures t <= |l| && KraftTo(30, l, |l|) == KraftTo(30, l, |l| - t) + 32768 * (StairsTo(LIMIT, c, t, LIMIT - 1) + t)
  {
    hide AtMost, CountTo, KraftTo;
    if t == 0 {
      StairsOfNone(l, c, LIMIT - 1);
    } else {
      StairsAreSpace(l, c, t - 1);
      var i := |l| - t;
      forall j | 0 <= j < LIMIT ensures CountTo(c, j) >= t <==> j >= l[i] {
        Rank(l, j, i);
      }
      StairsStep(c, t, l[i], LIMIT - 1);
      KraftStep(l, i);
      assert Pow2(15) == 32768 && Pow2(0) == 1;
      Pow2Add(15, LIMIT - l[i]);
    }
  }

  lemma KraftStep(l: seq<nat>, i: nat)
    requires i < |l| && forall j :: 0 <= j < |l| ==> l[j] <= 30
    ensures KraftTo(30, l, i + 1) == KraftTo(30, l, i) + Pow2(30 - l[i])
  {
  }

  lemma {:induction false} StairsOfNone(l: seq<nat>, c: seq<int>, k: nat)
    requires CountsOf(c, l) && k < LIMIT
    ensures StairsTo(LIMIT, c, 0, k) == 0
  {
    hide CountTo, AtMost;
    if k > 0 {
      StairsOfNone(l, c, k - 1);
      assert CountTo(c, k) >= 0;
    }
  }

  // The codes before the last kept one have room for less than one code of 15 bits each.
  lemma LittleRoom(w: seq<nat>, l: seq<nat>, f: seq<nat>, c0: seq<int>, c: seq<int>, kept: int)
    requires Limited(w, l, f, c0, c, kept) && kept < CountTo(c0, LIMIT - 1)
    ensures 0 <= kept < |l| && KraftTo(30, l, |l| - kept - 1) < 32768 * (|l| - kept - 1)
  {
    hide Limited, CountsOf, Lowered, Lesser, DotTo, CountTo, SumTo, StairsTo, AtMost, KraftTo, Fib, Descending, Pow2;
    LimitedParts(w, l, f, c0, c, kept);
    LoweredRoom(|l|, c0, c, kept);
    StairsAreSpace(l, c0, kept + 1);
    Pow2Add(15, 15);
    RoomLeft(KraftTo(30, l, |l| - kept - 1), StairsTo(LIMIT, c0, kept + 1, LIMIT - 1), |l|, kept);
  }

  lemma LoweredRoom(n: int, c0: seq<int>, c: seq<int>, kept: int)
    requires |c0| > LIMIT && Lowered(LIMIT, n, c0, c, kept) && kept < CountTo(c0, LIMIT - 1)
    ensures kept >= 0 && n + StairsTo(LIMIT, c0, kept + 1, LIMIT - 1) > 32768 == Pow2(15)
  {
    hide CountTo, StairsTo;
    assert Pow2(15) == 32768;
  }

  lemma RoomLeft(room: int, stairs: int, n: int, kept: int)
    requires 32768 * 32768 == room + 32768 * (stairs + (kept + 1)) && n + stairs > 32768
    ensures room < 32768 * (n - kept - 1)
  {
  }

  // The first code that is lengthened takes no more room than all the ones before it.
  lemma {:induction false} Multiples(l: seq<nat>, a: nat, k: nat) returns (q: nat)
    requires Descending(l) && (forall i :: 0 <= i < |l| ==> l[i] <= 30) && a < |l| && a <= k <= |l|
    ensures KraftTo(30, l, k) == KraftTo(30, l, a) + Pow2(30 - l[a]) * q
    decreases k
  {
    hide Pow2;
    q := 0;
    if a < k {
      var q0 := Multiples(l, a, k - 1);
      q := q0 + Pow2(l[a] - l[k - 1]);
      Pow2Add(30 - l[a], l[a] - l[k - 1]);
      MulAdd(Pow2(30 - l[a]), q0, Pow2(l[a] - l[k - 1]));
    }
  }

  lemma OneMore(l: seq<nat>, a: nat)
    requires Descending(l) && (forall i :: 0 <= i < |l| ==> l[i] <= 30) && a < |l|
    requires KraftTo(30, l, |l|) == Pow2(30) && KraftTo(30, l, a) > 0
    ensures Pow2(30 - l[a]) <= KraftTo(30, l, a)
  {
    hide Pow2, KraftTo;
    var q := Multiples(l, a, |l|);
    Pow2Add(30 - l[a], l[a]);
    OneMultiple(Pow2(30 - l[a]), Pow2(l[a]), q, KraftTo(30, l, a));
  }

  lemma OneMultiple(u: nat, v: nat, q: nat, room: nat)
    requires u * v == room + u * q && room > 0
    ensures u <= room
  {
    if v <= q {
      MulMonotone(u, v, q);
      assert false;
    }
    MulMonotone(u, q + 1, v);
    MulAdd(u, q, 1);
  }

  // ---------------------------------------------------------------------------------
  // The cost.

  // Weights at depth l are so small that lengthening up to 15 is paid for by the space.
  lemma DepthPays(l: nat, w: nat, total: nat)
    requires 1 <= l <= 14 && Fib(l - 1) * w <= total
    ensures 352 * ((LIMIT - l) * w) <= Pow2(LIMIT - l) * total
  {
    FibValues();
    SmallPowersTo14();
    var p, g := Pow2(LIMIT - l), Fib(l - 1);
    MulLe(p, g * w, total);
    assert 352 * (LIMIT - l) <= p * g;
    Distribute(352 * (LIMIT - l), p * g - 352 * (LIMIT - l), w);
    Assoc(p, g, w);
    Assoc(352, LIMIT - l, w);
    Scale(w, 0, p * g - 352 * (LIMIT - l));
  }

  lemma SmallPowersTo14()
    ensures Pow2(1) == 2 && Pow2(2) == 4 && Pow2(3) == 8 && Pow2(4) == 16 && Pow2(5) == 32 && Pow2(6) == 64
    ensures Pow2(7) == 128 && Pow2(8) == 256 && Pow2(9) == 512 && Pow2(10) == 1024 && Pow2(11) == 2048
    ensures Pow2(12) == 4096 && Pow2(13) == 8192 && Pow2(14) == 16384
  {
  }

  lemma SymbolPays(l: nat, f: nat, w: nat, total: nat)
    requires 1 <= l <= 30 && 1 <= f <= LIMIT && Fib(l - 1) * w <= total
    ensures 352 * 32768 * (w * f - w * l) <= total * Pow2(30 - l)
  {
    hide Fib;
    if f <= l {
      MulLe(w, f, l);
      Scale(total, 0, Pow2(30 - l));
    } else {
      DepthPays(l, w, total);
      Pow2Add(15, LIMIT - l);
      assert Pow2(15) == 32768;
      Lengthened(l, f, w, total, Pow2(LIMIT - l));
    }
  }

  lemma Lengthened(l: nat, f: nat, w: nat, total: nat, p: nat)
    requires l <= f <= LIMIT && 352 * ((LIMIT - l) * w) <= p * total
    ensures 352 * 32768 * (w * f - w * l) <= total * (32768 * p)
  {
    MulLe(w, f, LIMIT);
    Distribute(LIMIT - l, l, w);
    assert w * f - w * l <= (LIMIT - l) * w;
    assert total * (32768 * p) == 32768 * (p * total);
  }

  lemma {:induction false} PrefixPays(w: seq<nat>, l: seq<nat>, f: seq<nat>, total: nat, k: nat)
    requires |w| == |l| == |f| && k <= |w| && forall i :: 0 <= i < |l| ==> 1 <= l[i] <= 30 && 1 <= f[i] <= LIMIT
    requires forall i :: 0 <= i < |l| ==> Fib(l[i] - 1) * w[i] <= total
    ensures 352 * 32768 * (DotTo(w, f, k) - DotTo(w, l, k)) <= total * KraftTo(30, l, k)
  {
    hide Fib, Pow2;
    if k > 0 {
      PrefixPays(w, l, f, total, k - 1);
      SymbolPays(l[k - 1], f[k - 1], w[k - 1], total);
      MulAdd(total, KraftTo(30, l, k - 1), Pow2(30 - l[k - 1]));
    }
  }

  // Limiting costs at most one bit for each 176 symbols of the alphabet and each occurrence.
  lemma LimitingCosts(w: seq<nat>, l: seq<nat>, f: seq<nat>, c0: seq<int>, c: seq<int>, kept: int)
    requires Limited(w, l, f, c0, c, kept)
    ensures 176 * DotTo(w, f, |w|) <= 176 * DotTo(w, l, |w|) + |w| * SumTo(w, |w|)
  {
    hide Limited, CountsOf, Lowered, Lesser, DotTo, CountTo, SumTo, StairsTo, AtMost, KraftTo, Fib, Descending, Pow2;
    LimitedParts(w, l, f, c0, c, kept);
    var n, total := |w|, SumTo(w, |w|);
    forall i | 0 <= i < n ensures n - i <= kept || CountTo(c0, LIMIT - 1) <= kept ==> f[i] <= l[i] {
      KeptNoLonger(w, l, f, c0, c, kept, i);
    }
    if kept < CountTo(c0, LIMIT - 1) {
      LittleRoom(w, l, f, c0, c, kept);
      NoDearer(w, l, f, n - kept, n);
      LengthenedCost(w, l, f, total, n - kept - 1);
    } else {
      NoDearer(w, l, f, 0, n);
      NoCost(w, l, f);
      Scale(total, 0, n);
    }
  }

  // The codes up to number a are the only ones that may get longer.
  lemma LengthenedCost(w: seq<nat>, l: seq<nat>, f: seq<nat>, total: nat, a: nat)
    requires |w| == |l| == |f| && a < |w| && forall i :: 0 <= i < |l| ==> 1 <= l[i] <= 30 && 1 <= f[i] <= LIMIT
    requires forall i :: 0 <= i < |l| ==> Fib(l[i] - 1) * w[i] <= total
    requires Descending(l) && KraftTo(30, l, |l|) == Pow2(30) && KraftTo(30, l, a) < 32768 * a
    ensures 176 * (DotTo(w, f, a + 1) - DotTo(w, l, a + 1)) <= |w| * total
  {
    hide DotTo, KraftTo, Fib, Descending;
    PrefixPays(w, l, f, total, a + 1);
    KraftStep(l, a);
    SomeRoom(l, a);
    if a > 0 {
      OneMore(l, a);
      CostBound(total, KraftTo(30, l, a), Pow2(30 - l[a]), a, |w|, DotTo(w, f, a + 1) - DotTo(w, l, a + 1));
    }
  }

  lemma NoCost(w: seq<nat>, l: seq<nat>, f: seq<nat>)
    ensures DotTo(w, l, 0) == DotTo(w, f, 0) == 0
  {
  }

  lemma SomeRoom(l: seq<nat>, a: nat)
    requires a <= |l| && forall i :: 0 <= i < |l| ==> l[i] <= 30
    ensures KraftTo(30, l, a) >= 0 && (a > 0 ==> KraftTo(30, l, a) > 0)
  {
  }

  lemma CostBound(total: nat, room: nat, u: nat, a: nat, n: nat, extra: int)
    requires u <= room < 32768 * a && a <= n && 352 * 32768 * extra <= total * (room + u)
    ensures 176 * extra <= n * total
  {
    MulMonotone(total, room + u, 65536 * a);
    MulMonotone(total, a, n);
    assert total * (65536 * a) == 65536 * (total * a);
  }
}
