// Radix sort of symbol frequencies (kernel/miniz/miniz.c:727-763).
module RadixSort {
  import opened Huffman

  const RADIX := 256

  // The digit that pass 0 or 1 sorts on: the low or the high byte of the 16-bit key.
  function Digit(x: SymFreq, pass: nat): (d: nat)
    ensures d < RADIX
  {
    if pass == 0 then x.key % RADIX else x.key / RADIX
  }

  // What has been sorted on before the given pass.
  function Low(x: SymFreq, pass: nat): nat {
    if pass == 0 then 0 else if pass == 1 then x.key % RADIX else x.key
  }

  function Bucket(s: seq<SymFreq>, pass: nat, b: nat): (r: seq<SymFreq>)
  {
    if s == [] then []
    else
      var x := s[|s| - 1];
      Bucket(s[..|s| - 1], pass, b) + (if Digit(x, pass) == b then [x] else [])
  }

  function Buckets(s: seq<SymFreq>, pass: nat, k: nat): (r: seq<SymFreq>)
  {
    if k == 0 then [] else Buckets(s, pass, k - 1) + Bucket(s, pass, k - 1)
  }

  ghost predicate SortedLow(s: seq<SymFreq>, pass: nat)
  {
    forall i, j :: 0 <= i <= j < |s| ==> Low(s[i], pass) <= Low(s[j], pass)
  }

  lemma {:induction false} BucketMembers(s: seq<SymFreq>, pass: nat, b: nat)
    ensures forall x :: x in Bucket(s, pass, b) ==> Digit(x, pass) == b && x in s
    ensures |Bucket(s, pass, b)| <= |s|
  {
    if s != [] {
      BucketMembers(s[..|s| - 1], pass, b);
    }
  }

  // Within a bucket the earlier order is kept.
  lemma {:induction false} BucketSorted(s: seq<SymFreq>, pass: nat, b: nat)
    requires SortedLow(s, pass)
    ensures SortedLow(Bucket(s, pass, b), pass)
  {
    if s != [] {
      BucketSorted(s[..|s| - 1], pass, b);
      BucketMembers(s[..|s| - 1], pass, b);
      var t, x := Bucket(s[..|s| - 1], pass, b), s[|s| - 1];
      assert forall y :: y in s ==> Low(y, pass) <= Low(x, pass);
      forall i | 0 <= i < |t|
        ensures Low(t[i], pass) <= Low(x, pass)
      {
        assert t[i] in t;
      }
    }
  }

  lemma {:induction false} BucketsSorted(s: seq<SymFreq>, pass: nat, k: nat)
    requires pass <= 1 && SortedLow(s, pass)
    ensures SortedLow(Buckets(s, pass, k), pass + 1)
    ensures forall x :: x in Buckets(s, pass, k) ==> Digit(x, pass) < k
  {
    if k > 0 {
      BucketsSorted(s, pass, k - 1);
      BucketSorted(s, pass, k - 1);
      BucketMembers(s, pass, k - 1);
      OneMoreBucket(Buckets(s, pass, k - 1), Bucket(s, pass, k - 1), pass, k - 1);
    }
  }

  lemma OneMoreBucket(a: seq<SymFreq>, b: seq<SymFreq>, pass: nat, d: nat)
    requires pass <= 1 && SortedLow(a, pass + 1) && SortedLow(b, pass)
    requires (forall x :: x in a ==> Digit(x, pass) < d) && (forall x :: x in b ==> Digit(x, pass) == d)
    ensures SortedLow(a + b, pass + 1)
  {
    hide Low, Digit;
    forall i, j | 0 <= i <= j < |a + b|
      ensures Low((a + b)[i], pass + 1) <= Low((a + b)[j], pass + 1)
    {
      var x, y := (a + b)[i], (a + b)[j];
      if j < |a| {
        assert Low(a[i], pass + 1) <= Low(a[j], pass + 1);
      } else if i < |a| {
        assert x in a && y in b;
        LowerDigit(x, y, pass);
      } else {
        assert x in b && y in b && Low(b[i - |a|], pass) <= Low(b[j - |a|], pass);
        SameDigit(x, y, pass);
      }
    }
  }

  lemma LowerDigit(x: SymFreq, y: SymFreq, pass: nat)
    requires pass <= 1 && Digit(x, pass) < Digit(y, pass)
    ensures Low(x, pass + 1) <= Low(y, pass + 1)
  {
  }

  lemma SameDigit(x: SymFreq, y: SymFreq, pass: nat)
    requires pass <= 1 && Digit(x, pass) == Digit(y, pass) && Low(x, pass) <= Low(y, pass)
    ensures Low(x, pass + 1) <= Low(y, pass + 1)
  {
  }

  lemma {:induction false} BucketsNil(pass: nat, k: nat)
    ensures Buckets([], pass, k) == []
  {
    if k > 0 {
      BucketsNil(pass, k - 1);
    }
  }

  // Every item lands in exactly one bucket.
  lemma {:induction false} BucketsSnoc(s: seq<SymFreq>, x: SymFreq, pass: nat, k: nat)
    ensures multiset(Buckets(s + [x], pass, k))
         == multiset(Buckets(s, pass, k)) + (if Digit(x, pass) < k then multiset{x} else multiset{})
  {
    if k > 0 {
      BucketsSnoc(s, x, pass, k - 1);
      assert (s + [x])[..|s|] == s;
    }
  }

  lemma {:induction false} BucketsPermute(s: seq<SymFreq>, pass: nat)
    ensures multiset(Buckets(s, pass, RADIX)) == multiset(s)
  {
    if s == [] {
      BucketsNil(pass, RADIX);
    } else {
      var r, x := s[..|s| - 1], s[|s| - 1];
      assert s == r + [x];
      BucketsPermute(r, pass);
      BucketsSnoc(r, x, pass, RADIX);
    }
  }

  // Counting items by digit does not depend on their order.
  lemma {:induction false} BucketConcat(s: seq<SymFreq>, t: seq<SymFreq>, pass: nat, b: nat)
    ensures Bucket(s + t, pass, b) == Bucket(s, pass, b) + Bucket(t, pass, b)
  {
    if t == [] {
      assert s + t == s;
    } else {
      assert (s + t)[..|s + t| - 1] == s + t[..|t| - 1];
      BucketConcat(s, t[..|t| - 1], pass, b);
    }
  }

  lemma RemoveOne(x: SymFreq, t: seq<SymFreq>) returns (i: nat)
    requires x in t
    ensures i < |t| && t[i] == x && multiset(t[..i] + t[i + 1..]) == multiset(t) - multiset{x}
    ensures t == t[..i] + [x] + t[i + 1..]
  {
    i :| 0 <= i < |t| && t[i] == x;
    assert t == t[..i] + [x] + t[i + 1..];
  }

  lemma {:induction false} BucketSizePermuted(s: seq<SymFreq>, t: seq<SymFreq>, pass: nat, b: nat)
    requires multiset(s) == multiset(t)
    ensures |Bucket(s, pass, b)| == |Bucket(t, pass, b)|
    decreases |s|
  {
    if s == [] {
      assert |multiset(t)| == 0;
    } else {
      var x, r := s[|s| - 1], s[..|s| - 1];
      assert s == r + [x];
      assert x in multiset(t);
      var i := RemoveOne(x, t);
      var u := t[..i] + t[i + 1..];
      BucketSizePermuted(r, u, pass, b);
      BucketConcat(t[..i], t[i + 1..], pass, b);
      BucketConcat(t[..i], [x], pass, b);
      BucketConcat(t[..i] + [x], t[i + 1..], pass, b);
      BucketConcat(r, [x], pass, b);
    }
  }

  lemma {:induction false} BucketsGrow(s: seq<SymFreq>, pass: nat, j: nat, k: nat)
    requires j <= k
    ensures |Buckets(s, pass, j)| <= |Buckets(s, pass, k)|
    ensures Buckets(s, pass, j) <= Buckets(s, pass, k)
    decreases k
  {
    if j < k {
      BucketsGrow(s, pass, j, k - 1);
    }
  }

  lemma {:induction false} BucketPrefix(s: seq<SymFreq>, pass: nat, b: nat, i: nat)
    requires i <= |s|
    ensures Bucket(s[..i], pass, b) <= Bucket(s, pass, b)
  {
    BucketConcat(s[..i], s[i..], pass, b);
    assert s == s[..i] + s[i..];
  }

  // ---------------------------------------------------------------------------------
  // One distribution pass.

  // After i items: the offset and the contents of bucket b.
  ghost predicate PlacedAt(s: seq<SymFreq>, d: seq<SymFreq>, o: nat, pass: nat, i: nat, b: nat)
    requires i <= |s|
  {
    var lo := |Buckets(s, pass, b)|;
    o == lo + |Bucket(s[..i], pass, b)| && o <= |d| && d[lo..o] == Bucket(s[..i], pass, b)
  }

  ghost predicate Placed(s: seq<SymFreq>, d: seq<SymFreq>, off: seq<nat>, pass: nat, i: nat)
  {
    && |d| == |s| && |off| == RADIX && i <= |s|
    && forall b :: 0 <= b < RADIX ==> PlacedAt(s, d, off[b], pass, i, b)
  }

  lemma PlacedBounds(s: seq<SymFreq>, pass: nat, i: nat, b: nat)
    requires i <= |s| && b < RADIX
    ensures |Buckets(s, pass, b)| + |Bucket(s[..i], pass, b)| <= |Buckets(s, pass, b + 1)| <= |s|
    ensures i < |s| && Digit(s[i], pass) == b ==>
              |Buckets(s, pass, b)| + |Bucket(s[..i], pass, b)| < |Buckets(s, pass, b + 1)|
  {
    BucketPrefix(s, pass, b, i);
    BucketsGrow(s, pass, b + 1, RADIX);
    BucketsPermute(s, pass);
    assert |Buckets(s, pass, RADIX)| == |multiset(Buckets(s, pass, RADIX))| == |s|;
    if i < |s| {
      BucketPrefix(s, pass, b, i + 1);
      assert s[..i + 1][..i] == s[..i];
    }
  }

  lemma PlacedStart(s: seq<SymFreq>, d: seq<SymFreq>, off: seq<nat>, pass: nat)
    requires |d| == |s| && |off| == RADIX
    requires forall b :: 0 <= b < RADIX ==> off[b] == |Buckets(s, pass, b)|
    ensures Placed(s, d, off, pass, 0)
  {
    forall b | 0 <= b < RADIX
      ensures PlacedAt(s, d, off[b], pass, 0, b)
    {
      PlacedBounds(s, pass, 0, b);
    }
  }

  lemma PlacedStep(s: seq<SymFreq>, d: seq<SymFreq>, off: seq<nat>, pass: nat, i: nat)
    requires Placed(s, d, off, pass, i) && i < |s|
    ensures var b := Digit(s[i], pass);
            off[b] < |s| && Placed(s, d[off[b] := s[i]], off[b := off[b] + 1], pass, i + 1)
  {
    hide Bucket, Buckets, Digit;
    var c := Digit(s[i], pass);
    assert PlacedAt(s, d, off[c], pass, i, c);
    PlacedSame(s, d, off[c], pass, i);
    forall b | 0 <= b < RADIX && b != c
      ensures PlacedAt(s, d[off[c] := s[i]], off[b], pass, i + 1, b)
    {
      assert PlacedAt(s, d, off[b], pass, i, b);
      PlacedOther(s, d, off[c], off[b], pass, i, b);
    }
  }

  lemma PlacedSame(s: seq<SymFreq>, d: seq<SymFreq>, o: nat, pass: nat, i: nat)
    requires i < |s| && |d| == |s| && PlacedAt(s, d, o, pass, i, Digit(s[i], pass))
    ensures o < |s| && PlacedAt(s, d[o := s[i]], o + 1, pass, i + 1, Digit(s[i], pass))
  {
    hide Buckets, Digit;
    var c := Digit(s[i], pass);
    PlacedBounds(s, pass, i, c);
    assert s[..i + 1][..i] == s[..i];
    var lo := |Buckets(s, pass, c)|;
    assert d[o := s[i]][lo..o + 1] == d[lo..o] + [s[i]];
  }

  lemma PlacedOther(s: seq<SymFreq>, d: seq<SymFreq>, oc: nat, o: nat, pass: nat, i: nat, b: nat)
    requires i < |s| && |d| == |s| && b < RADIX && b != Digit(s[i], pass)
    requires PlacedAt(s, d, oc, pass, i, Digit(s[i], pass)) && PlacedAt(s, d, o, pass, i, b) && oc < |s|
    ensures PlacedAt(s, d[oc := s[i]], o, pass, i + 1, b)
  {
    hide Buckets, Digit;
    var c := Digit(s[i], pass);
    PlacedBounds(s, pass, i, b);
    PlacedBounds(s, pass, i, c);
    assert s[..i + 1][..i] == s[..i];
    if b < c {
      BucketsGrow(s, pass, b + 1, c);
    } else {
      BucketsGrow(s, pass, c + 1, b);
    }
    var lo := |Buckets(s, pass, b)|;
    assert d[oc := s[i]][lo..o] == d[lo..o];
  }

  lemma {:induction false} PlacedAll(s: seq<SymFreq>, d: seq<SymFreq>, off: seq<nat>, pass: nat, k: nat)
    requires Placed(s, d, off, pass, |s|) && k <= RADIX
    ensures |Buckets(s, pass, k)| <= |d| && d[..|Buckets(s, pass, k)|] == Buckets(s, pass, k)
  {
    hide Bucket;
    if k > 0 {
      PlacedAll(s, d, off, pass, k - 1);
      assert s[..|s|] == s;
      assert PlacedAt(s, d, off[k - 1], pass, |s|, k - 1);
      var lo, hi := |Buckets(s, pass, k - 1)|, |Buckets(s, pass, k)|;
      assert d[..hi] == d[..lo] + d[lo..hi];
    }
  }

  method PlaceItem(x: SymFreq, dst: array<SymFreq>, offsets: array<nat>, pass: nat, ghost s: seq<SymFreq>, ghost i: nat)
    requires i < |s| && x == s[i] && dst.Length == |s| && offsets.Length == RADIX
    requires Placed(s, dst[..], offsets[..], pass, i)
    modifies dst, offsets
    ensures Placed(s, dst[..], offsets[..], pass, i + 1)
  {
    hide Placed, Digit;
    PlacedStep(s, dst[..], offsets[..], pass, i);
    ghost var d, off := dst[..], offsets[..];
    var b := Digit(x, pass);
    dst[offsets[b]] := x;
    offsets[b] := offsets[b] + 1;
    assert dst[..] == d[off[b] := x];
    assert offsets[..] == off[b := off[b] + 1];
  }

  // The body of the pass loop: prefix sums of the histogram, then distribution.
  method DistributePass(src: array<SymFreq>, dst: array<SymFreq>, pass: nat, hist: array<nat>)
    requires src != dst && src.Length == dst.Length && pass <= 1 && hist.Length == 2 * RADIX
    requires forall b {:trigger Bucket(src[..], pass, b)} :: 0 <= b < RADIX ==>
               hist[pass * RADIX + b] == |Bucket(src[..], pass, b)|
    modifies dst
    ensures dst[..] == Buckets(src[..], pass, RADIX)
  {
    hide Placed, Bucket, Buckets, Digit;
    ghost var s := src[..];
    var offsets := Offsets(hist, pass, s);
    PlacedStart(s, dst[..], offsets[..], pass);
    for i := 0 to src.Length
      invariant src[..] == s && offsets.Length == RADIX
      invariant Placed(s, dst[..], offsets[..], pass, i)
    {
      PlaceItem(src[i], dst, offsets, pass, s, i);
    }
    PlacedAll(s, dst[..], offsets[..], pass, RADIX);
    BucketsPermute(s, pass);
    assert |Buckets(s, pass, RADIX)| == |multiset(Buckets(s, pass, RADIX))| == |s|;
  }

  method Offsets(hist: array<nat>, pass: nat, ghost s: seq<SymFreq>) returns (offsets: array<nat>)
    requires pass <= 1 && hist.Length == 2 * RADIX
    requires forall b {:trigger Bucket(s, pass, b)} :: 0 <= b < RADIX ==> hist[pass * RADIX + b] == |Bucket(s, pass, b)|
    ensures fresh(offsets) && offsets.Length == RADIX
    ensures forall b :: 0 <= b < RADIX ==> offsets[b] == |Buckets(s, pass, b)|
  {
    hide Buckets, Bucket;
    offsets := new nat[RADIX];
    var cur := 0;
    NoBuckets(s, pass);
    for i := 0 to RADIX
      invariant cur == |Buckets(s, pass, i)|
      invariant forall b :: 0 <= b < i ==> offsets[b] == |Buckets(s, pass, b)|
    {
      NextBucket(s, pass, i);
      offsets[i] := cur;
      cur := cur + hist[pass * RADIX + i];
    }
  }

  lemma NoBuckets(s: seq<SymFreq>, pass: nat)
    ensures Buckets(s, pass, 0) == []
  {
  }

  lemma NextBucket(s: seq<SymFreq>, pass: nat, k: nat)
    ensures |Buckets(s, pass, k + 1)| == |Buckets(s, pass, k)| + |Bucket(s, pass, k)|
  {
    hide Bucket;
  }

  // Both histograms in one sweep.
  method Histograms(src: array<SymFreq>) returns (hist: array<nat>)
    ensures fresh(hist) && hist.Length == 2 * RADIX
    ensures forall b {:trigger Bucket(src[..], 0, b)} :: 0 <= b < RADIX ==> hist[b] == |Bucket(src[..], 0, b)|
    ensures forall b {:trigger Bucket(src[..], 1, b)} :: 0 <= b < RADIX ==> hist[RADIX + b] == |Bucket(src[..], 1, b)|
  {
    hist := new nat[2 * RADIX](_ => 0);
    for i := 0 to src.Length
      invariant forall b :: 0 <= b < RADIX ==> hist[b] == |Bucket(src[..i], 0, b)|
      invariant forall b :: 0 <= b < RADIX ==> hist[RADIX + b] == |Bucket(src[..i], 1, b)|
    {
      var lo, hi := Digit(src[i], 0), Digit(src[i], 1);
      hist[lo] := hist[lo] + 1;
      hist[RADIX + hi] := hist[RADIX + hi] + 1;
      assert src[..i + 1][..i] == src[..i];
    }
    assert src[..src.Length] == src[..];
  }

  ghost predicate SortedByKey(s: seq<SymFreq>)
  {
    forall i, j :: 0 <= i <= j < |s| ==> s[i].key <= s[j].key
  }

  // A pass all of whose digits are zero can be skipped.
  lemma {:induction false} AllZero(s: seq<SymFreq>, pass: nat)
    requires |Bucket(s, pass, 0)| == |s|
    ensures forall x :: x in s ==> Digit(x, pass) == 0
  {
    if s != [] {
      BucketMembers(s[..|s| - 1], pass, 0);
      AllZero(s[..|s| - 1], pass);
      assert s == s[..|s| - 1] + [s[|s| - 1]];
    }
  }

  // tdefl_radix_sort_syms: the result is the input rearranged in order of key.
  method RadixSortSyms(syms0: array<SymFreq>, syms1: array<SymFreq>) returns (sorted: array<SymFreq>)
    requires syms0 != syms1 && syms0.Length == syms1.Length
    modifies syms0, syms1
    ensures sorted == syms0 || sorted == syms1
    ensures multiset(sorted[..]) == multiset(old(syms0[..])) && SortedByKey(sorted[..])
  {
    hide Bucket, Buckets, Digit;
    ghost var s := syms0[..];
    var hist := Histograms(syms0);
    var totalPasses := 2;
    while totalPasses > 1 && syms0.Length == hist[(totalPasses - 1) * RADIX]
      invariant 1 <= totalPasses <= 2
      invariant totalPasses == 1 ==> hist[RADIX] == |s|
    {
      totalPasses := totalPasses - 1;
    }
    assert totalPasses == 1 ==> hist[RADIX + 0] == |Bucket(s, 1, 0)|;
    DistributePass(syms0, syms1, 0, hist);
    ghost var t := syms1[..];
    BucketsPermute(s, 0);
    BucketsSorted(s, 0, RADIX);
    if totalPasses == 1 {
      AllZero(s, 1);
      LowBytesDecide(s, t);
      return syms1;
    }
    forall b | 0 <= b < RADIX
      ensures hist[1 * RADIX + b] == |Bucket(t, 1, b)|
    {
      assert hist[RADIX + b] == |Bucket(s, 1, b)|;
      BucketSizePermuted(s, t, 1, b);
    }
    DistributePass(syms1, syms0, 1, hist);
    BucketsPermute(t, 1);
    BucketsSorted(t, 1, RADIX);
    return syms0;
  }

  lemma LowBytesDecide(s: seq<SymFreq>, t: seq<SymFreq>)
    requires multiset(s) == multiset(t) && SortedLow(t, 1)
    requires forall x :: x in s ==> Digit(x, 1) == 0
    ensures SortedByKey(t)
  {
    forall x | x in t
      ensures Low(x, 1) == x.key
    {
      assert x in multiset(t);
      assert Digit(x, 1) == 0;
    }
    forall i, j | 0 <= i <= j < |t|
      ensures t[i].key <= t[j].key
    {
      assert Low(t[i], 1) <= Low(t[j], 1);
    }
  }
}
