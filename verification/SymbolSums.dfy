// Sums over lists of counted symbols, whatever their order.
module SymbolSums {
  import opened Arith
  import opened Huffman
  import opened RadixSort

  ghost predicate InRange(s: seq<SymFreq>, n: nat)
  {
    forall i :: 0 <= i < |s| ==> s[i].sym < n
  }

  // What the symbols cost with the sizes g.
  ghost function Weighed(s: seq<SymFreq>, g: seq<nat>): (r: nat)
    requires InRange(s, |g|)
  {
    if s == [] then 0 else Weighed(s[..|s| - 1], g) + s[|s| - 1].key * g[s[|s| - 1].sym]
  }

  // The space their codes take in units of 2^-m.
  ghost function Taken(m: nat, s: seq<SymFreq>, g: seq<nat>): (r: nat)
    requires InRange(s, |g|) && forall i :: 0 <= i < |s| ==> g[s[i].sym] <= m
  {
    if s == [] then 0 else Taken(m, s[..|s| - 1], g) + Pow2(m - g[s[|s| - 1].sym])
  }

  ghost predicate Sized(m: nat, s: seq<SymFreq>, g: seq<nat>)
  {
    InRange(s, |g|) && forall i :: 0 <= i < |s| ==> g[s[i].sym] <= m
  }

  lemma SumsLast(m: nat, s: seq<SymFreq>, x: SymFreq, g: seq<nat>)
    requires Sized(m, s, g) && Sized(m, [x], g)
    ensures x.sym < |g| && g[x.sym] <= m && Sized(m, s + [x], g)
    ensures Weighed(s + [x], g) == Weighed(s, g) + x.key * g[x.sym]
    ensures Taken(m, s + [x], g) == Taken(m, s, g) + Pow2(m - g[x.sym])
  {
    assert [x][0] == x;
    assert (s + [x])[..|s|] == s;
  }

  // An element in the middle counts as it does at the end.
  lemma {:induction false} SumsInsert(m: nat, a: seq<SymFreq>, x: SymFreq, b: seq<SymFreq>, g: seq<nat>)
    requires Sized(m, a + b, g) && Sized(m, [x], g)
    ensures x.sym < |g| && g[x.sym] <= m && Sized(m, a + [x] + b, g)
    ensures Weighed(a + [x] + b, g) == Weighed(a + b, g) + x.key * g[x.sym]
    ensures Taken(m, a + [x] + b, g) == Taken(m, a + b, g) + Pow2(m - g[x.sym])
    decreases |b|
  {
    hide Weighed, Taken, Pow2, Sized;
    if b == [] {
      assert a + [x] + b == a + [x] && a + b == a;
      SumsLast(m, a, x, g);
    } else {
      var y, b' := b[|b| - 1], b[..|b| - 1];
      assert a + b == (a + b') + [y] && a + [x] + b == (a + [x] + b') + [y];
      SizedParts(m, a + b', y, g);
      SumsInsert(m, a, x, b', g);
      SumsLast(m, a + b', y, g);
      SumsLast(m, a + [x] + b', y, g);
    }
  }

  lemma SizedParts(m: nat, s: seq<SymFreq>, x: SymFreq, g: seq<nat>)
    requires Sized(m, s + [x], g)
    ensures Sized(m, s, g) && Sized(m, [x], g)
  {
    assert (s + [x])[|s|] == x;
    forall i | 0 <= i < |s| ensures s[i].sym < |g| && g[s[i].sym] <= m {
      assert (s + [x])[i] == s[i];
    }
  }

  lemma SizedPermuted(m: nat, s: seq<SymFreq>, t: seq<SymFreq>, g: seq<nat>)
    requires multiset(s) == multiset(t) && Sized(m, s, g)
    ensures Sized(m, t, g)
  {
    forall i | 0 <= i < |t| ensures t[i].sym < |g| && g[t[i].sym] <= m {
      assert t[i] in multiset(t);
      assert t[i] in s;
    }
  }

  // Reordering changes neither.
  lemma {:induction false} PermutedSums(m: nat, s: seq<SymFreq>, t: seq<SymFreq>, g: seq<nat>)
    requires multiset(s) == multiset(t) && Sized(m, s, g)
    ensures Sized(m, t, g) && Weighed(s, g) == Weighed(t, g) && Taken(m, s, g) == Taken(m, t, g)
    decreases |s|
  {
    hide Weighed, Taken, Pow2, Sized;
    SizedPermuted(m, s, t, g);
    if s != [] {
      var x, r := s[|s| - 1], s[..|s| - 1];
      assert s == r + [x];
      assert x in multiset(t);
      var i := RemoveOne(x, t);
      var a, b := t[..i], t[i + 1..];
      SizedParts(m, r, x, g);
      PermutedSums(m, r, a + b, g);
      SumsLast(m, r, x, g);
      SumsInsert(m, a, x, b, g);
    } else {
      assert |t| == |multiset(t)| == 0;
    }
  }

  // The sizes of the symbols of a list.
  ghost function SizesOf(s: seq<SymFreq>, g: seq<nat>): (r: seq<nat>)
    requires InRange(s, |g|)
    ensures |r| == |s| && forall i :: 0 <= i < |s| ==> r[i] == g[s[i].sym]
  {
    seq(|s|, i requires 0 <= i < |s| => g[s[i].sym])
  }

  lemma {:induction false} SumsAreProducts(m: nat, s: seq<SymFreq>, g: seq<nat>, k: nat)
    requires Sized(m, s, g) && k <= |s|
    ensures Sized(m, s[..k], g) && Weighed(s[..k], g) == DotTo(Keys(s), SizesOf(s, g), k)
    ensures Taken(m, s[..k], g) == KraftTo(m, SizesOf(s, g), k)
  {
    if k > 0 {
      SumsAreProducts(m, s, g, k - 1);
      assert s[..k][..k - 1] == s[..k - 1];
    }
  }
}
