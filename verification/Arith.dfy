// Powers of two and prefix sums, shared by the models of the compressor, the
// decompressor and the compiler.
module Arith {

  type U16 = x: int | 0 <= x < 0x1_0000

  function Pow2(n: nat): (p: nat)
    ensures p >= 1
  {
    if n == 0 then 1 else 2 * Pow2(n - 1)
  }

  lemma {:induction false} Pow2Add(a: nat, b: nat)
    ensures Pow2(a + b) == Pow2(a) * Pow2(b)
  {
    if a == 0 {
    } else {
      Pow2Add(a - 1, b);
      assert Pow2(a + b) == 2 * (Pow2(a - 1) * Pow2(b)) == (2 * Pow2(a - 1)) * Pow2(b);
    }
  }

  lemma {:induction false} Pow2Monotone(a: nat, b: nat)
    requires a <= b
    ensures Pow2(a) <= Pow2(b)
    decreases b
  {
    if a < b {
      Pow2Monotone(a, b - 1);
    }
  }

  // Sum of the first k elements.
  function SumTo(s: seq<nat>, k: nat): (r: nat)
    requires k <= |s|
  {
    if k == 0 then 0 else SumTo(s, k - 1) + s[k - 1]
  }

  // Sum of the first k products s[i] * d[i].
  function DotTo(s: seq<nat>, d: seq<nat>, k: nat): (r: nat)
    requires k <= |s| && k <= |d|
  {
    if k == 0 then 0 else DotTo(s, d, k - 1) + s[k - 1] * d[k - 1]
  }

  // Kraft sum of the first k lengths, counted in units of 2^-m.
  function KraftTo(m: nat, d: seq<nat>, k: nat): (r: nat)
    requires k <= |d|
    requires forall i :: 0 <= i < k ==> d[i] <= m
  {
    if k == 0 then 0 else KraftTo(m, d, k - 1) + Pow2(m - d[k - 1])
  }

  // A sum of naturals dominates each of its prefixes and terms.
  lemma {:induction false} SumToMonotone(s: seq<nat>, j: nat, k: nat)
    requires j <= k <= |s|
    ensures SumTo(s, j) <= SumTo(s, k)
    ensures j < k ==> SumTo(s, j) + s[k - 1] <= SumTo(s, k)
    decreases k
  {
    if j < k {
      SumToMonotone(s, j, k - 1);
    }
  }

  lemma {:induction false} SumToPrefix(s: seq<nat>, t: seq<nat>, k: nat)
    requires k <= |s| && k <= |t| && s[..k] == t[..k]
    ensures SumTo(s, k) == SumTo(t, k)
  {
    if k > 0 {
      assert s[..k - 1] == s[..k][..k - 1] == t[..k][..k - 1] == t[..k - 1];
      assert s[k - 1] == s[..k][k - 1] == t[..k][k - 1] == t[k - 1];
      SumToPrefix(s, t, k - 1);
    }
  }

  // Facts about products, kept apart so that proofs need no non-linear reasoning.

  lemma Distribute(x: int, y: int, u: int)
    ensures (x + y) * u == x * u + y * u
  {
  }

  lemma DoubleSum(x: int, y: int, u: int)
    ensures (2 * (x + y)) * u == x * (2 * u) + y * (2 * u)
  {
  }

  lemma DoubleProduct(x: int, u: int)
    ensures x * (2 * u) == 2 * (x * u)
  {
  }

  lemma RankRoom(x: nat, y: nat, u: nat)
    requires x < y
    ensures x * u + u <= y * u
  {
    Distribute(x + 1, y - x - 1, u);
    Distribute(x, 1, u);
  }
}
