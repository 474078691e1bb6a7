// Bit strings in stream order.  DEFLATE packs values starting with their least
// significant bit and Huffman codes starting with their most significant bit.
module Bits {
  import opened Arith

  function Bit(b: bool): nat {
    if b then 1 else 0
  }

  // The n low bits of v, least significant first.
  function LsbBits(v: nat, n: nat): (b: seq<bool>)
    ensures |b| == n
  {
    if n == 0 then [] else [v % 2 == 1] + LsbBits(v / 2, n - 1)
  }

  // The n low bits of v, most significant first.
  function MsbBits(v: nat, n: nat): (b: seq<bool>)
    ensures |b| == n
  {
    if n == 0 then [] else MsbBits(v / 2, n - 1) + [v % 2 == 1]
  }

  function LsbValue(b: seq<bool>): (v: nat)
  {
    if b == [] then 0 else Bit(b[0]) + 2 * LsbValue(b[1..])
  }

  function MsbValue(b: seq<bool>): (v: nat)
  {
    if b == [] then 0 else 2 * MsbValue(b[..|b| - 1]) + Bit(b[|b| - 1])
  }

  lemma {:induction false} LsbValueOfBits(v: nat, n: nat)
    requires v < Pow2(n)
    ensures LsbValue(LsbBits(v, n)) == v
  {
    if n > 0 {
      LsbValueOfBits(v / 2, n - 1);
      assert ([v % 2 == 1] + LsbBits(v / 2, n - 1))[1..] == LsbBits(v / 2, n - 1);
    }
  }

  lemma {:induction false} LsbBitsOfValue(b: seq<bool>)
    ensures LsbValue(b) < Pow2(|b|)
    ensures LsbBits(LsbValue(b), |b|) == b
  {
    if b != [] {
      LsbBitsOfValue(b[1..]);
      assert b == [b[0]] + b[1..];
    }
  }

  lemma MsbValueSnoc(b: seq<bool>, x: bool)
    ensures MsbValue(b + [x]) == 2 * MsbValue(b) + Bit(x)
  {
    assert (b + [x])[..|b|] == b;
  }

  lemma {:induction false} MsbValueOfBits(v: nat, n: nat)
    requires v < Pow2(n)
    ensures MsbValue(MsbBits(v, n)) == v
  {
    if n > 0 {
      MsbValueOfBits(v / 2, n - 1);
      MsbValueSnoc(MsbBits(v / 2, n - 1), v % 2 == 1);
    }
  }

  lemma MsbSplit(v: nat, x: bool, n: nat)
    ensures MsbBits(2 * v + Bit(x), n + 1) == MsbBits(v, n) + [x]
    ensures v < Pow2(n) ==> 2 * v + Bit(x) < Pow2(n + 1)
  {
    assert (2 * v + Bit(x)) / 2 == v && ((2 * v + Bit(x)) % 2 == 1) == x;
  }

  lemma {:induction false} MsbBitsOfValue(b: seq<bool>)
    ensures MsbValue(b) < Pow2(|b|)
    ensures MsbBits(MsbValue(b), |b|) == b
  {
    if b != [] {
      var n, v, x := |b| - 1, MsbValue(b[..|b| - 1]), b[|b| - 1];
      MsbBitsOfValue(b[..n]);
      assert b == b[..n] + [x];
      MsbSplit(v, x, n);
    }
  }

  lemma {:induction false} DivPow2(v: nat, k: nat)
    ensures v / Pow2(k + 1) == v / 2 / Pow2(k) == v / Pow2(k) / 2
  {
    DivDiv(v, 2, Pow2(k));
    DivDiv(v, Pow2(k), 2);
  }

  lemma DivDiv(v: nat, a: nat, b: nat)
    requires a > 0 && b > 0
    ensures a * b > 0 && v / (a * b) == v / a / b
  {
    DivMod(v, a);
    DivMod(v / a, b);
    TwoQuotients(v, a, b, v / a, v % a, v / a / b, v / a % b);
  }

  lemma DivMod(v: nat, d: nat)
    requires d > 0
    ensures v == d * (v / d) + v % d && 0 <= v / d && 0 <= v % d < d
  {
  }

  lemma TwoQuotients(v: nat, a: nat, b: nat, q: nat, r: nat, s: nat, t: nat)
    requires v == a * q + r && q == b * s + t && r < a && t < b
    ensures a * b > 0 && v / (a * b) == s
  {
    TwoDigits(v, a, b, s, t, r);
    Positive(a, b);
    DivUnique(v, a * b, s, a * t + r);
  }

  lemma Positive(a: nat, b: nat)
    requires a > 0 && b > 0
    ensures a * b > 0
  {
    MulMonotone(a, 1, b);
  }

  lemma TwoDigits(v: nat, a: nat, b: nat, s: nat, t: nat, r: nat)
    requires v == a * (b * s + t) + r && t < b && r < a
    ensures v == (a * b) * s + (a * t + r) && a * t + r < a * b
  {
    MulAdd(a, b * s, t);
    ReassociateProduct(a, b, s);
    MulMonotone(a, t + 1, b);
    MulAdd(a, t, 1);
  }

  lemma ReassociateProduct(a: nat, b: nat, s: nat)
    ensures a * (b * s) == (a * b) * s
  {
  }

  lemma MulAdd(a: int, x: int, y: int)
    ensures a * (x + y) == a * x + a * y
  {
  }

  lemma MulMonotone(a: nat, x: int, y: int)
    requires x <= y
    ensures a * x <= a * y
  {
  }

  lemma DivUnique(v: nat, d: nat, q: nat, r: nat)
    requires d > 0 && r < d && v == d * q + r
    ensures v / d == q && v % d == r
  {
    var q', r' := v / d, v % d;
    if q < q' {
      MulMonotone(d, q + 1, q');
      MulAdd(d, q, 1);
    } else if q > q' {
      MulMonotone(d, q' + 1, q);
      MulAdd(d, q', 1);
    }
  }

  lemma {:induction false} MsbCons(v: nat, k: nat)
    ensures MsbBits(v, k + 1) == [v / Pow2(k) % 2 == 1] + MsbBits(v, k)
  {
    if k > 0 {
      MsbCons(v / 2, k - 1);
      DivPow2(v, k - 1);
      assert MsbBits(v, k + 1) == ([v / Pow2(k) % 2 == 1] + MsbBits(v / 2, k - 1)) + [v % 2 == 1];
    }
  }

  lemma {:induction false} LsbPrefix(v: nat, n: nat, k: nat)
    requires k <= n
    ensures LsbBits(v, n)[..k] == LsbBits(v, k)
  {
    if k > 0 {
      LsbPrefix(v / 2, n - 1, k - 1);
    }
  }

  lemma {:induction false} MsbPrefix(v: nat, n: nat, k: nat)
    requires k <= n
    ensures MsbBits(v, n)[..k] == MsbBits(v / Pow2(n - k), k)
    decreases n
  {
    if k < n {
      MsbPrefix(v / 2, n - 1, k);
      DivPow2(v, n - 1 - k);
    }
  }

  // Concatenating packed values adds them at the right place.
  lemma {:induction false} LsbConcat(a: nat, m: nat, b: nat, n: nat)
    requires a < Pow2(m)
    ensures LsbBits(a + b * Pow2(m), m + n) == LsbBits(a, m) + LsbBits(b, n)
  {
    if m > 0 {
      var v := a + b * Pow2(m);
      assert b * Pow2(m) == 2 * (b * Pow2(m - 1));
      assert v % 2 == a % 2 && v / 2 == a / 2 + b * Pow2(m - 1);
      LsbConcat(a / 2, m - 1, b, n);
    }
  }

  // Reversing the bits of a Huffman code turns one order into the other.
  function Reversed(code: nat, n: nat): (r: nat)
    ensures r == LsbValue(MsbBits(code, n))
  {
    LsbValue(MsbBits(code, n))
  }

  lemma ReversedBits(code: nat, n: nat)
    ensures Reversed(code, n) < Pow2(n)
    ensures LsbBits(Reversed(code, n), n) == MsbBits(code, n)
  {
    LsbBitsOfValue(MsbBits(code, n));
  }

  lemma {:induction false} LsbMod(v: nat, n: nat)
    ensures LsbBits(v % Pow2(n), n) == LsbBits(v, n)
    ensures LsbValue(LsbBits(v, n)) == v % Pow2(n)
  {
    if n > 0 {
      LsbMod(v / 2, n - 1);
      ModHalf(v, Pow2(n - 1));
      assert ([v % 2 == 1] + LsbBits(v / 2, n - 1))[1..] == LsbBits(v / 2, n - 1);
    }
  }

  lemma ModHalf(v: nat, p: nat)
    requires p > 0
    ensures v % (2 * p) % 2 == v % 2 && v % (2 * p) / 2 == v / 2 % p
    ensures v % (2 * p) == v % 2 + 2 * (v / 2 % p)
  {
    var q, r := v / 2 / p, v / 2 % p;
    assert v / 2 == p * q + r;
    assert 2 * (p * q) == (2 * p) * q;
    DivUnique(v, 2 * p, q, 2 * r + v % 2);
  }

  lemma {:induction false} LsbAt(v: nat, n: nat, i: nat)
    requires i < n
    ensures LsbBits(v, n)[i] == (v / Pow2(i) % 2 == 1)
  {
    if i > 0 {
      LsbAt(v / 2, n - 1, i - 1);
      DivPow2(v, i - 1);
    }
  }
}
