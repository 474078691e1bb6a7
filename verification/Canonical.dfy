// Canonical Huffman codes (RFC 1951 section 3.2.2) from an array of code sizes, 0 marking
// an unused symbol.
module Canonical {
  import opened Arith
  import opened Bits

  // How many of the first k symbols have code size l.
  function Num(sizes: seq<nat>, l: nat, k: nat): (r: nat)
    requires k <= |sizes|
  {
    if k == 0 then 0 else Num(sizes, l, k - 1) + (if sizes[k - 1] == l then 1 else 0)
  }

  // The first code of size l: next_code[l] before any code is handed out.
  function First(sizes: seq<nat>, l: nat): (r: nat)
  {
    if l <= 1 then 0 else 2 * (First(sizes, l - 1) + Num(sizes, l - 1, |sizes|))
  }

  function Code(sizes: seq<nat>, s: nat): (r: nat)
    requires s < |sizes|
  {
    First(sizes, sizes[s]) + Num(sizes, sizes[s], s)
  }

  // The code of s in stream order.
  function Codeword(sizes: seq<nat>, s: nat): (b: seq<bool>)
    requires s < |sizes|
    ensures |b| == sizes[s]
  {
    MsbBits(Code(sizes, s), sizes[s])
  }

  ghost predicate Used(sizes: seq<nat>, s: nat)
  {
    s < |sizes| && sizes[s] > 0
  }

  ghost predicate Bounded(m: nat, sizes: seq<nat>)
  {
    forall i :: 0 <= i < |sizes| ==> sizes[i] <= m
  }

  // Space, in units of 2^-m, taken by those of the first k symbols whose size is below l.
  function Below(m: nat, sizes: seq<nat>, l: nat, k: nat): (r: nat)
    requires k <= |sizes| && Bounded(m, sizes)
  {
    if k == 0 then 0
    else Below(m, sizes, l, k - 1) + (if 0 < sizes[k - 1] < l then Pow2(m - sizes[k - 1]) else 0)
  }

  function Space(m: nat, sizes: seq<nat>): (r: nat)
    requires Bounded(m, sizes)
  {
    Below(m, sizes, m + 1, |sizes|)
  }

  // No code can be the beginning of another one.
  ghost predicate Feasible(m: nat, sizes: seq<nat>)
  {
    Bounded(m, sizes) && Space(m, sizes) <= Pow2(m)
  }

  // The codes fill the space: every long enough bit string begins with one (AlwaysDecodes).
  ghost predicate Complete(m: nat, sizes: seq<nat>)
  {
    Bounded(m, sizes) && Space(m, sizes) == Pow2(m)
  }

  lemma {:induction false} BelowNext(m: nat, sizes: seq<nat>, l: nat, k: nat)
    requires Bounded(m, sizes) && k <= |sizes| && 1 <= l <= m
    ensures Below(m, sizes, l + 1, k) == Below(m, sizes, l, k) + Num(sizes, l, k) * Pow2(m - l)
  {
    hide Pow2;
    if k > 0 {
      BelowNext(m, sizes, l, k - 1);
      if sizes[k - 1] == l {
        Distribute(Num(sizes, l, k - 1), 1, Pow2(m - l));
      } else {
        assert Num(sizes, l, k) == Num(sizes, l, k - 1);
      }
    }
  }

  lemma {:induction false} BelowMonotone(m: nat, sizes: seq<nat>, l: nat, l': nat, k: nat)
    requires Bounded(m, sizes) && k <= |sizes| && l <= l'
    ensures Below(m, sizes, l, k) <= Below(m, sizes, l', k)
  {
    if k > 0 {
      BelowMonotone(m, sizes, l, l', k - 1);
    }
  }

  lemma {:induction false} BelowOne(m: nat, sizes: seq<nat>, k: nat)
    requires Bounded(m, sizes) && k <= |sizes|
    ensures Below(m, sizes, 1, k) == 0
  {
    if k > 0 {
      BelowOne(m, sizes, k - 1);
    }
  }

  // First codes are the running totals of the space used by shorter codes.
  lemma {:induction false} FirstScaled(m: nat, sizes: seq<nat>, l: nat)
    requires Bounded(m, sizes) && 1 <= l <= m
    ensures First(sizes, l) * Pow2(m - l) == Below(m, sizes, l, |sizes|)
  {
    if l == 1 {
      BelowOne(m, sizes, |sizes|);
    } else {
      FirstScaled(m, sizes, l - 1);
      BelowNext(m, sizes, l - 1, |sizes|);
      DoubleSum(First(sizes, l - 1), Num(sizes, l - 1, |sizes|), Pow2(m - l));
    }
  }

  lemma {:induction false} NumMonotone(sizes: seq<nat>, l: nat, j: nat, k: nat)
    requires j <= k <= |sizes|
    ensures Num(sizes, l, j) <= Num(sizes, l, k)
    ensures j < k && sizes[j] == l ==> Num(sizes, l, j) + 1 <= Num(sizes, l, k)
    decreases k
  {
    if j < k {
      NumMonotone(sizes, l, j, k - 1);
    }
  }

  // Start of the interval of s when codes are read as binary fractions.
  function Start(m: nat, sizes: seq<nat>, s: nat): (r: nat)
    requires Bounded(m, sizes) && Used(sizes, s)
  {
    Code(sizes, s) * Pow2(m - sizes[s])
  }

  lemma StartScaled(m: nat, sizes: seq<nat>, s: nat)
    requires Bounded(m, sizes) && Used(sizes, s)
    ensures Start(m, sizes, s) == Below(m, sizes, sizes[s], |sizes|) + Num(sizes, sizes[s], s) * Pow2(m - sizes[s])
  {
    var l := sizes[s];
    FirstScaled(m, sizes, l);
    Distribute(First(sizes, l), Num(sizes, l, s), Pow2(m - l));
  }

  // Intervals of equally long codes follow each other, and stay below those of longer codes.
  lemma IntervalEnd(m: nat, sizes: seq<nat>, s: nat)
    requires Bounded(m, sizes) && Used(sizes, s)
    ensures Start(m, sizes, s) + Pow2(m - sizes[s]) <= Below(m, sizes, sizes[s] + 1, |sizes|)
    ensures Start(m, sizes, s) + Pow2(m - sizes[s]) <= Space(m, sizes)
  {
    var l := sizes[s];
    StartScaled(m, sizes, s);
    BelowNext(m, sizes, l, |sizes|);
    BelowMonotone(m, sizes, l + 1, m + 1, |sizes|);
    NumMonotone(sizes, l, s, |sizes|);
    RankRoom(Num(sizes, l, s), Num(sizes, l, |sizes|), Pow2(m - l));
  }

  lemma IntervalsDisjoint(m: nat, sizes: seq<nat>, s: nat, t: nat)
    requires Bounded(m, sizes) && Used(sizes, s) && Used(sizes, t)
    requires sizes[s] < sizes[t] || (sizes[s] == sizes[t] && s < t)
    ensures Start(m, sizes, s) + Pow2(m - sizes[s]) <= Start(m, sizes, t)
  {
    hide Start, Below, Num, Pow2;
    StartScaled(m, sizes, s);
    StartScaled(m, sizes, t);
    if sizes[s] < sizes[t] {
      IntervalEnd(m, sizes, s);
      BelowMonotone(m, sizes, sizes[s] + 1, sizes[t], |sizes|);
    } else {
      var l := sizes[s];
      NumMonotone(sizes, l, s, t);
      RankRoom(Num(sizes, l, s), Num(sizes, l, t), Pow2(m - l));
    }
  }

  // Codes fit their size.
  lemma CodeFits(m: nat, sizes: seq<nat>, s: nat)
    requires Feasible(m, sizes) && Used(sizes, s)
    ensures Code(sizes, s) < Pow2(sizes[s])
    ensures MsbValue(Codeword(sizes, s)) == Code(sizes, s)
  {
    hide Pow2, MsbValue, MsbBits, Code, Space;
    var l, c, u := sizes[s], Code(sizes, s), Pow2(m - sizes[s]);
    IntervalEnd(m, sizes, s);
    Pow2Add(l, m - l);
    RoomRank(c, Pow2(l), u);
    MsbValueOfBits(c, l);
  }

  lemma RoomRank(c: nat, p: nat, u: nat)
    requires c * u + u <= p * u
    ensures u > 0 ==> c < p
  {
    if p <= c {
      MulMonotone(u, p, c);
    }
  }

  // The fraction a bit string of length m denotes lies in the interval of any code it
  // begins with, and conversely.
  lemma PrefixIsInterval(m: nat, sizes: seq<nat>, s: nat, bits: seq<bool>)
    requires Feasible(m, sizes) && Used(sizes, s) && |bits| == m
    ensures Codeword(sizes, s) <= bits
        <==> Start(m, sizes, s) <= MsbValue(bits) < Start(m, sizes, s) + Pow2(m - sizes[s])
  {
    hide MsbBits, MsbValue, Pow2, Code;
    var l, v := sizes[s], MsbValue(bits);
    MsbBitsOfValue(bits);
    CodeFits(m, sizes, s);
    TopBits(m, v, l, Code(sizes, s));
    assert l <= |bits| && bits[..l] == MsbBits(v, m)[..l];
  }

  // The first l of m bits spell c exactly when the value lies in the interval of c.
  lemma TopBits(m: nat, v: nat, l: nat, c: nat)
    requires l <= m && v < Pow2(m) && c < Pow2(l)
    ensures MsbBits(v, m)[..l] == MsbBits(c, l) <==> c * Pow2(m - l) <= v < c * Pow2(m - l) + Pow2(m - l)
  {
    hide MsbBits, MsbValue, Pow2;
    var u := Pow2(m - l);
    MsbPrefix(v, m, l);
    Pow2Add(l, m - l);
    QuotientBelow(v, u, Pow2(l));
    MsbValueOfBits(v / u, l);
    MsbValueOfBits(c, l);
    QuotientInterval(v, u, c);
  }

  lemma QuotientBelow(v: nat, u: nat, p: nat)
    requires u > 0 && v < p * u
    ensures v / u < p
  {
    if p <= v / u {
      MulMonotone(u, p, v / u);
    }
  }

  lemma QuotientAbove(v: nat, u: nat, q: nat)
    requires u > 0 && q * u <= v
    ensures q <= v / u
  {
    if v / u < q {
      RankRoom(v / u, q, u);
    }
  }

  lemma QuotientInterval(v: nat, u: nat, c: nat)
    requires u > 0
    ensures v / u == c <==> c * u <= v < c * u + u
  {
    if c * u <= v < c * u + u {
      assert u * c == c * u;
      DivUnique(v, u, c, v - c * u);
    }
  }

  // No code is the beginning of another symbol's code.
  lemma PrefixFree(m: nat, sizes: seq<nat>, s: nat, t: nat)
    requires Feasible(m, sizes) && Used(sizes, s) && Used(sizes, t)
    requires Codeword(sizes, s) <= Codeword(sizes, t)
    ensures s == t
  {
    var bits := Codeword(sizes, t) + seq(m - sizes[t], _ => false);
    PrefixIsInterval(m, sizes, s, bits);
    PrefixIsInterval(m, sizes, t, bits);
    if s != t {
      if sizes[s] < sizes[t] || (sizes[s] == sizes[t] && s < t) {
        IntervalsDisjoint(m, sizes, s, t);
      } else {
        IntervalsDisjoint(m, sizes, t, s);
      }
    }
  }

  // Decoding is unambiguous.
  lemma UniqueDecoding(m: nat, sizes: seq<nat>, s: nat, t: nat, bits: seq<bool>)
    requires Feasible(m, sizes) && Used(sizes, s) && Used(sizes, t)
    requires Codeword(sizes, s) <= bits && Codeword(sizes, t) <= bits
    ensures s == t
  {
    if sizes[s] <= sizes[t] {
      assert Codeword(sizes, s) <= Codeword(sizes, t);
      PrefixFree(m, sizes, s, t);
    } else {
      assert Codeword(sizes, t) <= Codeword(sizes, s);
      PrefixFree(m, sizes, t, s);
    }
  }

  lemma {:induction false} FindRank(sizes: seq<nat>, l: nat, k: nat, rank: nat) returns (s: nat)
    requires k <= |sizes| && rank < Num(sizes, l, k)
    ensures s < k && sizes[s] == l && Num(sizes, l, s) == rank
  {
    if sizes[k - 1] == l && Num(sizes, l, k - 1) == rank {
      s := k - 1;
    } else {
      s := FindRank(sizes, l, k - 1, rank);
    }
  }

  lemma {:induction false} FindSize(m: nat, sizes: seq<nat>, v: nat, l: nat) returns (r: nat)
    requires Bounded(m, sizes) && 1 <= l <= m + 1 && v < Below(m, sizes, l, |sizes|)
    ensures 1 <= r <= m && Below(m, sizes, r, |sizes|) <= v < Below(m, sizes, r + 1, |sizes|)
  {
    if l == 1 {
      BelowOne(m, sizes, |sizes|);
      assert false;
    } else if Below(m, sizes, l - 1, |sizes|) <= v {
      r := l - 1;
    } else {
      r := FindSize(m, sizes, v, l - 1);
    }
  }

  // Intervals of codes leave no gap below the space they fill.
  lemma FindSymbol(m: nat, sizes: seq<nat>, v: nat) returns (s: nat)
    requires Bounded(m, sizes) && v < Space(m, sizes)
    ensures Used(sizes, s) && Start(m, sizes, s) <= v < Start(m, sizes, s) + Pow2(m - sizes[s])
  {
    hide Below, Num, Pow2, Start;
    var l := FindSize(m, sizes, v, m + 1);
    BelowNext(m, sizes, l, |sizes|);
    var u, d := Pow2(m - l), v - Below(m, sizes, l, |sizes|);
    QuotientBelow(d, u, Num(sizes, l, |sizes|));
    QuotientInterval(d, u, d / u);
    s := FindRank(sizes, l, |sizes|, d / u);
    StartScaled(m, sizes, s);
  }

  // A bit string begins with a code exactly if its value is below the space they fill.
  lemma BeginsWithCode(m: nat, sizes: seq<nat>, bits: seq<bool>)
    requires Feasible(m, sizes) && |bits| == m
    ensures (exists s: nat :: Used(sizes, s) && Codeword(sizes, s) <= bits) <==> MsbValue(bits) < Space(m, sizes)
  {
    hide Below, Num, Pow2, Start, Codeword, MsbValue;
    if MsbValue(bits) < Space(m, sizes) {
      var s := FindSymbol(m, sizes, MsbValue(bits));
      PrefixIsInterval(m, sizes, s, bits);
    }
    if s: nat :| Used(sizes, s) && Codeword(sizes, s) <= bits {
      PrefixIsInterval(m, sizes, s, bits);
      IntervalEnd(m, sizes, s);
    }
  }

  // Decoding never fails exactly for complete codes.
  lemma AlwaysDecodes(m: nat, sizes: seq<nat>)
    requires Feasible(m, sizes)
    ensures Complete(m, sizes) <==>
            forall bits: seq<bool> :: |bits| == m ==> exists s: nat :: Used(sizes, s) && Codeword(sizes, s) <= bits
  {
    hide Below, Num, Pow2, Codeword, MsbValue, MsbBits;
    forall bits: seq<bool> | Complete(m, sizes) && |bits| == m
      ensures exists s: nat :: Used(sizes, s) && Codeword(sizes, s) <= bits
    {
      BeginsWithCode(m, sizes, bits);
      MsbBitsOfValue(bits);
    }
    if !Complete(m, sizes) {
      MsbValueOfBits(Space(m, sizes), m);
      BeginsWithCode(m, sizes, MsbBits(Space(m, sizes), m));
    }
  }
}
