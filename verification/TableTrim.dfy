// Sending only the used beginning of a table of code sizes loses nothing, and the tables
// the compressor builds are ones the decompressor accepts.
module TableTrim {
  import opened Arith
  import opened Bits
  import opened Canonical
  import opened HuffTable
  import opened FastTable
  import opened Tokens
  import opened BlockBits

  // Symbols from n on have no code.
  ghost predicate UnusedFrom(sizes: seq<nat>, n: nat)
  {
    n <= |sizes| && forall i :: n <= i < |sizes| ==> sizes[i] == 0
  }

  lemma {:induction false} TrimNum(sizes: seq<nat>, n: nat, l: nat, k: nat)
    requires UnusedFrom(sizes, n) && k <= |sizes| && l > 0
    ensures Num(sizes, l, k) == Num(sizes[..n], l, if k < n then k else n)
  {
    if k > 0 {
      TrimNum(sizes, n, l, k - 1);
    }
  }

  lemma {:induction false} TrimFirst(sizes: seq<nat>, n: nat, l: nat)
    requires UnusedFrom(sizes, n)
    ensures First(sizes[..n], l) == First(sizes, l)
  {
    if l > 1 {
      TrimFirst(sizes, n, l - 1);
      TrimNum(sizes, n, l - 1, |sizes|);
    }
  }

  lemma TrimCode(sizes: seq<nat>, n: nat, s: nat)
    requires UnusedFrom(sizes, n) && Used(sizes, s)
    ensures Used(sizes[..n], s) && sizes[..n][s] == sizes[s] && Codeword(sizes[..n], s) == Codeword(sizes, s)
  {
    hide First, Num;
    TrimFirst(sizes, n, sizes[s]);
    TrimNum(sizes, n, sizes[s], s);
  }

  lemma {:induction false} TrimBelow(m: nat, sizes: seq<nat>, n: nat, l: nat, k: nat)
    requires UnusedFrom(sizes, n) && k <= |sizes| && Bounded(m, sizes)
    ensures Bounded(m, sizes[..n])
    ensures Below(m, sizes, l, k) == Below(m, sizes[..n], l, if k < n then k else n)
  {
    if k > 0 {
      TrimBelow(m, sizes, n, l, k - 1);
    }
  }

  lemma TrimDecodable(sizes: seq<nat>, n: nat)
    requires UnusedFrom(sizes, n) && Decodable(sizes)
    ensures Decodable(sizes[..n])
  {
    hide Below;
    TrimBelow(MAX_CODE_SIZE, sizes, n, 16, |sizes|);
    forall u: nat, v: nat | !Complete(MAX_CODE_SIZE, sizes) && Used(sizes[..n], u) && Used(sizes[..n], v)
      ensures u == v
    {
      assert Used(sizes, u) && Used(sizes, v);
    }
  }

  // Counting space in finer units.
  lemma {:induction false} FinerBelow(m: nat, e: nat, sizes: seq<nat>, k: nat)
    requires Bounded(m, sizes) && k <= |sizes|
    ensures Bounded(m + e, sizes)
    ensures Below(m + e, sizes, m + e + 1, k) == Below(m, sizes, m + 1, k) * Pow2(e)
  {
    hide Pow2;
    if k > 0 {
      FinerBelow(m, e, sizes, k - 1);
      var s := sizes[k - 1];
      if s > 0 {
        Pow2Add(m - s, e);
        Distribute(Below(m, sizes, m + 1, k - 1), Pow2(m - s), Pow2(e));
      }
    }
  }

  lemma FinerComplete(m: nat, e: nat, sizes: seq<nat>)
    requires Feasible(m, sizes)
    ensures Feasible(m + e, sizes) && (Complete(m, sizes) ==> Complete(m + e, sizes))
  {
    hide Below, Pow2;
    FinerBelow(m, e, sizes, |sizes|);
    Pow2Add(m, e);
    ScaleDown(Space(m, sizes), Pow2(m), Pow2(e));
  }

  lemma ScaleDown(x: nat, y: nat, u: nat)
    requires x <= y
    ensures x * u <= y * u
  {
    MulMonotone(u, x, y);
  }

  // A table made from counts is accepted by the decompressor.
  lemma TableDecodable(counts: seq<U16>, sizes: seq<nat>, limit: nat)
    requires TableFor(counts, sizes, limit) && limit <= MAX_CODE_SIZE && |counts| <= MAX_HUFF_SYMBOLS
    ensures Decodable(sizes)
  {
    hide Feasible, Complete;
    FinerComplete(limit, MAX_CODE_SIZE - limit, sizes);
    forall u: nat, v: nat | Used(sizes, u) && Used(sizes, v) && u < v
      ensures Complete(limit, sizes)
    {
      assert counts[u] > 0 && counts[v] > 0;
    }
  }

  lemma TrimEncodable(ls: seq<nat>, ds: seq<nat>, a: nat, b: nat, t: Token)
    requires UnusedFrom(ls, a) && UnusedFrom(ds, b) && Encodable(ls, ds, t)
    ensures Encodable(ls[..a], ds[..b], t) && TokenBits(ls[..a], ds[..b], t) == TokenBits(ls, ds, t)
  {
    hide UnusedFrom, Codeword, LenSym, LenExtra, DistSym, DistExtra, LsbBits;
    match t
    case Literal(lit) => TrimCode(ls, a, lit);
    case Match(len, dist) =>
      TrimCode(ls, a, LenSym(len - MIN_MATCH_LEN));
      TrimCode(ds, b, DistSym(dist - 1));
  }

  lemma {:induction false} TrimTokens(ls: seq<nat>, ds: seq<nat>, a: nat, b: nat, ts: seq<Token>)
    requires UnusedFrom(ls, a) && UnusedFrom(ds, b) && AllEncodable(ls, ds, ts)
    ensures AllEncodable(ls[..a], ds[..b], ts) && TokensBits(ls[..a], ds[..b], ts) == TokensBits(ls, ds, ts)
  {
    hide Encodable, TokenBits;
    if ts != [] {
      TrimEncodable(ls, ds, a, b, ts[0]);
      TrimTokens(ls, ds, a, b, ts[1..]);
      assert forall i :: 1 <= i < |ts| ==> ts[i] == ts[1..][i - 1];
    }
  }

  lemma TrimBody(ls: seq<nat>, ds: seq<nat>, a: nat, b: nat, ts: seq<Token>)
    requires UnusedFrom(ls, a) && UnusedFrom(ds, b) && AllEncodable(ls, ds, ts) && Used(ls, END_OF_BLOCK)
    ensures AllEncodable(ls[..a], ds[..b], ts) && Used(ls[..a], END_OF_BLOCK)
    ensures BodyBits(ls[..a], ds[..b], ts) == BodyBits(ls, ds, ts)
  {
    hide UnusedFrom, Encodable, TokenBits, AllEncodable, TokensBits, Codeword;
    TrimTokens(ls, ds, a, b, ts);
    TrimCode(ls, a, END_OF_BLOCK);
  }
}
