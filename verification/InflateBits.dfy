// The decompressor's bit buffer (kernel/miniz/miniz.c:2266-2379): reading bits and symbols
// from input that arrives in pieces.
module InflateBits {
  import opened Arith
  import opened Bits
  import opened Canonical
  import opened FastTable
  import opened BitWriter
  import opened BlockDecode

  // v >> n and v & ((1 << n) - 1)
  function High(v: nat, n: nat): (r: nat) {
    QuotientNat(v, Pow2(n));
    v / Pow2(n)
  }

  function Low(v: nat, n: nat): (r: nat)
    ensures r < Pow2(n)
  {
    v % Pow2(n)
  }

  lemma QuotientNat(v: nat, p: nat)
    requires p > 0
    ensures v / p >= 0
  {
  }

  // The buffer holds the n stream bits from pos on, up to byte k.
  ghost predicate Buffered(stream: seq<bool>, pos: nat, k: nat, buf: nat, n: nat)
  {
    pos + n == 8 * k <= |stream| && buf == LsbValue(stream[pos..8 * k])
  }

  lemma BufferedRange(stream: seq<bool>, pos: nat, k: nat, buf: nat, n: nat)
    requires Buffered(stream, pos, k, buf, n)
    ensures buf < Pow2(n)
  {
    hide LsbValue;
    LsbBitsOfValue(stream[pos..8 * k]);
  }

  lemma BufferedByte(stream: seq<bool>, pos: nat, k: nat, buf: nat, n: nat)
    requires Buffered(stream, pos, k, buf, n) && 8 * k + 8 <= |stream|
    ensures Buffered(stream, pos, k + 1, buf + ByteAt(stream, k) * Pow2(n), n + 8)
  {
    hide LsbValue;
    LsbValueConcat(stream[pos..8 * k], stream[8 * k..8 * k + 8]);
    assert stream[pos..8 * k] + stream[8 * k..8 * k + 8] == stream[pos..8 * k + 8];
  }

  lemma BufferedTake(stream: seq<bool>, pos: nat, k: nat, buf: nat, n: nat, t: nat)
    requires Buffered(stream, pos, k, buf, n) && t <= n
    ensures Low(buf, t) == LsbValue(stream[pos..pos + t])
    ensures Buffered(stream, pos + t, k, High(buf, t), n - t)
  {
    hide LsbValue, Pow2;
    var a, b := stream[pos..pos + t], stream[pos + t..8 * k];
    assert a + b == stream[pos..8 * k];
    LsbValueConcat(a, b);
    LsbBitsOfValue(a);
    Commute(LsbValue(b), Pow2(t));
    DivUnique(buf, Pow2(t), LsbValue(b), LsbValue(a));
  }

  lemma Commute(a: nat, b: nat)
    ensures a * b == b * a
  {
  }

  // Giving the last byte back.
  lemma BufferedBack(stream: seq<bool>, pos: nat, k: nat, buf: nat, n: nat)
    requires Buffered(stream, pos, k, buf, n) && n >= 8
    ensures k > 0 && Buffered(stream, pos, k - 1, Low(buf, n - 8), n - 8)
  {
    hide LsbValue, Low;
    BufferedTake(stream, pos, k, buf, n, n - 8);
  }

  lemma LowLow(v: nat, a: nat, b: nat)
    requires b <= a
    ensures Low(Low(v, a), b) == Low(v, b)
  {
    hide Pow2;
    Pow2Add(b, a - b);
    var p, q := Pow2(b), Pow2(a - b);
    var x, r := v / (p * q), v % (p * q);
    assert v == (p * q) * x + r;
    var y, z := r / p, r % p;
    assert r == p * y + z;
    assert (p * q) * x == p * (q * x) by { Reassoc(p, q, x); }
    MulAdd(p, q * x, y);
    DivUnique(v, p, q * x + y, z);
  }

  lemma Reassoc(p: nat, q: nat, x: nat)
    ensures (p * q) * x == p * (q * x)
  {
  }

  // ---------------------------------------------------------------------------------
  // Symbols.

  // The bits of the symbol s that comes next, as far as they are buffered.
  lemma BufferedCode(stream: seq<bool>, pos: nat, k: nat, buf: nat, n: nat, w: seq<bool>)
    requires Buffered(stream, pos, k, buf, n) && At(stream, pos, w) && |w| <= n
    ensures LsbBits(buf, |w|) == w
  {
    hide LsbValue, LsbBits;
    BufferedTake(stream, pos, k, buf, n, |w|);
    LsbMod(buf, |w|);
    LsbBitsOfValue(w);
  }

  // A short table entry that the buffered bits reach belongs to the symbol that comes.
  lemma ShortIsNext(sizes: seq<nat>, L: seq<int>, T: seq<int>, P: seq<seq<bool>>, stream: seq<bool>, pos: nat, k: nat,
      buf: nat, n: nat, s: nat)
    requires Table(sizes, |sizes|, L, T, P) && Buffered(stream, pos, k, buf, n)
    requires Used(sizes, s) && At(stream, pos, Codeword(sizes, s))
    ensures |L| == FAST_LOOKUP_SIZE
    ensures var x := L[buf % FAST_LOOKUP_SIZE]; x > 0 && x / 512 <= n ==> x / 512 == sizes[s]
  {
    hide Codeword, LsbBits, LsbValue, TreeOK, NodesOK, Covered, IsNode, Feasible;
    var x := L[buf % FAST_LOOKUP_SIZE];
    if x > 0 && x / 512 <= n {
      var t := x % 512;
      assert IsShort(sizes, x, LsbBits(buf % FAST_LOOKUP_SIZE, FAST_LOOKUP_BITS));
      ShortReal(sizes, stream, pos, k, buf, n, t);
      assert stream[pos..][..sizes[s]] == stream[pos..pos + sizes[s]];
      UniqueDecoding(MAX_CODE_SIZE, sizes, s, t, stream[pos..]);
    }
  }

  lemma ShortReal(sizes: seq<nat>, stream: seq<bool>, pos: nat, k: nat, buf: nat, n: nat, t: nat)
    requires Buffered(stream, pos, k, buf, n) && Used(sizes, t) && sizes[t] <= n && sizes[t] <= FAST_LOOKUP_BITS
    requires Codeword(sizes, t) <= LsbBits(buf % FAST_LOOKUP_SIZE, FAST_LOOKUP_BITS)
    ensures Codeword(sizes, t) <= stream[pos..]
  {
    hide Codeword, LsbBits, LsbValue;
    var z := sizes[t];
    LowBits(buf, z);
    assert LsbBits(buf, z) == Codeword(sizes, t);
    BufferedCode(stream, pos, k, buf, n, stream[pos..pos + z]);
    assert stream[pos..][..z] == stream[pos..pos + z];
  }

  // A tree entry under ten buffered bits means that the symbol that comes has a long code.
  lemma TreeIsNext(sizes: seq<nat>, L: seq<int>, T: seq<int>, P: seq<seq<bool>>, stream: seq<bool>, pos: nat, k: nat,
      buf: nat, n: nat, s: nat)
    requires Table(sizes, |sizes|, L, T, P) && Buffered(stream, pos, k, buf, n) && n >= FAST_LOOKUP_BITS
    requires Used(sizes, s) && At(stream, pos, Codeword(sizes, s))
    ensures |L| == FAST_LOOKUP_SIZE && (L[buf % FAST_LOOKUP_SIZE] < 0 ==> sizes[s] > FAST_LOOKUP_BITS)
  {
    hide Codeword, LsbBits, LsbValue, Table;
    TableParts(sizes, |sizes|, L, T, P);
    if sizes[s] <= FAST_LOOKUP_BITS {
      BufferedCode(stream, pos, k, buf, n, Codeword(sizes, s));
      LowBits(buf, sizes[s]);
      ShortEntry(sizes, L, T, P, s, buf % FAST_LOOKUP_SIZE);
    }
  }
}
