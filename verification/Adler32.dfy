// The Adler-32 checksum (RFC 1950 section 8.2), which compressor and decompressor work out a piece at
// a time with the remainders put off for as long as 32 bits allow
// (kernel/miniz/miniz.c:39-65, 1926-1927, 2822-2846).
module Adler32 {
  import opened Tokens

  const BASE := 65521
  const BLOCK := 5552
  const TWO_16: nat := 0x1_0000
  const TWO_32: nat := 0x1_0000_0000

  datatype Sums = Sums(s1: nat, s2: nat)

  // ---------------------------------------------------------------------------------
  // The checksum, with remainders after every byte.

  function Next(s: Sums, b: Byte): (r: Sums) {
    var s1 := (s.s1 + b) % BASE;
    Sums(s1, (s.s2 + s1) % BASE)
  }

  function Checksum(s: Sums, data: seq<Byte>): (r: Sums)
    decreases |data|
  {
    if data == [] then s else Next(Checksum(s, data[..|data| - 1]), data[|data| - 1])
  }

  predicate Reduced(s: Sums) {
    s.s1 < BASE && s.s2 < BASE
  }

  // The checksum of a piece goes on from that of what is before it.
  lemma {:induction false} ChecksumPieces(s: Sums, a: seq<Byte>, b: seq<Byte>)
    ensures Checksum(s, a + b) == Checksum(Checksum(s, a), b)
    decreases |b|
  {
    if b == [] {
      assert a + b == a;
    } else {
      ChecksumPieces(s, a, b[..|b| - 1]);
      assert (a + b)[..|a + b| - 1] == a + b[..|b| - 1];
    }
  }

  // ---------------------------------------------------------------------------------
  // Remainders put off.

  function Plain(s: Sums, data: seq<Byte>): (r: Sums)
    decreases |data|
  {
    if data == [] then s
    else
      var t := Plain(s, data[..|data| - 1]);
      Sums(t.s1 + data[|data| - 1], t.s2 + t.s1 + data[|data| - 1])
  }

  function Remainders(s: Sums): (r: Sums) {
    Sums(s.s1 % BASE, s.s2 % BASE)
  }

  lemma SumRemainder(x: nat, y: nat)
    ensures (x % BASE + y) % BASE == (x + y) % BASE
    ensures (y + x % BASE) % BASE == (x + y) % BASE
  {
  }

  // Putting them off changes nothing.
  lemma {:induction false} PlainRemainders(s: Sums, data: seq<Byte>)
    ensures Remainders(Plain(s, data)) == Checksum(Remainders(s), data)
    decreases |data|
  {
    if data != [] {
      var most, b := data[..|data| - 1], data[|data| - 1];
      PlainRemainders(s, most);
      var t := Plain(s, most);
      SumRemainder(t.s1, b);
      SumRemainder(t.s2, t.s1 + b);
      SumRemainder(t.s1 + b, t.s2 % BASE);
    }
  }

  lemma OneMore(x: nat, n: nat)
    ensures 255 * n * (n + 1) + 2 * 255 * (n + 1) == 255 * (n + 1) * (n + 2)
    ensures 2 * n * x + 2 * x == 2 * (n + 1) * x
  {
  }

  lemma {:induction false} PlainBounds(s: Sums, data: seq<Byte>)
    ensures Plain(s, data).s1 <= s.s1 + 255 * |data|
    ensures 2 * Plain(s, data).s2 <= 2 * s.s2 + 2 * |data| * s.s1 + 255 * |data| * (|data| + 1)
    decreases |data|
  {
    if data != [] {
      var n := |data| - 1;
      PlainBounds(s, data[..n]);
      OneMore(s.s1, n);
    }
  }

  // A block is short enough for 32 bits, even where the sums begin with any 16-bit values.
  lemma BlockFits(s: Sums, data: seq<Byte>)
    requires s.s1 < TWO_16 && s.s2 < TWO_16 && |data| <= BLOCK
    ensures Plain(s, data).s1 < TWO_32 && Plain(s, data).s2 < TWO_32
  {
    PlainBounds(s, data);
    var n := |data|;
    assert n * s.s1 <= BLOCK * 65535;
    assert n * (n + 1) <= BLOCK * (BLOCK + 1);
  }

  // With one byte more it is not: no longer block would do.
  function Greatest(n: nat): (r: seq<Byte>)
    ensures |r| == n
  {
    if n == 0 then [] else Greatest(n - 1) + [255]
  }

  lemma {:induction false} PlainGreatest(s: Sums, n: nat)
    ensures Plain(s, Greatest(n)).s1 == s.s1 + 255 * n
    ensures 2 * Plain(s, Greatest(n)).s2 == 2 * s.s2 + 2 * n * s.s1 + 255 * n * (n + 1)
  {
    if n > 0 {
      PlainGreatest(s, n - 1);
      assert Greatest(n)[..n - 1] == Greatest(n - 1);
      OneMore(s.s1, n - 1);
    }
  }

  lemma LongerOverflows(n: nat)
    requires n > BLOCK
    ensures Plain(Sums(BASE - 1, BASE - 1), Greatest(n)).s2 >= TWO_32
  {
    PlainGreatest(Sums(BASE - 1, BASE - 1), n);
    assert n * (BASE - 1) >= (BLOCK + 1) * (BASE - 1);
    assert n * (n + 1) >= (BLOCK + 1) * (BLOCK + 2);
  }

  // ---------------------------------------------------------------------------------
  // The source's loops.

  function Pack(s: Sums): (adler: nat) {
    s.s2 * TWO_16 + s.s1
  }

  function Unpack(adler: nat): (s: Sums)
    ensures Pack(s) == adler && s.s1 < TWO_16 && (adler < TWO_32 ==> s.s2 < TWO_16)
  {
    Sums(adler % TWO_16, adler / TWO_16)
  }

  // One byte, in 32 bits.
  method AddByte(s1: nat, s2: nat, b: Byte, ghost s: Sums, ghost before: seq<Byte>) returns (t1: nat, t2: nat)
    requires s.s1 < TWO_16 && s.s2 < TWO_16 && |before| < BLOCK && Sums(s1, s2) == Plain(s, before)
    ensures Sums(t1, t2) == Plain(s, before + [b])
  {
    assert (before + [b])[..|before|] == before;
    BlockFits(s, before + [b]);
    t1 := (s1 + b) % TWO_32;
    t2 := (s2 + t1) % TWO_32;
  }

  // Eight bytes at a time, then the rest.
  method AddBlock(s1: nat, s2: nat, block: seq<Byte>) returns (t1: nat, t2: nat)
    requires s1 < TWO_16 && s2 < TWO_16 && |block| <= BLOCK
    ensures Sums(t1, t2) == Plain(Sums(s1, s2), block)
  {
    ghost var s := Sums(s1, s2);
    t1, t2 := s1, s2;
    var i := 0;
    while i + 7 < |block|
      invariant 0 <= i <= |block| && Sums(t1, t2) == Plain(s, block[..i])
    {
      for k := 0 to 8
        invariant Sums(t1, t2) == Plain(s, block[..i + k])
      {
        assert block[..i + k + 1] == block[..i + k] + [block[i + k]];
        t1, t2 := AddByte(t1, t2, block[i + k], s, block[..i + k]);
      }
      i := i + 8;
    }
    while i < |block|
      invariant 0 <= i <= |block| && Sums(t1, t2) == Plain(s, block[..i])
    {
      assert block[..i + 1] == block[..i] + [block[i]];
      t1, t2 := AddByte(t1, t2, block[i], s, block[..i]);
      i := i + 1;
    }
    assert block[..i] == block;
  }

  lemma BlockStep(s: Sums, t: Sums, data: seq<Byte>, pos: nat, n: nat)
    requires pos + n <= |data| && Remainders(t) == Checksum(Remainders(s), data[..pos])
    ensures Remainders(Plain(t, data[pos..pos + n])) == Checksum(Remainders(s), data[..pos + n])
  {
    PlainRemainders(t, data[pos..pos + n]);
    ChecksumPieces(Remainders(s), data[..pos], data[pos..pos + n]);
    assert data[..pos] + data[pos..pos + n] == data[..pos + n];
  }

  // What is left after the first block are whole ones.
  lemma WholeBlocks(left: nat, n: nat)
    requires n <= left && (left - n) % BLOCK == 0
    ensures left - n > 0 ==> BLOCK <= left - n && (left - n - BLOCK) % BLOCK == 0
  {
  }

  // The first block takes what is more than whole blocks, which may be nothing.
  method MzAdler32(adler: nat, data: seq<Byte>) returns (r: nat)
    requires adler < TWO_32
    ensures r == if data == [] then adler else Pack(Checksum(Remainders(Unpack(adler)), data))
  {
    hide Plain, Checksum;
    var s1: nat, s2: nat := adler % TWO_16, adler / TWO_16;
    ghost var s := Unpack(adler);
    var pos, left, blockLen := 0, |data|, |data| % BLOCK;
    ChecksumNothing(Remainders(s));
    while left > 0
      invariant 0 <= pos && 0 <= left && pos + left == |data| && (left > 0 ==> 0 <= blockLen <= left)
      invariant blockLen <= BLOCK && (left > 0 ==> (left - blockLen) % BLOCK == 0)
      invariant s1 < TWO_16 && s2 < TWO_16 && Remainders(Sums(s1, s2)) == Checksum(Remainders(s), data[..pos])
      invariant left < |data| ==> Reduced(Sums(s1, s2))
      invariant left == |data| ==> pos == 0 && (data == [] ==> Sums(s1, s2) == s)
      decreases left, if blockLen == 0 then 1 else 0
    {
      var block := data[pos..pos + blockLen];
      BlockStep(s, Sums(s1, s2), data, pos, blockLen);
      WholeBlocks(left, blockLen);
      s1, s2 := AddBlock(s1, s2, block);
      s1, s2 := s1 % BASE, s2 % BASE;
      pos, left, blockLen := pos + blockLen, left - blockLen, BLOCK;
    }
    assert data[..pos] == data;
    r := s2 * TWO_16 + s1;
  }

  lemma ChecksumNothing(s: Sums)
    ensures Checksum(s, []) == s
  {
  }

  // ---------------------------------------------------------------------------------
  // What it is good for.

  function Total(data: seq<Byte>): (n: nat)
    decreases |data|
  {
    if data == [] then 0 else Total(data[..|data| - 1]) + data[|data| - 1]
  }

  lemma {:induction false} FirstSum(s: Sums, data: seq<Byte>)
    requires Reduced(s)
    ensures Checksum(s, data).s1 == (s.s1 + Total(data)) % BASE
    decreases |data|
  {
    if data != [] {
      var most := data[..|data| - 1];
      FirstSum(s, most);
      SumRemainder(s.s1 + Total(most), data[|data| - 1]);
    }
  }

  lemma {:induction false} TotalChanged(data: seq<Byte>, i: nat, b: Byte)
    requires i < |data|
    ensures Total(data[i := b]) + data[i] == Total(data) + b
    decreases |data|
  {
    var n := |data| - 1;
    if i < n {
      TotalChanged(data[..n], i, b);
      assert data[i := b][..n] == data[..n][i := b];
    } else {
      assert data[i := b][..n] == data[..n];
    }
  }

  // No byte can be changed without changing the checksum.
  lemma ChangeDetected(s: Sums, data: seq<Byte>, i: nat, b: Byte)
    requires Reduced(s) && i < |data| && b != data[i]
    ensures Checksum(s, data[i := b]) != Checksum(s, data)
  {
    FirstSum(s, data);
    FirstSum(s, data[i := b]);
    TotalChanged(data, i, b);
    Apart(s.s1 + Total(data), s.s1 + Total(data[i := b]));
  }

  lemma Apart(x: nat, y: nat)
    requires x != y && x - BASE < y < x + BASE
    ensures x % BASE != y % BASE
  {
  }
}
