// The compressor's bit output (kernel/miniz/miniz.c:903-919, 1240-1241): values are packed
// least significant bit first into bytes, and bytes that do not fit the buffer are dropped.
module BitWriter {
  import opened Arith
  import opened Bits
  import opened Tokens

  const OUT_BUF_SIZE := 85196

  lemma {:induction false} LsbValueConcat(a: seq<bool>, b: seq<bool>)
    ensures LsbValue(a + b) == LsbValue(a) + LsbValue(b) * Pow2(|a|)
  {
    if a == [] {
      assert a + b == b;
    } else {
      LsbValueConcat(a[1..], b);
      assert (a + b)[1..] == a[1..] + b;
      DoubleProduct(LsbValue(b), Pow2(|a| - 1));
    }
  }

  // Byte k of a bit stream.
  function ByteAt(bits: seq<bool>, k: nat): (r: Byte)
    requires 8 * k + 8 <= |bits|
  {
    LsbBitsOfValue(bits[8 * k..8 * k + 8]);
    assert Pow2(8) == 256;
    LsbValue(bits[8 * k..8 * k + 8])
  }

  lemma ByteAtPrefix(a: seq<bool>, b: seq<bool>, k: nat)
    requires 8 * k + 8 <= |a| && a <= b
    ensures ByteAt(b, k) == ByteAt(a, k)
  {
    assert b[8 * k..8 * k + 8] == a[8 * k..8 * k + 8];
  }

  // Splitting the first byte off the pending bits.
  lemma FirstByte(bits: seq<bool>, k: nat)
    requires 8 * k + 8 <= |bits|
    ensures LsbValue(bits[8 * k..]) % 256 == ByteAt(bits, k)
    ensures LsbValue(bits[8 * k..]) / 256 == LsbValue(bits[8 * k + 8..])
  {
    var a, b := bits[8 * k..8 * k + 8], bits[8 * k + 8..];
    assert bits[8 * k..] == a + b;
    LsbValueConcat(a, b);
    LsbBitsOfValue(a);
    SmallPowers();
    DivUnique(LsbValue(a + b), 256, LsbValue(b), LsbValue(a));
  }

  lemma LsbNil()
    ensures LsbValue([]) == 0
  {
  }

  // The buffer holds the bytes sent.. of the stream up to byte k, or is full; earlier bytes
  // have left it, and the bits from byte k on are still pending.
  ghost predicate Stored(buf: seq<Byte>, outPos: nat, end: nat, sent: nat, bits: seq<bool>, k: nat)
  {
    && 8 * k <= |bits| && sent + outPos <= k && (sent + outPos < k ==> end <= outPos) && outPos <= |buf|
    && forall i :: 0 <= i < outPos ==> buf[i] == ByteAt(bits, sent + i)
  }

  lemma StoredMore(buf: seq<Byte>, outPos: nat, end: nat, sent: nat, bits: seq<bool>, k: nat, more: seq<bool>)
    requires Stored(buf, outPos, end, sent, bits, k)
    ensures Stored(buf, outPos, end, sent, bits + more, k)
  {
    hide ByteAt;
    forall i | 0 <= i < outPos
      ensures buf[i] == ByteAt(bits + more, sent + i)
    {
      ByteAtPrefix(bits, bits + more, sent + i);
    }
  }

  // Writing byte k, or dropping it when the buffer is full.
  lemma StoredByte(buf: seq<Byte>, outPos: nat, end: nat, sent: nat, bits: seq<bool>, k: nat)
    requires Stored(buf, outPos, end, sent, bits, k) && 8 * k + 8 <= |bits| && end <= |buf|
    ensures outPos < end ==> Stored(buf[outPos := ByteAt(bits, k)], outPos + 1, end, sent, bits, k + 1)
    ensures outPos >= end ==> Stored(buf, outPos, end, sent, bits, k + 1)
  {
    hide ByteAt;
  }

  class BitWriter {
    const buf: array<Byte>
    const end: nat
    var outPos: nat
    var bitBuffer: nat
    var bitsIn: nat
    // Every bit ever put, and how many of its bytes left the buffer earlier.
    ghost var bits: seq<bool>
    ghost var sent: nat

    ghost predicate Valid()
      reads this, buf
    {
      && buf.Length == OUT_BUF_SIZE && end == OUT_BUF_SIZE - 16
      && bitsIn == |bits| % 8 && bitBuffer == LsbValue(bits[8 * (|bits| / 8)..])
      && Stored(buf[..], outPos, end, sent, bits, |bits| / 8)
    }

    constructor ()
      ensures Valid() && fresh(buf) && bits == [] && sent == 0 && outPos == 0
    {
      hide ByteAt, LsbValue;
      LsbNil();
      buf := new Byte[OUT_BUF_SIZE](_ => 0);
      end := OUT_BUF_SIZE - 16;
      outPos, bitBuffer, bitsIn := 0, 0, 0;
      bits, sent := [], 0;
    }

    // TDEFL_PUT_BITS
    method PutBits(b: nat, len: nat)
      requires Valid() && b < Pow2(len) && len <= 16
      modifies this`outPos, this`bitBuffer, this`bitsIn, this`bits, buf
      ensures Valid() && bits == old(bits) + LsbBits(b, len) && outPos >= old(outPos)
    {
      hide LsbValue, LsbBits, Pow2, Stored;
      ghost var before := bits;
      bits := bits + LsbBits(b, len);
      Appended(before, b, len, |before| / 8);
      StoredMore(buf[..], outPos, end, sent, before, |before| / 8, LsbBits(b, len));
      bitBuffer := bitBuffer + b * Pow2(bitsIn);
      bitsIn := bitsIn + len;
      DrainBytes(|before| / 8);
    }

    // The loop of TDEFL_PUT_BITS; k is the number of the first byte still pending.
    method DrainBytes(ghost k: nat)
      requires buf.Length == OUT_BUF_SIZE && end == OUT_BUF_SIZE - 16
      requires 8 * k <= |bits| && bitsIn == |bits| - 8 * k && bitBuffer == LsbValue(bits[8 * k..])
      requires Stored(buf[..], outPos, end, sent, bits, k)
      modifies this`outPos, this`bitBuffer, this`bitsIn, buf
      ensures Valid() && outPos >= old(outPos)
    {
      hide LsbValue, Pow2, ByteAt, Stored;
      ghost var j := k;
      while bitsIn >= 8
        invariant k <= j && bitsIn == |bits| - 8 * j && bitBuffer == LsbValue(bits[8 * j..])
        invariant Stored(buf[..], outPos, end, sent, bits, j) && outPos >= old(outPos)
      {
        FirstByte(bits, j);
        StoredByte(buf[..], outPos, end, sent, bits, j);
        if outPos < end {
          ghost var b := buf[..];
          buf[outPos] := bitBuffer % 256;
          assert buf[..] == b[outPos := ByteAt(bits, j)];
          outPos := outPos + 1;
        }
        bitBuffer := bitBuffer / 256;
        bitsIn := bitsIn - 8;
        j := j + 1;
      }
    }

    // Hand the bytes in the buffer on and start it anew (source lines 1240-1245, 1339-1350).
    method TakeOutput() returns (bytes: seq<Byte>)
      requires Valid()
      modifies this`outPos, this`sent
      ensures outPos == 0 && |bytes| == old(outPos) && sent == old(sent) + |bytes| <= |bits| / 8
      ensures forall i :: 0 <= i < |bytes| ==> bytes[i] == ByteAt(bits, old(sent) + i)
      ensures |bits| / 8 - old(sent) <= end ==> Valid() && sent == |bits| / 8
    {
      hide ByteAt, LsbValue;
      bytes := buf[..outPos];
      sent := sent + outPos;
      outPos := 0;
    }

    // Forget everything put since a saved state (source lines 1258-1260, 1270-1271, 1289-1290).
    method Restore(savedPos: nat, savedBuffer: nat, savedIn: nat, ghost saved: seq<bool>)
      requires Valid() && saved <= bits && sent + savedPos == |saved| / 8 && savedPos <= outPos
      requires savedIn == |saved| % 8 && savedBuffer == LsbValue(saved[8 * (|saved| / 8)..])
      modifies this`outPos, this`bitBuffer, this`bitsIn, this`bits
      ensures Valid() && bits == saved && outPos == savedPos
    {
      hide ByteAt, LsbValue;
      forall i | 0 <= i < savedPos
        ensures buf[i] == ByteAt(saved, sent + i)
      {
        ByteAtPrefix(saved, bits, sent + i);
      }
      outPos, bitBuffer, bitsIn := savedPos, savedBuffer, savedIn;
      bits := saved;
    }
  }

  // Pending bits with a value put above them.
  lemma Appended(bits: seq<bool>, b: nat, len: nat, k: nat)
    requires b < Pow2(len) && 8 * k <= |bits|
    ensures LsbValue((bits + LsbBits(b, len))[8 * k..]) == LsbValue(bits[8 * k..]) + b * Pow2(|bits| - 8 * k)
  {
    hide LsbValue, LsbBits, Pow2;
    var tail := bits[8 * k..];
    assert (bits + LsbBits(b, len))[8 * k..] == tail + LsbBits(b, len);
    LsbValueConcat(tail, LsbBits(b, len));
    LsbValueOfBits(b, len);
  }
}
