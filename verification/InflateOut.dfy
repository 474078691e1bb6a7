// The decompressor's output buffer, which may be a ring (kernel/miniz/miniz.c:2393-2395,
// 2707-2713).
module InflateOut {
  import opened Tokens
  import Bits

  // Where output byte i is kept.
  function Slot(size: nat, wrap: bool, i: nat): (k: nat)
    requires wrap ==> size > 0
  {
    if wrap then i % size else i
  }

  // The buffer shows the output so far: all of it, or in a ring its last bytes; cur is where
  // the next byte goes.
  ghost predicate Mirror(b: seq<Byte>, cur: nat, wrap: bool, out: seq<Byte>)
  {
    && cur <= |b| && cur <= |out| && (!wrap ==> cur == |out|)
    && (wrap ==> |b| >= LZ_DICT_SIZE && (|out| - cur) % |b| == 0)
    && forall i: nat :: |out| - |b| <= i < |out| ==> Slot(|b|, wrap, i) < |b| && b[Slot(|b|, wrap, i)] == out[i]
  }

  lemma SlotOfNext(size: nat, wrap: bool, n: nat, cur: nat)
    requires 0 < size && cur < size && cur <= n && (!wrap ==> cur == n) && (wrap ==> (n - cur) % size == 0)
    ensures Slot(size, wrap, n) == cur
  {
    if wrap {
      var q := (n - cur) / size;
      assert n == size * q + cur;
      Bits.DivUnique(n, size, q, cur);
    }
  }

  lemma SlotsDiffer(size: nat, wrap: bool, i: nat, n: nat)
    requires size > 0 && n < i + size && i < n
    ensures Slot(size, wrap, i) != Slot(size, wrap, n)
  {
    if wrap && i % size == n % size {
      var a, b := i / size, n / size;
      assert i == size * a + i % size && n == size * b + n % size;
      assert size * (b - a) == n - i by { Bits.MulAdd(size, b, -a); }
      if b - a >= 1 {
        Bits.MulMonotone(size, 1, b - a);
      } else {
        Bits.MulMonotone(size, b - a, 0);
      }
    }
  }

  // Storing the next byte.
  lemma MirrorWrite(b: seq<Byte>, cur: nat, wrap: bool, out: seq<Byte>, x: Byte)
    requires Mirror(b, cur, wrap, out) && cur < |b|
    ensures Mirror(b[cur := x], cur + 1, wrap, out + [x])
  {
    hide Slot;
    var r, o := b[cur := x], out + [x];
    SlotOfNext(|b|, wrap, |out|, cur);
    forall i: nat | |o| - |r| <= i < |o|
      ensures Slot(|r|, wrap, i) < |r| && r[Slot(|r|, wrap, i)] == o[i]
    {
      if i < |out| {
        assert Slot(|b|, wrap, i) < |b| && b[Slot(|b|, wrap, i)] == out[i];
        SlotsDiffer(|b|, wrap, i, |out|);
      }
    }
    if wrap {
      assert |o| - (cur + 1) == |out| - cur;
    }
  }

  // Where a copy reads (source lines 2707-2713): dist bytes before the cursor, around the
  // ring if need be.
  function SourceAt(size: nat, wrap: bool, cur: nat, dist: nat): (s: int)
    requires wrap ==> size > 0
  {
    if wrap then (cur - dist) % size else cur - dist
  }

  lemma SlotOfSource(size: nat, wrap: bool, n: nat, cur: nat, dist: nat)
    requires size > 0 && cur <= size && cur <= n && 1 <= dist <= n && (!wrap ==> cur == n) &&
             (wrap ==> (n - cur) % size == 0)
    ensures 0 <= SourceAt(size, wrap, cur, dist) == Slot(size, wrap, n - dist)
  {
    if wrap {
      var q := (n - cur) / size;
      assert n - dist == size * q + (cur - dist);
      ModShift(cur - dist, size, q);
    }
  }

  lemma ModShift(a: int, size: nat, q: int)
    requires size > 0
    ensures (size * q + a) % size == a % size
  {
    var x, r := a / size, a % size;
    assert size * q + a == size * (q + x) + r by { Bits.MulAdd(size, q, x); }
    ModUnique(size * q + a, size, q + x, r);
  }

  lemma ModUnique(v: int, d: nat, q: int, r: nat)
    requires d > 0 && r < d && v == d * q + r
    ensures v % d == r
  {
    var q', r' := v / d, v % d;
    assert v == d * q' + r';
    if q < q' {
      Bits.MulMonotone(d, q + 1, q');
      Bits.MulAdd(d, q, 1);
    } else if q > q' {
      Bits.MulMonotone(d, q' + 1, q);
      Bits.MulAdd(d, q', 1);
    }
  }

  // The byte a copy reads is the output byte dist back.
  lemma MirrorRead(b: seq<Byte>, cur: nat, wrap: bool, out: seq<Byte>, dist: nat)
    requires Mirror(b, cur, wrap, out) && 1 <= dist <= |out| && dist <= |b|
    ensures 0 <= SourceAt(|b|, wrap, cur, dist) < |b| && b[SourceAt(|b|, wrap, cur, dist)] == out[|out| - dist]
  {
    SlotOfSource(|b|, wrap, |out|, cur, dist);
    assert Slot(|b|, wrap, |out| - dist) < |b|;
  }

  // Reading further on without wrapping.
  lemma MirrorAhead(b: seq<Byte>, cur: nat, wrap: bool, out: seq<Byte>, dist: nat, j: nat)
    requires Mirror(b, cur, wrap, out) && 1 <= dist <= |out| && dist <= |b| && j < dist
    requires SourceAt(|b|, wrap, cur, dist) + j < |b|
    ensures 0 <= SourceAt(|b|, wrap, cur, dist) && b[SourceAt(|b|, wrap, cur, dist) + j] == out[|out| - dist + j]
  {
    SlotOfSource(|b|, wrap, |out|, cur, dist);
    var i := |out| - dist;
    SlotAhead(|b|, wrap, i, j);
    assert Slot(|b|, wrap, i + j) < |b|;
  }

  lemma SlotAhead(size: nat, wrap: bool, i: nat, j: nat)
    requires size > 0 && Slot(size, wrap, i) + j < size
    ensures Slot(size, wrap, i + j) == Slot(size, wrap, i) + j
  {
    if wrap {
      var q, r := i / size, i % size;
      assert i + j == size * q + (r + j);
      Bits.DivUnique(i + j, size, q, r + j);
    }
  }

  // The source moves along with the cursor.
  lemma SourceNext(size: nat, wrap: bool, cur: nat, dist: nat, src: nat)
    requires size > 0 && src == SourceAt(size, wrap, cur, dist) && src + 1 < size
    ensures SourceAt(size, wrap, cur + 1, dist) == src + 1
  {
    if wrap {
      var q := (cur - dist) / size;
      assert cur + 1 - dist == size * q + (src + 1);
      ModUnique(cur + 1 - dist, size, q, src + 1);
    }
  }

  lemma MirrorBounds(b: seq<Byte>, cur: nat, wrap: bool, out: seq<Byte>)
    requires Mirror(b, cur, wrap, out)
    ensures cur <= |b| && cur <= |out| && (!wrap ==> cur == |out|) && (wrap ==> |b| >= LZ_DICT_SIZE)
  {
  }
}
