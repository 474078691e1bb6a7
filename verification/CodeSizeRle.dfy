// Run-length coding of code sizes (RFC 1951 section 3.2.7): the packing loop of the
// compressor (kernel/miniz/miniz.c:921-1029) and the expansion of the decompressor
// (kernel/miniz/miniz.c:2573-2600).
module CodeSizeRle {
  import opened Arith

  // One entry of the packed array; the extra value follows codes 16, 17 and 18.
  datatype Item = Item(code: nat, extra: nat)

  function ExtraBits(code: nat): nat {
    if code == 16 then 2 else if code == 17 then 3 else if code == 18 then 7 else 0
  }

  ghost predicate ValidItem(x: Item)
  {
    x.code <= 18 && x.extra < Pow2(ExtraBits(x.code))
  }

  function Repeat(v: nat, n: nat): (r: seq<nat>)
    ensures |r| == n && forall i :: 0 <= i < n ==> r[i] == v
  {
    seq(n, _ => v)
  }

  // What the decompressor appends for an item (a repeat needs something before it).
  function Expansion(x: Item, out: seq<nat>): (r: seq<nat>) {
    if x.code < 16 then [x.code]
    else if x.code == 16 then Repeat(if out == [] then 0 else out[|out| - 1], x.extra + 3)
    else if x.code == 17 then Repeat(0, x.extra + 3)
    else Repeat(0, x.extra + 11)
  }

  function Expand(items: seq<Item>): (r: seq<nat>) {
    if items == [] then []
    else
      var out := Expand(items[..|items| - 1]);
      out + Expansion(items[|items| - 1], out)
  }

  // Every item can be decoded, and no repeat comes first.
  ghost predicate Expandable(items: seq<Item>)
  {
    forall i :: 0 <= i < |items| ==> ValidItem(items[i]) && (items[i].code == 16 ==> Expand(items[..i]) != [])
  }

  // Bytes the packed array takes.
  function PackedLength(items: seq<Item>): (r: nat) {
    if items == [] then 0
    else PackedLength(items[..|items| - 1]) + (if items[|items| - 1].code >= 16 then 2 else 1)
  }

  function Occurrences(items: seq<Item>, code: nat): (r: nat)
    ensures r <= |items|
  {
    if items == [] then 0
    else Occurrences(items[..|items| - 1], code) + (if items[|items| - 1].code == code then 1 else 0)
  }

  // The packing loop's state: the sizes seen so far are the items' expansion followed by
  // the run still being counted.
  ghost predicate Packing(sizes: seq<nat>, items: seq<Item>, prev: nat, zeros: nat, repeats: nat)
  {
    && Expandable(items)
    && sizes == Expand(items) + Repeat(0, zeros) + Repeat(prev, repeats)
    && zeros <= 138 && repeats <= 6 && (zeros == 0 || repeats == 0)
    && (prev <= 15 || prev == 0xFF) && (prev != 0 ==> zeros == 0)
    && (repeats > 0 ==> 0 < prev <= 15)
    && (0 < prev <= 15 ==> Expand(items) != [] && Expand(items)[|Expand(items)| - 1] == prev)
    && PackedLength(items) + zeros + repeats <= |sizes|
  }

  lemma Snoc(items: seq<Item>, x: Item)
    requires Expandable(items) && ValidItem(x) && (x.code == 16 ==> Expand(items) != [])
    ensures Expandable(items + [x]) && Expand(items + [x]) == Expand(items) + Expansion(x, Expand(items))
    ensures PackedLength(items + [x]) == PackedLength(items) + (if x.code >= 16 then 2 else 1)
    ensures forall c :: Occurrences(items + [x], c) == Occurrences(items, c) + (if x.code == c then 1 else 0)
  {
    var r := items + [x];
    assert r[..|items|] == items;
    forall i | 0 <= i < |r|
      ensures ValidItem(r[i]) && (r[i].code == 16 ==> Expand(r[..i]) != [])
    {
      if i < |items| {
        assert r[..i] == items[..i];
      }
    }
  }

  // Flushing a run: n copies of v become one or two items.
  function Flushed(v: nat, n: nat): seq<Item> {
    if n == 0 then []
    else if n < 3 then seq(n, _ => Item(v, 0))
    else if v != 0 then [Item(16, n - 3)]
    else if n <= 10 then [Item(17, n - 3)]
    else [Item(18, n - 11)]
  }

  lemma FlushedExpands(items: seq<Item>, v: nat, n: nat)
    requires Expandable(items) && v <= 15 && n <= (if v == 0 then 138 else 6)
    requires v != 0 && n > 0 ==> Expand(items) != [] && Expand(items)[|Expand(items)| - 1] == v
    ensures var r := items + Flushed(v, n);
            Expandable(r) && Expand(r) == Expand(items) + Repeat(v, n) && PackedLength(r) <= PackedLength(items) + n
  {
    hide Expandable, Expand, PackedLength;
    assert Pow2(0) == 1 && Pow2(2) == 4 && Pow2(3) == 8 && Pow2(7) == 128;
    if n == 0 {
      assert items + Flushed(v, n) == items && Expand(items) + Repeat(v, n) == Expand(items);
    } else if n < 3 {
      Snoc(items, Item(v, 0));
      assert [v] == Repeat(v, 1);
      assert Flushed(v, 1) == [Item(v, 0)];
      if n == 2 {
        Snoc(items + [Item(v, 0)], Item(v, 0));
        assert items + Flushed(v, 2) == items + [Item(v, 0)] + [Item(v, 0)];
        assert Expand(items) + [v] + [v] == Expand(items) + Repeat(v, 2);
      }
    } else {
      Snoc(items, Flushed(v, n)[0]);
    }
  }

  lemma FlushKeeps(sizes: seq<nat>, items: seq<Item>, prev: nat, zeros: nat, repeats: nat)
    requires Packing(sizes, items, prev, zeros, repeats)
    ensures Packing(sizes, items + Flushed(prev, repeats), prev, zeros, 0)
    ensures Packing(sizes, items + Flushed(0, zeros), prev, 0, repeats)
  {
    hide Expand, PackedLength, Expandable;
    assert Repeat(0, 0) == [] && Repeat(prev, 0) == [];
    assert items + Flushed(0, 0) == items && items + Flushed(prev, 0) == items;
    if repeats > 0 {
      FlushedExpands(items, prev, repeats);
      assert Repeat(prev, repeats)[repeats - 1] == prev;
    } else if zeros > 0 {
      FlushedExpands(items, 0, zeros);
    }
  }

  ghost predicate Counted(counts: seq<U16>, items: seq<Item>)
  {
    |counts| == 19 && forall c :: 0 <= c < 19 ==> counts[c] == Occurrences(items, c)
  }

  // The items flushed all carry one code, once or n times.
  lemma FlushedOccurrences(items: seq<Item>, v: nat, n: nat, c: nat)
    requires v <= 15
    ensures Occurrences(items + Flushed(v, n), c) == Occurrences(items, c)
              + (if n == 0 then 0 else if n < 3 then (if c == v then n else 0) else if c == Flushed(v, n)[0].code
                  then 1 else 0)
  {
    if n == 0 {
      assert items + Flushed(v, n) == items;
    } else {
      OccurrencesSnoc(items, Flushed(v, n)[0], c);
      if n == 2 {
        OccurrencesSnoc(items + [Item(v, 0)], Item(v, 0), c);
        assert items + Flushed(v, 2) == items + [Item(v, 0)] + [Item(v, 0)];
      } else {
        assert Flushed(v, n) == [Flushed(v, n)[0]];
      }
    }
  }

  lemma OccurrencesSnoc(items: seq<Item>, x: Item, c: nat)
    ensures Occurrences(items + [x], c) == Occurrences(items, c) + (if x.code == c then 1 else 0)
  {
    assert (items + [x])[..|items|] == items;
  }

  // TDEFL_RLE_PREV_CODE_SIZE
  method FlushPrev(items0: seq<Item>, counts: array<U16>, prev: nat, repeats: nat) returns (items: seq<Item>)
    requires counts.Length == 19 && Counted(counts[..], items0) && |items0| + 2 < 0x1_0000
    requires repeats > 0 ==> 0 < prev <= 15
    modifies counts
    ensures items == items0 + Flushed(prev, repeats) && Counted(counts[..], items)
  {
    hide Occurrences;
    items := items0 + Flushed(prev, repeats);
    if repeats != 0 {
      forall c | 0 <= c < 19
        ensures Occurrences(items, c) == Occurrences(items0, c)
                + (if repeats < 3 then (if c == prev then repeats else 0) else if c == 16 then 1 else 0)
      {
        FlushedOccurrences(items0, prev, repeats, c);
      }
      if repeats < 3 {
        counts[prev] := counts[prev] + repeats;
      } else {
        counts[16] := counts[16] + 1;
      }
    } else {
      assert items == items0;
    }
  }

  // TDEFL_RLE_ZERO_CODE_SIZE
  method FlushZero(items0: seq<Item>, counts: array<U16>, zeros: nat) returns (items: seq<Item>)
    requires counts.Length == 19 && Counted(counts[..], items0) && |items0| + 2 < 0x1_0000
    modifies counts
    ensures items == items0 + Flushed(0, zeros) && Counted(counts[..], items)
  {
    hide Occurrences;
    items := items0 + Flushed(0, zeros);
    if zeros != 0 {
      var code := if zeros < 3 then 0 else if zeros <= 10 then 17 else 18;
      var n := if zeros < 3 then zeros else 1;
      forall c | 0 <= c < 19
        ensures Occurrences(items, c) == Occurrences(items0, c) + (if c == code then n else 0)
      {
        FlushedOccurrences(items0, 0, zeros, c);
      }
      counts[code] := counts[code] + n;
    } else {
      assert items == items0;
    }
  }

  lemma {:induction false} ItemsBounded(items: seq<Item>)
    ensures |items| <= PackedLength(items)
  {
    if items != [] {
      ItemsBounded(items[..|items| - 1]);
    }
  }

  lemma PackingParts(sizes: seq<nat>, items: seq<Item>, prev: nat, zeros: nat, repeats: nat)
    requires Packing(sizes, items, prev, zeros, repeats)
    ensures |items| <= |sizes| && (repeats > 0 ==> 0 < prev <= 15) && zeros <= 138 && repeats <= 6
    ensures (zeros == 0 || repeats == 0) && (prev != 0 ==> zeros == 0)
  {
    ItemsBounded(items);
  }

  lemma PackZero(sizes: seq<nat>, items: seq<Item>, prev: nat, zeros: nat)
    requires Packing(sizes, items, prev, zeros, 0) && zeros < 138
    ensures Packing(sizes + [0], items, 0, zeros + 1, 0)
  {
    hide Expand, PackedLength, Expandable;
    assert Repeat(0, zeros) + [0] == Repeat(0, zeros + 1);
    assert sizes + [0] == Expand(items) + Repeat(0, zeros + 1) + Repeat(0, 0);
  }

  lemma PackRepeat(sizes: seq<nat>, items: seq<Item>, prev: nat, repeats: nat)
    requires Packing(sizes, items, prev, 0, repeats) && repeats < 6 && 0 < prev <= 15
    ensures Packing(sizes + [prev], items, prev, 0, repeats + 1)
  {
    hide Expand, PackedLength, Expandable;
    assert Repeat(prev, repeats) + [prev] == Repeat(prev, repeats + 1);
    assert sizes + [prev] == Expand(items) + Repeat(0, 0) + Repeat(prev, repeats + 1);
  }

  lemma PackLiteral(sizes: seq<nat>, items: seq<Item>, prev: nat, v: nat)
    requires Packing(sizes, items, prev, 0, 0) && 0 < v <= 15
    ensures Packing(sizes + [v], items + [Item(v, 0)], v, 0, 0)
  {
    hide Expand, Expandable, PackedLength;
    assert Pow2(0) == 1;
    Snoc(items, Item(v, 0));
    assert Repeat(0, 0) == [] && Repeat(v, 0) == [];
  }

  lemma PackDone(sizes: seq<nat>, items: seq<Item>, prev: nat)
    requires Packing(sizes, items, prev, 0, 0)
    ensures Expandable(items) && Expand(items) == sizes && PackedLength(items) <= |sizes|
  {
    assert Repeat(0, 0) == [];
  }

  lemma PackStart()
    ensures Packing([], [], 0xFF, 0, 0)
  {
  }

  // Packing code sizes: expanding the result gives them back, it never takes more bytes
  // than the input, and every code is counted as often as it occurs.
  method PackCodeSizes(sizes: seq<nat>, counts: array<U16>) returns (items: seq<Item>)
    requires |sizes| <= 320 && counts.Length == 19 && forall i :: 0 <= i < |sizes| ==> sizes[i] <= 15
    modifies counts
    ensures Expandable(items) && Expand(items) == sizes && PackedLength(items) <= |sizes|
    ensures Counted(counts[..], items)
  {
    hide Packing, Counted, Expandable, Expand, PackedLength;
    items := [];
    forall c | 0 <= c < 19 {
      counts[c] := 0;
    }
    NoneCounted(counts[..]);
    var zeros, repeats: nat, prev := 0, 0, 0xFF;
    PackStart();
    for i := 0 to |sizes|
      invariant Packing(sizes[..i], items, prev, zeros, repeats) && Counted(counts[..], items)
      invariant zeros < 138 && repeats < 6
    {
      var size := sizes[i];
      assert sizes[..i] + [size] == sizes[..i + 1];
      PackingParts(sizes[..i], items, prev, zeros, repeats);
      if size == 0 {
        FlushKeeps(sizes[..i], items, prev, zeros, repeats);
        items := FlushPrev(items, counts, prev, repeats);
        repeats := 0;
        PackZero(sizes[..i], items, prev, zeros);
        zeros := zeros + 1;
        if zeros == 138 {
          PackingParts(sizes[..i + 1], items, 0, zeros, 0);
          FlushKeeps(sizes[..i + 1], items, 0, zeros, 0);
          items := FlushZero(items, counts, zeros);
          zeros := 0;
        }
      } else {
        FlushKeeps(sizes[..i], items, prev, zeros, repeats);
        items := FlushZero(items, counts, zeros);
        zeros := 0;
        if size != prev {
          PackingParts(sizes[..i], items, prev, 0, repeats);
          FlushKeeps(sizes[..i], items, prev, 0, repeats);
          items := FlushPrev(items, counts, prev, repeats);
          repeats := 0;
          PackingParts(sizes[..i], items, prev, 0, 0);
          PackLiteral(sizes[..i], items, prev, size);
          CountOne(counts[..], items, size);
          counts[size] := counts[size] + 1;
          items := items + [Item(size, 0)];
        } else {
          PackRepeat(sizes[..i], items, prev, repeats);
          repeats := repeats + 1;
          if repeats == 6 {
            PackingParts(sizes[..i + 1], items, prev, 0, repeats);
            FlushKeeps(sizes[..i + 1], items, prev, 0, repeats);
            items := FlushPrev(items, counts, prev, repeats);
            repeats := 0;
          }
        }
      }
      prev := size;
    }
    assert sizes[..|sizes|] == sizes;
    PackingParts(sizes, items, prev, zeros, repeats);
    FlushKeeps(sizes, items, prev, zeros, repeats);
    if repeats != 0 {
      items := FlushPrev(items, counts, prev, repeats);
    } else {
      items := FlushZero(items, counts, zeros);
    }
    PackDone(sizes, items, prev);
  }

  lemma NoneCounted(counts: seq<U16>)
    requires |counts| == 19 && forall c :: 0 <= c < 19 ==> counts[c] == 0
    ensures Counted(counts, [])
  {
  }

  lemma CountOne(counts: seq<U16>, items: seq<Item>, v: nat)
    requires Counted(counts, items) && v <= 15 && |items| < 0xFFFF
    ensures |counts| == 19 && counts[v] < 0xFFFF
    ensures Counted(counts[v := counts[v] + 1], items + [Item(v, 0)])
  {
    forall c | 0 <= c < 19
      ensures Occurrences(items + [Item(v, 0)], c) == Occurrences(items, c) + (if c == v then 1 else 0)
    {
      OccurrencesSnoc(items, Item(v, 0), c);
    }
  }
}
