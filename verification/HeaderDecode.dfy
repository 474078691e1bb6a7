// Decoding the header of a dynamic block: the code sizes sent come back exactly.
module HeaderDecode {
  import opened Arith
  import opened Bits
  import opened Canonical
  import opened FastTable
  import opened CodeSizeRle
  import opened Tokens
  import opened InflateMachine
  import opened InflateRun
  import opened BlockBits
  import opened BlockDecode

  // ---------------------------------------------------------------------------------
  // The three size fields.

  lemma FieldDecodes(bits: seq<bool>, fin: bool, ts: seq<nat>, pos: nat, out: seq<Byte>, v: nat)
    requires |ts| < 3 && SomeSizesOK(ts) && v < Pow2(FieldBits(|ts|)) && At(bits, pos, LsbBits(v, FieldBits(|ts|)))
    ensures var m := Machine(TableSizes(fin, ts), pos, out);
            && Good(m) && Reaches(bits, m,
              Machine(AfterField(m, fin, ts + [v + FieldBase(|ts|)]), pos + FieldBits(|ts|), out))
  {
    hide At, Reaches, Pow2, AfterField;
    var m := Machine(TableSizes(fin, ts), pos, out);
    ReadAt(bits, pos, v, FieldBits(|ts|));
    ReachesStep(bits, m);
  }

  lemma FieldsDecode(bits: seq<bool>, fin: bool, pos: nat, out: seq<Byte>, a: nat, b: nat, n: nat)
    requires 257 <= a <= 288 && 1 <= b <= 32 && 4 <= n <= 19
    requires At(bits, pos, LsbBits(a - 257, 5) + LsbBits(b - 1, 5) + LsbBits(n - 4, 4))
    ensures Reaches(bits, Machine(TableSizes(fin, []), pos, out), Machine(ClSizes(fin, [a, b, n], []), pos + 14, out))
  {
    hide At, Reaches, Pow2, LsbBits;
    SmallPowers();
    AtConcat(bits, pos, LsbBits(a - 257, 5) + LsbBits(b - 1, 5), LsbBits(n - 4, 4));
    AtConcat(bits, pos, LsbBits(a - 257, 5), LsbBits(b - 1, 5));
    FieldDecodes(bits, fin, [], pos, out, a - 257);
    FieldDecodes(bits, fin, [a], pos + 5, out, b - 1);
    FieldDecodes(bits, fin, [a, b], pos + 10, out, n - 4);
    assert [] + [a] == [a] && [a] + [b] == [a, b] && [a, b] + [n] == [a, b, n];
    ReachesTrans(bits, Machine(TableSizes(fin, []), pos, out), Machine(TableSizes(fin, [a]), pos + 5, out),
        Machine(TableSizes(fin, [a, b]), pos + 10, out));
    ReachesTrans(bits, Machine(TableSizes(fin, []), pos, out), Machine(TableSizes(fin, [a, b]), pos + 10, out),
        Machine(ClSizes(fin, [a, b, n], []), pos + 14, out));
  }

  // ---------------------------------------------------------------------------------
  // Sizes of the code-length codes.

  function ClSent(cl: seq<nat>, n: nat): (r: seq<nat>)
    requires |cl| == 19 && n <= 19
    ensures |r| == n
  {
    if n == 0 then [] else ClSent(cl, n - 1) + [cl[Dezigzag(n - 1)]]
  }

  // The transmission order is a permutation: Zigzag says where each symbol stands.
  function Zigzag(s: nat): (i: nat)
    requires s < 19
    ensures i < 19 && Dezigzag(i) == s
  {
    if s == 0 then 3
    else if s == 16 then 0 else if s == 17 then 1 else if s == 18 then 2
    else if s >= 8 then 4 + 2 * (s - 8)
    else 19 - 2 * s
  }

  lemma DezigzagInjective(i: nat, j: nat)
    requires i < 19 && j < 19 && Dezigzag(i) == Dezigzag(j)
    ensures i == j
  {
    assert Zigzag(Dezigzag(i)) == i;
    assert Zigzag(Dezigzag(j)) == j;
  }

  // Putting the received sizes in symbol order restores those sent and leaves the rest 0.
  lemma {:induction false} ClArrayAt(cl: seq<nat>, n: nat, i: nat)
    requires |cl| == 19 && n <= 19 && i < 19
    ensures ClArray(ClSent(cl, n))[Dezigzag(i)] == if i < n then cl[Dezigzag(i)] else 0
  {
    hide Zigzag, Dezigzag;
    if n > 0 {
      ClArrayAt(cl, n - 1, i);
      var got := ClSent(cl, n);
      assert got[..n - 1] == ClSent(cl, n - 1);
      if Dezigzag(n - 1) == Dezigzag(i) {
        DezigzagInjective(n - 1, i);
      }
    }
  }

  // Every size after the first n in transmission order is 0.
  ghost predicate RestZero(cl: seq<nat>, n: nat)
    requires |cl| == 19
  {
    forall i :: n <= i < 19 ==> cl[Dezigzag(i)] == 0
  }

  lemma ClArrayRestores(cl: seq<nat>, n: nat)
    requires |cl| == 19 && n <= 19 && RestZero(cl, n)
    ensures ClArray(ClSent(cl, n)) == cl
  {
    hide ClArray, ClSent, Dezigzag;
    var r := ClArray(ClSent(cl, n));
    forall s: nat | s < 19
      ensures r[s] == cl[s]
    {
      ClArrayAt(cl, n, Zigzag(s));
    }
  }

  lemma {:induction false} ClDecodes(bits: seq<bool>, fin: bool, ts: seq<nat>, pos: nat, out: seq<Byte>, cl: seq<nat>,
      k: nat)
    requires TableSizesOK(ts) && k <= ts[2] && |cl| == 19 && AllAtMost(cl, 7) && At(bits, pos, ClBits(cl, k))
    ensures AllAtMost(ClSent(cl, k), 7)
    ensures Reaches(bits, Machine(ClSizes(fin, ts, []), pos, out),
            Machine(ClSizes(fin, ts, ClSent(cl, k)), pos + 3 * k, out))
  {
    hide At, Reaches, LsbBits;
    if k == 0 {
      ReachesSelf(bits, Machine(ClSizes(fin, ts, []), pos, out));
    } else {
      var v := cl[Dezigzag(k - 1)];
      AtConcat(bits, pos, ClBits(cl, k - 1), LsbBits(v, 3));
      ClDecodes(bits, fin, ts, pos, out, cl, k - 1);
      ClSizeDecodes(bits, fin, ts, pos + 3 * (k - 1), out, ClSent(cl, k - 1), v);
      ReachesTrans(bits, Machine(ClSizes(fin, ts, []), pos, out),
          Machine(ClSizes(fin, ts, ClSent(cl, k - 1)), pos + 3 * (k - 1), out),
        Machine(ClSizes(fin, ts, ClSent(cl, k)), pos + 3 * k, out));
    }
  }

  lemma ClSizeDecodes(bits: seq<bool>, fin: bool, ts: seq<nat>, pos: nat, out: seq<Byte>, got: seq<nat>, v: nat)
    requires TableSizesOK(ts) && |got| < ts[2] && AllAtMost(got, 7) && v <= 7 && At(bits, pos, LsbBits(v, 3))
    ensures Reaches(bits, Machine(ClSizes(fin, ts, got), pos, out), Machine(ClSizes(fin, ts, got + [v]), pos + 3, out))
  {
    hide At, Reaches, Pow2;
    SmallPowers();
    ReadAt(bits, pos, v, 3);
    ReachesStep(bits, Machine(ClSizes(fin, ts, got), pos, out));
  }

  lemma ClTable(bits: seq<bool>, fin: bool, ts: seq<nat>, pos: nat, out: seq<Byte>, cl: seq<nat>)
    requires TableSizesOK(ts) && ClOK(cl) && AllAtMost(ClSent(cl, ts[2]), 7) && RestZero(cl, ts[2])
    ensures Reaches(bits, Machine(ClSizes(fin, ts, ClSent(cl, ts[2])), pos, out),
            Machine(Lens(fin, ts[2 := 19], cl, []), pos, out))
  {
    hide Reaches, Decodable;
    ClArrayRestores(cl, ts[2]);
    ReachesStep(bits, Machine(ClSizes(fin, ts, ClSent(cl, ts[2])), pos, out));
  }

  // ---------------------------------------------------------------------------------
  // The packed code sizes.

  function LensState(fin: bool, ts: seq<nat>, cl: seq<nat>, got: seq<nat>, pos: nat, out: seq<Byte>): Machine {
    Machine(Lens(fin, ts, cl, got), pos, out)
  }

  lemma ItemDecodes(bits: seq<bool>, fin: bool, ts: seq<nat>, cl: seq<nat>, got: seq<nat>, pos: nat, out: seq<Byte>,
      x: Item)
    requires TableSizesOK(ts) && ClOK(cl) && AllAtMost(got, 15) && |got| < ts[0] + ts[1]
    requires ValidItem(x) && Used(cl, x.code) && (x.code == 16 ==> got != []) && At(bits, pos, ItemBits(cl, x))
    ensures Reaches(bits, LensState(fin, ts, cl, got, pos, out),
              LensState(fin, ts, cl, got + Expansion(x, got), pos + |ItemBits(cl, x)|, out))
  {
    hide At, Reaches, Pow2, LsbBits, Decodable;
    var e := ExtraBits(x.code);
    var m := LensState(fin, ts, cl, got, pos, out);
    var m2 := LensState(fin, ts, cl, got + Expansion(x, got), pos + cl[x.code] + e, out);
    AtConcat(bits, pos, Codeword(cl, x.code), LsbBits(x.extra, e));
    DecodableFeasible(cl);
    SymAt(cl, bits, pos, x.code);
    ReachesStep(bits, m);
    if x.code >= 16 {
      var m1 := Machine(LensRepeat(fin, ts, cl, got, x.code), pos + cl[x.code], out);
      assert Step(bits, m).m == m1;
      ReadAt(bits, pos + cl[x.code], x.extra, e);
      RepeatDecodes(bits, fin, ts, cl, got, pos + cl[x.code], out, x);
      ReachesTrans(bits, m, m1, m2);
    }
  }

  lemma RepeatDecodes(bits: seq<bool>, fin: bool, ts: seq<nat>, cl: seq<nat>, got: seq<nat>, pos: nat, out: seq<Byte>,
      x: Item)
    requires TableSizesOK(ts) && ClOK(cl) && AllAtMost(got, 15) && |got| < ts[0] + ts[1]
    requires 16 <= x.code <= 18 && (x.code == 16 ==> got != [])
    requires ReadBits(bits, pos, ExtraBits(x.code)) == Got(x.extra, pos + ExtraBits(x.code))
    ensures Reaches(bits, Machine(LensRepeat(fin, ts, cl, got, x.code), pos, out),
              LensState(fin, ts, cl, got + Expansion(x, got), pos + ExtraBits(x.code), out))
  {
    hide Reaches, Decodable, ReadBits;
    var m := Machine(LensRepeat(fin, ts, cl, got, x.code), pos, out);
    ReachesStep(bits, m);
    assert Item(x.code, x.extra) == x;
  }

  lemma {:induction false} ExpandGrows(items: seq<Item>)
    requires Expandable(items)
    ensures |items| <= |Expand(items)| && AllAtMost(Expand(items), 15)
  {
    if items != [] {
      ExpandablePrefix(items);
      ExpandGrows(items[..|items| - 1]);
      hide Expandable;
      var out := Expand(items[..|items| - 1]);
      ExpansionBounds(items[|items| - 1], out);
    }
  }

  lemma ExpansionBounds(x: Item, out: seq<nat>)
    requires AllAtMost(out, 15)
    ensures |Expansion(x, out)| >= 1 && AllAtMost(Expansion(x, out), 15) && AllAtMost(out + Expansion(x, out), 15)
  {
  }

  lemma ExpandablePrefix(items: seq<Item>)
    requires Expandable(items) && items != []
    ensures var (r, x) := (items[..|items| - 1], items[|items| - 1]);
            Expandable(r) && ValidItem(x) && (x.code == 16 ==> Expand(r) != []) &&
                Expand(items) == Expand(r) + Expansion(x, Expand(r))
  {
    var r := items[..|items| - 1];
    forall i | 0 <= i < |r|
      ensures ValidItem(r[i]) && (r[i].code == 16 ==> Expand(r[..i]) != [])
    {
      assert r[..i] == items[..i];
    }
  }

  // All codes of the items are in use.
  ghost predicate ItemsUsed(cl: seq<nat>, items: seq<Item>)
  {
    forall i :: 0 <= i < |items| ==> Used(cl, items[i].code)
  }

  lemma {:induction false} ItemsDecode(bits: seq<bool>, fin: bool, ts: seq<nat>, cl: seq<nat>, pos: nat,
      out: seq<Byte>, items: seq<Item>)
    requires TableSizesOK(ts) && ClOK(cl) && Expandable(items) && ItemsUsed(cl, items)
    requires |Expand(items)| <= ts[0] + ts[1] && At(bits, pos, ItemsBits(cl, items))
    ensures Reaches(bits, LensState(fin, ts, cl, [], pos, out),
            LensState(fin, ts, cl, Expand(items), pos + |ItemsBits(cl, items)|, out))
  {
    hide At, Reaches, Decodable, Expandable, Expand, Expansion;
    if items == [] {
      ExpandNil();
      ReachesSelf(bits, LensState(fin, ts, cl, [], pos, out));
    } else {
      var r, x := items[..|items| - 1], items[|items| - 1];
      ExpandablePrefix(items);
      ExpandGrows(r);
      ExpansionBounds(x, Expand(r));
      AtConcat(bits, pos, ItemsBits(cl, r), ItemBits(cl, x));
      ItemsDecode(bits, fin, ts, cl, pos, out, r);
      var p := pos + |ItemsBits(cl, r)|;
      ItemDecodes(bits, fin, ts, cl, Expand(r), p, out, x);
      ReachesTrans(bits, LensState(fin, ts, cl, [], pos, out), LensState(fin, ts, cl, Expand(r), p, out),
        LensState(fin, ts, cl, Expand(items), p + |ItemBits(cl, x)|, out));
    }
  }

  lemma ExpandNil()
    ensures Expand([]) == []
  {
  }

  lemma SizesAccepted(bits: seq<bool>, fin: bool, ts: seq<nat>, cl: seq<nat>, pos: nat, out: seq<Byte>, l: seq<nat>,
      d: seq<nat>)
    requires TableSizesOK(ts) && ClOK(cl) && AllAtMost(l + d, 15) && ts[0] == |l| && ts[1] == |d| && CodesOK(l, d)
    ensures Reaches(bits, LensState(fin, ts, cl, l + d, pos, out), SymState(fin, l, d, pos, out))
  {
    hide Reaches, Decodable;
    assert (l + d)[..|l|] == l && (l + d)[|l|..] == d;
    ReachesStep(bits, LensState(fin, ts, cl, l + d, pos, out));
  }

  // ---------------------------------------------------------------------------------
  // The whole header.

  // What must hold of a header for it to be understood.
  ghost predicate HeaderOK(l: seq<nat>, d: seq<nat>, cl: seq<nat>, n: nat, items: seq<Item>)
  {
    && 257 <= |l| <= 288 && 1 <= |d| <= 32 && 4 <= n <= 19 && CodesOK(l, d)
    && ClOK(cl) && AllAtMost(cl, 7) && RestZero(cl, n)
    && CodesBelow(items, 19) && Expandable(items) && Expand(items) == l + d && ItemsUsed(cl, items)
  }

  lemma HeadTypeDecodes(bits: seq<bool>, fin: bool, pos: nat, out: seq<Byte>, kind: nat)
    requires kind < 4 && At(bits, pos, [fin] + LsbBits(kind, 2))
    ensures var m := Machine(BlockHead, pos, out);
            && ReadBits(bits, pos, 3) == Got(Bit(fin) + 2 * kind, pos + 3)
            && Step(bits, m) == AfterHead(m, Got(Bit(fin) + 2 * kind, pos + 3))
  {
    var w := [fin] + LsbBits(kind, 2);
    assert w[1..] == LsbBits(kind, 2);
    SmallPowers();
    LsbValueOfBits(kind, 2);
    assert LsbValue(w) == Bit(fin) + 2 * kind;
  }

  lemma HeaderDecodes(bits: seq<bool>, fin: bool, pos: nat, out: seq<Byte>, l: seq<nat>, d: seq<nat>, cl: seq<nat>,
      n: nat, items: seq<Item>)
    requires HeaderOK(l, d, cl, n, items) && At(bits, pos, [fin] + DynamicHeader(l, d, cl, n, items))
    ensures Reaches(bits, Machine(BlockHead, pos, out),
            SymState(fin, l, d, pos + 1 + |DynamicHeader(l, d, cl, n, items)|, out))
  {
    hide At, Reaches, Decodable, Expandable, Expand, ItemsUsed, LsbBits, ClBits, ItemsBits, RestZero, AllAtMost, Step,
         ReadBits, Good, ClSent;
    var f := LsbBits(|l| - 257, 5) + LsbBits(|d| - 1, 5) + LsbBits(n - 4, 4);
    var ts := [|l|, |d|, n];
    var c, w := ClBits(cl, n), ItemsBits(cl, items);
    assert [fin] + DynamicHeader(l, d, cl, n, items) == (([fin] + LsbBits(2, 2)) + f) + c + w;
    AtConcat(bits, pos, (([fin] + LsbBits(2, 2)) + f) + c, w);
    AtConcat(bits, pos, ([fin] + LsbBits(2, 2)) + f, c);
    AtConcat(bits, pos, [fin] + LsbBits(2, 2), f);
    HeadReaches(bits, fin, pos, out);
    FieldsDecode(bits, fin, pos + 3, out, |l|, |d|, n);
    ClDecodes(bits, fin, ts, pos + 17, out, cl, n);
    ClTable(bits, fin, ts, pos + 17 + 3 * n, out, cl);
    var p := pos + 17 + 3 * n;
    var ts' := [|l|, |d|, 19];
    assert ts[2 := 19] == ts';
    ItemsDecode(bits, fin, ts', cl, p, out, items);
    ExpandGrows(items);
    SizesAccepted(bits, fin, ts', cl, p + |w|, out, l, d);
    var m := Machine(BlockHead, pos, out);
    ReachesTrans(bits, m, Machine(TableSizes(fin, []), pos + 3, out), Machine(ClSizes(fin, ts, []), pos + 17, out));
    ReachesTrans(bits, m, Machine(ClSizes(fin, ts, []), pos + 17, out),
        Machine(ClSizes(fin, ts, ClSent(cl, n)), p, out));
    ReachesTrans(bits, m, Machine(ClSizes(fin, ts, ClSent(cl, n)), p, out), LensState(fin, ts', cl, [], p, out));
    ReachesTrans(bits, m, LensState(fin, ts', cl, [], p, out), LensState(fin, ts', cl, l + d, p + |w|, out));
    ReachesTrans(bits, m, LensState(fin, ts', cl, l + d, p + |w|, out), SymState(fin, l, d, p + |w|, out));
  }

  lemma HeadReaches(bits: seq<bool>, fin: bool, pos: nat, out: seq<Byte>)
    requires At(bits, pos, [fin] + LsbBits(2, 2))
    ensures Reaches(bits, Machine(BlockHead, pos, out), Machine(TableSizes(fin, []), pos + 3, out))
  {
    hide At, Reaches, Step, LsbBits;
    HeadTypeDecodes(bits, fin, pos, out, 2);
    ReachesStep(bits, Machine(BlockHead, pos, out));
  }

  // The fixed codes.
  lemma StaticHeadReaches(bits: seq<bool>, fin: bool, pos: nat, out: seq<Byte>)
    requires At(bits, pos, [fin] + LsbBits(1, 2))
    ensures Reaches(bits, Machine(BlockHead, pos, out), SymState(fin, StaticLit(), StaticDist(), pos + 3, out))
  {
    hide At, Reaches, Step, LsbBits, StaticLit, StaticDist;
    HeadTypeDecodes(bits, fin, pos, out, 1);
    ReachesStep(bits, Machine(BlockHead, pos, out));
  }
}
