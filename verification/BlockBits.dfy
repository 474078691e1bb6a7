// The bits of a compressed block, as the compressor lays them out
// (kernel/miniz/miniz.c:903-1076, 1175-1220; RFC 1951 sections 3.2.3 to 3.2.7).
module BlockBits {
  import opened Bits
  import opened Canonical
  import opened CodeSizeRle
  import opened Tokens
  import opened InflateMachine

  const END_OF_BLOCK := 256

  // One code size item: the code of its symbol, then its extra value.
  function ItemBits(cl: seq<nat>, x: Item): (b: seq<bool>)
    requires |cl| == 19 && x.code < 19
    ensures |b| == cl[x.code] + ExtraBits(x.code)
  {
    Codeword(cl, x.code) + LsbBits(x.extra, ExtraBits(x.code))
  }

  ghost predicate CodesBelow(items: seq<Item>, n: nat)
  {
    forall i :: 0 <= i < |items| ==> items[i].code < n
  }

  function ItemsBits(cl: seq<nat>, items: seq<Item>): (b: seq<bool>)
    requires |cl| == 19 && CodesBelow(items, 19)
  {
    if items == [] then [] else ItemsBits(cl, items[..|items| - 1]) + ItemBits(cl, items[|items| - 1])
  }

  // Sizes of the first n code-length codes, in the order of the dezigzag table.
  function ClBits(cl: seq<nat>, n: nat): (b: seq<bool>)
    requires |cl| == 19 && n <= 19
    ensures |b| == 3 * n
  {
    if n == 0 then [] else ClBits(cl, n - 1) + LsbBits(cl[Dezigzag(n - 1)], 3)
  }

  // Everything tdefl_start_dynamic_block emits, for the code sizes sent and their packed form.
  function DynamicHeader(l: seq<nat>, d: seq<nat>, cl: seq<nat>, n: nat, items: seq<Item>): (b: seq<bool>)
    requires 257 <= |l| && 1 <= |d| && |cl| == 19 && 4 <= n <= 19 && CodesBelow(items, 19)
  {
    LsbBits(2, 2) + LsbBits(|l| - 257, 5) + LsbBits(|d| - 1, 5) + LsbBits(n - 4, 4) + ClBits(cl, n)
        + ItemsBits(cl, items)
  }

  ghost predicate AllEncodable(ls: seq<nat>, ds: seq<nat>, ts: seq<Token>)
  {
    forall i :: 0 <= i < |ts| ==> Encodable(ls, ds, ts[i])
  }

  // The codes of all tokens, then the end-of-block symbol.
  ghost function TokensBits(ls: seq<nat>, ds: seq<nat>, ts: seq<Token>): (b: seq<bool>)
    requires AllEncodable(ls, ds, ts)
  {
    if ts == [] then [] else TokenBits(ls, ds, ts[0]) + TokensBits(ls, ds, ts[1..])
  }

  ghost function BodyBits(ls: seq<nat>, ds: seq<nat>, ts: seq<Token>): (b: seq<bool>)
    requires Used(ls, END_OF_BLOCK) && AllEncodable(ls, ds, ts)
  {
    TokensBits(ls, ds, ts) + Codeword(ls, END_OF_BLOCK)
  }

  lemma {:induction false} TokensSnoc(ls: seq<nat>, ds: seq<nat>, ts: seq<Token>, t: Token)
    requires AllEncodable(ls, ds, ts + [t])
    ensures AllEncodable(ls, ds, ts) && Encodable(ls, ds, t)
    ensures TokensBits(ls, ds, ts + [t]) == TokensBits(ls, ds, ts) + TokenBits(ls, ds, t)
  {
    hide TokenBits, Encodable;
    assert (ts + [t])[|ts|] == t;
    assert forall i :: 0 <= i < |ts| ==> ts[i] == (ts + [t])[i];
    if ts == [] {
      assert [t][1..] == [];
    } else {
      assert (ts + [t])[1..] == ts[1..] + [t];
      TokensSnoc(ls, ds, ts[1..], t);
    }
  }
}
