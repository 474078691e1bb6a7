// The buffer of LZ codes waiting for a block: groups of eight codes behind one byte of
// flags (kernel/miniz/miniz.c:1247-1248, 1668-1701).
module LzCodes {
  import opened Arith
  import opened Bits
  import opened Tokens
  import opened BitWriter

  const LZ_CODE_BUF_SIZE := 0x1_0000

  // What the buffer can hold.
  ghost predicate Recordable(t: Token)
  {
    t.Match? ==> MIN_MATCH_LEN <= t.len <= MAX_MATCH_LEN && 1 <= t.dist <= LZ_DICT_SIZE
  }

  ghost predicate AllRecordable(ts: seq<Token>)
  {
    forall i :: 0 <= i < |ts| ==> Recordable(ts[i])
  }

  ghost function TokenBytes(t: Token): (r: seq<Byte>)
    requires Recordable(t)
  {
    match t
    case Literal(b) => [b]
    case Match(len, dist) => [len - MIN_MATCH_LEN, (dist - 1) % 256, (dist - 1) / 256]
  }

  ghost function Bytes(ts: seq<Token>): (r: seq<Byte>)
    requires AllRecordable(ts)
    ensures |r| >= |ts|
  {
    if ts == [] then [] else TokenBytes(ts[0]) + Bytes(ts[1..])
  }

  // One flag per token, set for matches.
  ghost function Flags(ts: seq<Token>): (r: seq<bool>)
    ensures |r| == |ts|
  {
    seq(|ts|, i requires 0 <= i < |ts| => ts[i].Match?)
  }

  ghost function FlagByte(ts: seq<Token>): (r: Byte)
    requires |ts| <= 8
  {
    LsbBitsOfValue(Flags(ts));
    Pow2Monotone(|ts|, 8);
    assert Pow2(8) == 256;
    LsbValue(Flags(ts))
  }

  ghost function Group(ts: seq<Token>): (g: seq<Token>)
    ensures g <= ts && |g| == (if |ts| < 8 then |ts| else 8)
  {
    if |ts| <= 8 then ts else ts[..8]
  }

  // The finished buffer.
  ghost function Packed(ts: seq<Token>): (r: seq<Byte>)
    requires AllRecordable(ts)
    ensures |r| >= |ts| + (|ts| + 7) / 8
    decreases |ts|
  {
    if ts == [] then [] else [FlagByte(Group(ts))] + Bytes(Group(ts)) + Packed(ts[|Group(ts)|..])
  }

  lemma {:induction false} BytesSnoc(ts: seq<Token>, t: Token)
    requires AllRecordable(ts) && Recordable(t)
    ensures AllRecordable(ts + [t]) && Bytes(ts + [t]) == Bytes(ts) + TokenBytes(t)
  {
    hide TokenBytes;
    if ts == [] {
      assert [t][1..] == [];
    } else {
      BytesSnoc(ts[1..], t);
      assert (ts + [t])[1..] == ts[1..] + [t];
    }
  }

  // Complete groups in front.
  lemma {:induction false} PackedConcat(a: seq<Token>, b: seq<Token>)
    requires AllRecordable(a) && AllRecordable(b) && |a| % 8 == 0
    ensures AllRecordable(a + b) && Packed(a + b) == Packed(a) + Packed(b)
    decreases |a|
  {
    hide Bytes, FlagByte, Packed;
    if a == [] {
      PackedNone();
      assert a + b == b;
    } else {
      PackedConcat(a[8..], b);
      assert (a + b)[8..] == a[8..] + b && (a + b)[..8] == a[..8];
      FirstGroup(a);
      FirstGroup(a + b);
      var f := [FlagByte(a[..8])] + Bytes(a[..8]);
      assert f + Packed(a[8..]) + Packed(b) == f + (Packed(a[8..]) + Packed(b));
    }
  }

  lemma PackedNone()
    ensures Packed([]) == [] && Bytes([]) == []
  {
  }

  lemma FirstGroup(ts: seq<Token>)
    requires AllRecordable(ts) && |ts| >= 8
    ensures Packed(ts) == [FlagByte(ts[..8])] + Bytes(ts[..8]) + Packed(ts[8..])
  {
    hide Bytes, FlagByte;
    assert Group(ts) == ts[..8];
  }

  lemma PackedOne(ts: seq<Token>)
    requires AllRecordable(ts) && 0 < |ts| <= 8
    ensures Packed(ts) == [FlagByte(ts)] + Bytes(ts)
  {
    assert ts[|ts|..] == [];
  }

  lemma FlagsSnoc(ts: seq<Token>, t: Token)
    ensures LsbValue(Flags(ts + [t])) == LsbValue(Flags(ts)) + Bit(t.Match?) * Pow2(|ts|)
  {
    hide LsbValue, Pow2;
    assert Flags(ts + [t]) == Flags(ts) + [t.Match?];
    LsbValueConcat(Flags(ts), [t.Match?]);
    OneBit(t.Match?);
  }

  lemma OneBit(b: bool)
    ensures LsbValue([b]) == Bit(b)
  {
    assert [b][1..] == [];
  }

  // Shifting a flag into the top of the flag byte.
  lemma ShiftIn(v: nat, r: nat, m: bool, f: nat)
    requires v < 256 && r < 8 && v / Pow2(8 - r) == f
    ensures v / 2 + 128 * Bit(m) < 256
    ensures (v / 2 + 128 * Bit(m)) / Pow2(7 - r) == f + Bit(m) * Pow2(r)
  {
    hide Pow2;
    var u := Pow2(7 - r);
    DivPow2(v, 7 - r);
    Pow2Add(7 - r, r);
    assert Pow2(7) == 128 by { SmallPowers(); }
    AddMultiple(v / 2, Bit(m) * Pow2(r), u);
    assert 128 * Bit(m) == (Bit(m) * Pow2(r)) * u by {
      MulAssoc(Bit(m), Pow2(r), u);
    }
  }

  lemma MulAssoc(a: nat, b: nat, c: nat)
    ensures a * b * c == a * (b * c) == c * b * a
  {
  }

  lemma AddMultiple(a: nat, k: nat, u: nat)
    requires u > 0
    ensures (a + k * u) / u == a / u + k
  {
    var q, r := a / u, a % u;
    Distribute(q, k, u);
    assert u * (q + k) == (q + k) * u;
    DivUnique(a + k * u, u, q + k, r);
  }

  // Codes in complete groups, and those of the group being filled.
  ghost function Done(ts: seq<Token>): seq<Token> {
    ts[..|ts| - |ts| % 8]
  }

  ghost function Current(ts: seq<Token>): (r: seq<Token>)
    ensures |r| == |ts| % 8
  {
    ts[|ts| - |ts| % 8..]
  }

  // The bytes b of the buffer hold ts; the flags of the last group are in the high bits.
  ghost predicate Holds(b: seq<Byte>, codeBuf: nat, flagsPos: nat, left: nat, ts: seq<Token>)
  {
    && |b| == LZ_CODE_BUF_SIZE && AllRecordable(ts)
    && left == 8 - |Current(ts)| && flagsPos == |Packed(Done(ts))|
    && codeBuf == flagsPos + 1 + |Bytes(Current(ts))| && codeBuf <= |b|
    && b[..flagsPos] == Packed(Done(ts)) && b[flagsPos + 1..codeBuf] == Bytes(Current(ts))
    && b[flagsPos] / Pow2(left) == LsbValue(Flags(Current(ts)))
  }

  // A full buffer still holds fewer codes than a 16-bit counter can count.
  lemma Room(b: seq<Byte>, codeBuf: nat, flagsPos: nat, left: nat, ts: seq<Token>)
    requires Holds(b, codeBuf, flagsPos, left, ts)
    ensures |ts| + |ts| / 8 < LZ_CODE_BUF_SIZE
  {
    hide Packed, Bytes, LsbValue, Pow2, Flags;
  }

  // The buffer after a code's bytes and flag have been written.
  function Shifted(b: seq<Byte>, codeBuf: nat, flagsPos: nat, m: bool, w: seq<Byte>): (r: seq<Byte>)
    requires flagsPos < codeBuf && codeBuf + |w| <= |b|
    ensures |r| == |b|
  {
    (b[..codeBuf] + w + b[codeBuf + |w|..])[flagsPos := b[flagsPos] / 2 + 128 * Bit(m)]
  }

  lemma ShiftedParts(b: seq<Byte>, codeBuf: nat, flagsPos: nat, m: bool, w: seq<Byte>)
    requires flagsPos < codeBuf && codeBuf + |w| <= |b|
    ensures var r := Shifted(b, codeBuf, flagsPos, m, w);
            && r[..flagsPos] == b[..flagsPos] && r[flagsPos] == b[flagsPos] / 2 + 128 * Bit(m)
            && r[flagsPos + 1..codeBuf + |w|] == b[flagsPos + 1..codeBuf] + w
  {
  }

  lemma CurrentSnoc(ts: seq<Token>, t: Token)
    ensures |ts| % 8 < 7 ==> Done(ts + [t]) == Done(ts) && Current(ts + [t]) == Current(ts) + [t]
    ensures |ts| % 8 == 7 ==> Done(ts + [t]) == Done(ts) + (Current(ts) + [t]) && Current(ts + [t]) == []
  {
  }

  lemma RecordableParts(ts: seq<Token>)
    requires AllRecordable(ts)
    ensures AllRecordable(Done(ts)) && AllRecordable(Current(ts))
  {
  }

  // A group that is not yet complete.
  lemma RecordedWithin(b: seq<Byte>, codeBuf: nat, flagsPos: nat, left: nat, ts: seq<Token>, t: Token)
    requires Holds(b, codeBuf, flagsPos, left, ts) && Recordable(t) && codeBuf + |TokenBytes(t)| <= |b| && |ts| % 8 < 7
    ensures Holds(Shifted(b, codeBuf, flagsPos, t.Match?, TokenBytes(t)), codeBuf + |TokenBytes(t)|, flagsPos,
            left - 1, ts + [t])
  {
    hide Packed, Bytes, LsbValue, Pow2, Flags, TokenBytes, Shifted, AllRecordable, Recordable;
    RecordableParts(ts);
    CurrentSnoc(ts, t);
    ShiftedParts(b, codeBuf, flagsPos, t.Match?, TokenBytes(t));
    BytesSnoc(Current(ts), t);
    BytesSnoc(ts, t);
    FlagsSnoc(Current(ts), t);
    ShiftIn(b[flagsPos], |Current(ts)|, t.Match?, LsbValue(Flags(Current(ts))));
  }

  // The eighth code completes a group, and a byte is set aside for the next flags.
  lemma RecordedEighth(b: seq<Byte>, codeBuf: nat, flagsPos: nat, left: nat, ts: seq<Token>, t: Token)
    requires Holds(b, codeBuf, flagsPos, left, ts) && Recordable(t) && codeBuf + |TokenBytes(t)| < |b| && |ts| % 8 == 7
    ensures var end := codeBuf + |TokenBytes(t)|;
            Holds(Shifted(b, codeBuf, flagsPos, t.Match?, TokenBytes(t)), end + 1, end, 8, ts + [t])
  {
    hide Packed, Bytes, LsbValue, Pow2, Flags, TokenBytes, Shifted, AllRecordable, Recordable;
    var w, r := TokenBytes(t), Shifted(b, codeBuf, flagsPos, t.Match?, TokenBytes(t));
    var g, end := Current(ts) + [t], codeBuf + |w|;
    RecordableParts(ts);
    CurrentSnoc(ts, t);
    ShiftedParts(b, codeBuf, flagsPos, t.Match?, w);
    BytesSnoc(Current(ts), t);
    BytesSnoc(ts, t);
    FlagsSnoc(Current(ts), t);
    ShiftIn(b[flagsPos], 7, t.Match?, LsbValue(Flags(Current(ts))));
    SmallPowers();
    assert FlagByte(g) == LsbValue(Flags(g)) == r[flagsPos];
    GroupClosed(r, flagsPos, end, Done(ts), g);
    EmptyGroup(r[end]);
    PackedNone();
  }

  lemma GroupClosed(r: seq<Byte>, flagsPos: nat, end: nat, done: seq<Token>, g: seq<Token>)
    requires AllRecordable(done) && AllRecordable(g) && |done| % 8 == 0 && |g| == 8 && flagsPos < end <= |r|
    requires r[..flagsPos] == Packed(done) && r[flagsPos] == FlagByte(g) && r[flagsPos + 1..end] == Bytes(g)
    ensures AllRecordable(done + g) && r[..end] == Packed(done + g)
  {
    hide Packed, Bytes, FlagByte, AllRecordable;
    PackedOne(g);
    PackedConcat(done, g);
    assert r[..end] == r[..flagsPos] + [r[flagsPos]] + r[flagsPos + 1..end];
  }

  lemma EmptyGroup(v: Byte)
    ensures Bytes([]) == [] && v / Pow2(8) == 0 == LsbValue(Flags([]))
  {
    SmallPowers();
  }

  lemma HoldsNothing(b: seq<Byte>)
    requires |b| == LZ_CODE_BUF_SIZE
    ensures Holds(b, 1, 0, 8, [])
  {
    hide LsbValue, Pow2, Flags, Packed, Bytes;
    PackedNone();
    EmptyGroup(b[0]);
    assert b[..0] == [] && b[1..1] == [];
  }

  // Shifting the last flags down completes the last group, or leaves nothing of an empty one.
  lemma GroupFinished(b: seq<Byte>, codeBuf: nat, flagsPos: nat, left: nat, ts: seq<Token>)
    requires Holds(b, codeBuf, flagsPos, left, ts)
    ensures flagsPos < codeBuf <= |b| && AllRecordable(ts) && b[flagsPos] / Pow2(left) < 256
    ensures b[flagsPos := b[flagsPos] / Pow2(left)][..if left == 8 then codeBuf - 1 else codeBuf] == Packed(ts)
  {
    hide Packed, Bytes, Holds;
    HoldsBounds(b, codeBuf, flagsPos, left, ts);
    QuotientSmaller(b[flagsPos], Pow2(left));
    var v := b[flagsPos] / Pow2(left);
    if left == 8 {
      NothingBegun(b, codeBuf, flagsPos, ts);
      assert b[flagsPos := v][..codeBuf - 1] == b[..flagsPos];
    } else {
      LastGroup(b, codeBuf, flagsPos, left, ts);
      assert b[flagsPos := v][..codeBuf] == b[..flagsPos] + [v] + b[flagsPos + 1..codeBuf];
    }
  }

  lemma NothingBegun(b: seq<Byte>, codeBuf: nat, flagsPos: nat, ts: seq<Token>)
    requires Holds(b, codeBuf, flagsPos, 8, ts)
    ensures AllRecordable(ts) && codeBuf == flagsPos + 1 <= |b| && b[..flagsPos] == Packed(ts)
  {
    hide Packed, Bytes, LsbValue, Flags, Pow2;
    EmptyGroup(0);
    assert Done(ts) == ts;
  }

  lemma LastGroup(b: seq<Byte>, codeBuf: nat, flagsPos: nat, left: nat, ts: seq<Token>)
    requires Holds(b, codeBuf, flagsPos, left, ts) && left < 8
    ensures AllRecordable(ts) && flagsPos < codeBuf <= |b|
    ensures b[..flagsPos] + [b[flagsPos] / Pow2(left)] + b[flagsPos + 1..codeBuf] == Packed(ts)
  {
    hide Packed, Bytes, LsbValue, Flags, Pow2;
    RecordableParts(ts);
    PackedOne(Current(ts));
    PackedConcat(Done(ts), Current(ts));
    assert ts == Done(ts) + Current(ts);
  }

  lemma QuotientSmaller(v: nat, p: nat)
    requires p > 0
    ensures 0 <= v / p <= v
  {
    DivMod(v, p);
    MulMonotone(v / p, 1, p);
  }

  class LzCodes {
    const buf: array<Byte>
    var codeBuf: nat
    var flagsPos: nat
    var numFlagsLeft: nat
    ghost var tokens: seq<Token>

    ghost predicate Valid()
      reads this, buf
    {
      Holds(buf[..], codeBuf, flagsPos, numFlagsLeft, tokens)
    }

    constructor ()
      ensures Valid() && tokens == [] && codeBuf == 1 && fresh(buf)
    {
      hide Holds;
      buf := new Byte[LZ_CODE_BUF_SIZE](_ => 0);
      codeBuf, flagsPos, numFlagsLeft, tokens := 1, 0, 8, [];
      new;
      HoldsNothing(buf[..]);
    }

    // Start anew after a block (source lines 1332-1334).
    method Reset()
      requires buf.Length == LZ_CODE_BUF_SIZE
      modifies this
      ensures Valid() && tokens == [] && codeBuf == 1
    {
      hide Holds;
      HoldsNothing(buf[..]);
      codeBuf, flagsPos, numFlagsLeft, tokens := 1, 0, 8, [];
    }

    // The buffer part of tdefl_record_literal.
    method PutLiteral(lit: Byte)
      requires Valid() && codeBuf + 2 <= buf.Length
      modifies this, buf
      ensures Valid() && tokens == old(tokens) + [Literal(lit)] && codeBuf <= old(codeBuf) + 2
    {
      hide Holds;
      ghost var b, t := buf[..], Literal(lit);
      HoldsBounds(b, codeBuf, flagsPos, numFlagsLeft, tokens);
      buf[codeBuf] := lit;
      codeBuf := codeBuf + 1;
      buf[flagsPos] := buf[flagsPos] / 2;
      assert buf[..] == Shifted(b, codeBuf - 1, flagsPos, false, TokenBytes(t));
      if numFlagsLeft > 1 {
        RecordedWithin(b, codeBuf - 1, flagsPos, numFlagsLeft, tokens, t);
        numFlagsLeft := numFlagsLeft - 1;
      } else {
        RecordedEighth(b, codeBuf - 1, flagsPos, numFlagsLeft, tokens, t);
        numFlagsLeft := 8;
        flagsPos := codeBuf;
        codeBuf := codeBuf + 1;
      }
      tokens := tokens + [t];
    }

    // The buffer part of tdefl_record_match.
    method PutMatch(len: nat, dist: nat)
      requires Valid() && codeBuf + 4 <= buf.Length
      requires MIN_MATCH_LEN <= len <= MAX_MATCH_LEN && 1 <= dist <= LZ_DICT_SIZE
      modifies this, buf
      ensures Valid() && tokens == old(tokens) + [Match(len, dist)] && codeBuf <= old(codeBuf) + 4
    {
      hide Holds;
      ghost var b, t := buf[..], Match(len, dist);
      HoldsBounds(b, codeBuf, flagsPos, numFlagsLeft, tokens);
      buf[codeBuf] := len - MIN_MATCH_LEN;
      buf[codeBuf + 1] := (dist - 1) % 256;
      buf[codeBuf + 2] := (dist - 1) / 256;
      codeBuf := codeBuf + 3;
      buf[flagsPos] := buf[flagsPos] / 2 + 128;
      assert buf[..] == Shifted(b, codeBuf - 3, flagsPos, true, TokenBytes(t));
      if numFlagsLeft > 1 {
        RecordedWithin(b, codeBuf - 3, flagsPos, numFlagsLeft, tokens, t);
        numFlagsLeft := numFlagsLeft - 1;
      } else {
        RecordedEighth(b, codeBuf - 3, flagsPos, numFlagsLeft, tokens, t);
        numFlagsLeft := 8;
        flagsPos := codeBuf;
        codeBuf := codeBuf + 1;
      }
      tokens := tokens + [t];
    }

    // What a block starts with (source lines 1247-1248): afterwards the buffer holds exactly
    // the packed codes.
    method Finish()
      requires Valid()
      modifies this`codeBuf, buf
      ensures codeBuf <= buf.Length && buf[..codeBuf] == Packed(tokens) && AllRecordable(tokens)
    {
      hide Packed, Holds, Pow2;
      ghost var b := buf[..];
      HoldsBounds(b, codeBuf, flagsPos, numFlagsLeft, tokens);
      GroupFinished(b, codeBuf, flagsPos, numFlagsLeft, tokens);
      buf[flagsPos] := buf[flagsPos] / Pow2(numFlagsLeft);
      assert buf[..] == b[flagsPos := buf[flagsPos]];
      if numFlagsLeft == 8 {
        codeBuf := codeBuf - 1;
      }
    }
  }

  lemma HoldsBounds(b: seq<Byte>, codeBuf: nat, flagsPos: nat, left: nat, ts: seq<Token>)
    requires Holds(b, codeBuf, flagsPos, left, ts)
    ensures |b| == LZ_CODE_BUF_SIZE && flagsPos < codeBuf <= |b| && 1 <= left <= 8
    ensures left == 8 - |ts| % 8 && AllRecordable(ts)
  {
  }
}
