// Decoding what the compressor emits: the inflate machine run on the bits of a block ends
// that block with exactly the bytes its tokens denote.
module BlockDecode {
  import opened Arith
  import opened Bits
  import opened Canonical
  import opened FastTable
  import opened Tokens
  import opened InflateMachine
  import opened InflateRun
  import opened BlockBits

  // ---------------------------------------------------------------------------------
  // Reading at a position.

  // The bits at pos spell w.
  ghost predicate At(bits: seq<bool>, pos: nat, w: seq<bool>)
  {
    pos + |w| <= |bits| && bits[pos..pos + |w|] == w
  }

  lemma AtConcat(bits: seq<bool>, pos: nat, a: seq<bool>, b: seq<bool>)
    ensures At(bits, pos, a + b) <==> At(bits, pos, a) && At(bits, pos + |a|, b)
  {
    if pos + |a| + |b| <= |bits| {
      var w := bits[pos..pos + |a + b|];
      assert w[..|a|] == bits[pos..pos + |a|];
      assert w[|a|..] == bits[pos + |a|..pos + |a| + |b|];
      assert (a + b)[..|a|] == a && (a + b)[|a|..] == b;
      if w[..|a|] == a && w[|a|..] == b {
        assert w == w[..|a|] + w[|a|..];
      }
    }
  }

  lemma ReadAt(bits: seq<bool>, pos: nat, v: nat, n: nat)
    requires v < Pow2(n) && At(bits, pos, LsbBits(v, n))
    ensures ReadBits(bits, pos, n) == Got(v, pos + n)
  {
    LsbValueOfBits(v, n);
  }

  lemma SymAt(sizes: seq<nat>, bits: seq<bool>, pos: nat, s: nat)
    requires Feasible(MAX_CODE_SIZE, sizes) && Used(sizes, s) && At(bits, pos, Codeword(sizes, s))
    ensures ReadSym(sizes, bits, pos) == Got(s, pos + sizes[s])
  {
    hide Feasible, Codeword;
    assert bits[pos..][..sizes[s]] == bits[pos..pos + sizes[s]];
    assert CodeAt(sizes, bits, pos, s);
    UniqueDecoding(MAX_CODE_SIZE, sizes, s, CodeFound(sizes, bits, pos), bits[pos..]);
  }

  lemma DecodableFeasible(sizes: seq<nat>)
    requires Decodable(sizes)
    ensures Feasible(MAX_CODE_SIZE, sizes)
  {
  }

  // ---------------------------------------------------------------------------------
  // Tokens.

  function SymState(fin: bool, ls: seq<nat>, ds: seq<nat>, pos: nat, out: seq<Byte>): Machine {
    Machine(Sym(fin, ls, ds), pos, out)
  }

  lemma LiteralDecodes(bits: seq<bool>, fin: bool, ls: seq<nat>, ds: seq<nat>, pos: nat, out: seq<Byte>, b: Byte)
    requires CodesOK(ls, ds) && Used(ls, b) && At(bits, pos, Codeword(ls, b))
    ensures Reaches(bits, SymState(fin, ls, ds, pos, out), SymState(fin, ls, ds, pos + ls[b], out + [b]))
  {
    hide Decodable, Reaches, At;
    var m := SymState(fin, ls, ds, pos, out);
    DecodableFeasible(ls);
    SymAt(ls, bits, pos, b);
    ReachesStep(bits, m);
    var m1 := Machine(Emit(fin, ls, ds, b), pos + ls[b], out);
    assert Step(bits, m).m == m1;
    ReachesStep(bits, m1);
    ReachesTrans(bits, m, m1, SymState(fin, ls, ds, pos + ls[b], out + [b]));
  }

  // Copying goes one byte at a time.
  lemma {:induction false} CopyRuns(bits: seq<bool>, fin: bool, ls: seq<nat>, ds: seq<nat>, pos: nat, out: seq<Byte>,
      len: nat, dist: nat)
    requires CodesOK(ls, ds) && 1 <= dist <= |out| && dist <= LZ_DICT_SIZE
    ensures Reaches(bits, Machine(Copy(fin, ls, ds, len, dist), pos, out),
            SymState(fin, ls, ds, pos, CopyBack(out, dist, len)))
    decreases len
  {
    hide CodesOK, Reaches;
    var m := Machine(Copy(fin, ls, ds, len, dist), pos, out);
    ReachesStep(bits, m);
    if len > 0 {
      var o := out + [out[|out| - dist]];
      CopyRuns(bits, fin, ls, ds, pos, o, len - 1, dist);
      ReachesTrans(bits, m, Machine(Copy(fin, ls, ds, len - 1, dist), pos, o),
          SymState(fin, ls, ds, pos, CopyBack(out, dist, len)));
    }
  }

  lemma LengthSteps(bits: seq<bool>, fin: bool, ls: seq<nat>, ds: seq<nat>, pos: nat, out: seq<Byte>, s: nat, p: nat,
      x: nat)
    requires CodesOK(ls, ds) && 257 <= s <= 285 && ReadSym(ls, bits, pos) == Got(s, p)
    requires RowLengthExtra(s - 257) == 0 ==> x == 0
    requires RowLengthExtra(s - 257) > 0 ==>
               ReadBits(bits, p, RowLengthExtra(s - 257)) == Got(x, p + RowLengthExtra(s - 257))
    ensures Reaches(bits, SymState(fin, ls, ds, pos, out),
              Machine(Dist(fin, ls, ds, RowLength(s - 257) + x), p + RowLengthExtra(s - 257), out))
  {
    hide CodesOK, Reaches, ReadSym, ReadBits, Step, RowLength, RowLengthExtra, RowDist, RowDistExtra;
    var m, e, base := SymState(fin, ls, ds, pos, out), RowLengthExtra(s - 257), RowLength(s - 257);
    SymStep(bits, m);
    ReachesStep(bits, m);
    if e > 0 {
      var m1 := Machine(LenBits(fin, ls, ds, s - 257), p, out);
      LenBitsStep(bits, m1);
      ReachesStep(bits, m1);
      ReachesTrans(bits, m, m1, Machine(Dist(fin, ls, ds, base + x), p + e, out));
    }
  }

  lemma SymStep(bits: seq<bool>, m: Machine)
    requires Good(m) && m.st.Sym?
    ensures Step(bits, m) == AfterSym(m, m.st.fin, m.st.ls, m.st.ds, ReadSym(m.st.ls, bits, m.pos))
  {
    hide CodesOK, ReadSym, AfterSym;
  }

  lemma LenBitsStep(bits: seq<bool>, m: Machine)
    requires Good(m) && m.st.LenBits?
    ensures var r := ReadBits(bits, m.pos, RowLengthExtra(m.st.row));
            Step(bits, m) == Then(m, r, Dist(m.st.fin, m.st.ls, m.st.ds, RowLength(m.st.row) + ValueOf(r)))
  {
    hide CodesOK, ReadBits, Then, ValueOf;
  }

  lemma DistStep(bits: seq<bool>, m: Machine)
    requires Good(m) && m.st.Dist?
    ensures Step(bits, m) == AfterDist(m, m.st.fin, m.st.ls, m.st.ds, m.st.len, ReadSym(m.st.ds, bits, m.pos))
  {
    hide CodesOK, ReadSym, AfterDist;
  }

  lemma DistBitsStep(bits: seq<bool>, m: Machine)
    requires Good(m) && m.st.DistBits?
    ensures var r := ReadBits(bits, m.pos, RowDistExtra(m.st.row));
            Step(bits, m) == Then(m, r,
                StartCopy(m.st.fin, m.st.ls, m.st.ds, m.st.len, RowDist(m.st.row) + ValueOf(r), |m.out|))
  {
    hide CodesOK, ReadBits, Then, ValueOf, StartCopy;
  }

  lemma DistanceSteps(bits: seq<bool>, fin: bool, ls: seq<nat>, ds: seq<nat>, pos: nat, out: seq<Byte>, len: nat,
      s: nat, p: nat, x: nat)
    requires CodesOK(ls, ds) && s < 30 && ReadSym(ds, bits, pos) == Got(s, p)
    requires RowDistExtra(s) == 0 ==> x == 0
    requires RowDistExtra(s) > 0 ==> ReadBits(bits, p, RowDistExtra(s)) == Got(x, p + RowDistExtra(s))
    requires 1 <= RowDist(s) + x <= |out| && RowDist(s) + x <= LZ_DICT_SIZE
    ensures Reaches(bits, Machine(Dist(fin, ls, ds, len), pos, out),
              Machine(Copy(fin, ls, ds, len, RowDist(s) + x), p + RowDistExtra(s), out))
  {
    hide CodesOK, Reaches, ReadSym, ReadBits, Step, RowLength, RowLengthExtra, RowDist, RowDistExtra;
    var m, e, base := Machine(Dist(fin, ls, ds, len), pos, out), RowDistExtra(s), RowDist(s);
    DistStep(bits, m);
    ReachesStep(bits, m);
    if e > 0 {
      var m1 := Machine(DistBits(fin, ls, ds, len, s), p, out);
      DistBitsStep(bits, m1);
      ReachesStep(bits, m1);
      ReachesTrans(bits, m, m1, Machine(Copy(fin, ls, ds, len, base + x), p + e, out));
    }
  }

  lemma LengthDecodes(bits: seq<bool>, fin: bool, ls: seq<nat>, ds: seq<nat>, pos: nat, out: seq<Byte>, i: nat)
    requires CodesOK(ls, ds) && i < 256 && Used(ls, LenSym(i))
    requires At(bits, pos, Codeword(ls, LenSym(i)) + LsbBits(i % Pow2(LenExtra(i)), LenExtra(i)))
    ensures Reaches(bits, SymState(fin, ls, ds, pos, out),
              Machine(Dist(fin, ls, ds, i + MIN_MATCH_LEN), pos + ls[LenSym(i)] + LenExtra(i), out))
  {
    hide Decodable, Reaches, At, LenSym, LenExtra, Pow2;
    var s, e := LenSym(i), LenExtra(i);
    LengthRoundTrip(i);
    AtConcat(bits, pos, Codeword(ls, s), LsbBits(i % Pow2(e), e));
    DecodableFeasible(ls);
    SymAt(ls, bits, pos, s);
    if e == 0 {
      ModOne(i);
    } else {
      ReadAt(bits, pos + ls[s], i % Pow2(e), e);
    }
    LengthSteps(bits, fin, ls, ds, pos, out, s, pos + ls[s], i % Pow2(e));
  }

  lemma ModOne(i: nat)
    ensures i % Pow2(0) == 0
  {
  }

  lemma DistanceDecodes(bits: seq<bool>, fin: bool, ls: seq<nat>, ds: seq<nat>, pos: nat, out: seq<Byte>, len: nat,
      d: nat)
    requires CodesOK(ls, ds) && d < LZ_DICT_SIZE && d + 1 <= |out| && Used(ds, DistSym(d))
    requires At(bits, pos, Codeword(ds, DistSym(d)) + LsbBits(d % Pow2(DistExtra(d)), DistExtra(d)))
    ensures Reaches(bits, Machine(Dist(fin, ls, ds, len), pos, out),
              Machine(Copy(fin, ls, ds, len, d + 1), pos + ds[DistSym(d)] + DistExtra(d), out))
  {
    hide Decodable, Reaches, At, DistSym, DistExtra, Pow2;
    var s, e := DistSym(d), DistExtra(d);
    DistanceRoundTrip(d);
    AtConcat(bits, pos, Codeword(ds, s), LsbBits(d % Pow2(e), e));
    DecodableFeasible(ds);
    SymAt(ds, bits, pos, s);
    if e == 0 {
      ModOne(d);
    } else {
      ReadAt(bits, pos + ds[s], d % Pow2(e), e);
    }
    DistanceSteps(bits, fin, ls, ds, pos, out, len, s, pos + ds[s], d % Pow2(e));
  }

  lemma MatchDecodes(bits: seq<bool>, fin: bool, ls: seq<nat>, ds: seq<nat>, pos: nat, out: seq<Byte>, len: nat,
      dist: nat)
    requires CodesOK(ls, ds)
    requires Encodable(ls, ds, Match(len, dist)) && ValidToken(Match(len, dist), |out|)
    requires At(bits, pos, TokenBits(ls, ds, Match(len, dist)))
    ensures Reaches(bits, SymState(fin, ls, ds, pos, out),
              SymState(fin, ls, ds, pos + |TokenBits(ls, ds, Match(len, dist))|, CopyBack(out, dist, len)))
  {
    hide CodesOK, Reaches, At, LenSym, LenExtra, DistSym, DistExtra, Pow2, CopyBack, Codeword, LsbBits;
    var i, d := len - MIN_MATCH_LEN, dist - 1;
    LengthRoundTrip(i);
    DistanceRoundTrip(d);
    var a := Codeword(ls, LenSym(i)) + LsbBits(i % Pow2(LenExtra(i)), LenExtra(i));
    var b := Codeword(ds, DistSym(d)) + LsbBits(d % Pow2(DistExtra(d)), DistExtra(d));
    AtConcat(bits, pos, a, b);
    LengthDecodes(bits, fin, ls, ds, pos, out, i);
    DistanceDecodes(bits, fin, ls, ds, pos + |a|, out, len, d);
    CopyRuns(bits, fin, ls, ds, pos + |a| + |b|, out, len, dist);
    ReachesTrans(bits, SymState(fin, ls, ds, pos, out), Machine(Dist(fin, ls, ds, len), pos + |a|, out),
      Machine(Copy(fin, ls, ds, len, dist), pos + |a| + |b|, out));
    ReachesTrans(bits, SymState(fin, ls, ds, pos, out), Machine(Copy(fin, ls, ds, len, dist), pos + |a| + |b|, out),
      SymState(fin, ls, ds, pos + |a| + |b|, CopyBack(out, dist, len)));
  }

  lemma TokenDecodes(bits: seq<bool>, fin: bool, ls: seq<nat>, ds: seq<nat>, pos: nat, out: seq<Byte>, t: Token)
    requires CodesOK(ls, ds)
    requires Encodable(ls, ds, t) && ValidToken(t, |out|) && At(bits, pos, TokenBits(ls, ds, t))
    ensures Reaches(bits, SymState(fin, ls, ds, pos, out),
            SymState(fin, ls, ds, pos + |TokenBits(ls, ds, t)|, Apply(out, t)))
  {
    hide CodesOK, Reaches, At, CopyBack;
    match t
    case Literal(b) => LiteralDecodes(bits, fin, ls, ds, pos, out, b);
    case Match(len, dist) => MatchDecodes(bits, fin, ls, ds, pos, out, len, dist);
  }

  lemma {:induction false} ApplySize(out: seq<Byte>, t: Token)
    requires ValidToken(t, |out|)
    ensures |Apply(out, t)| == |out| + TokenSize(t)
  {
  }

  // A token sequence comes back as the bytes it denotes.
  lemma {:induction false} TokensDecode(bits: seq<bool>, fin: bool, ls: seq<nat>, ds: seq<nat>, pos: nat,
      out: seq<Byte>, ts: seq<Token>)
    requires CodesOK(ls, ds)
    requires AllEncodable(ls, ds, ts) && ValidTokens(ts, |out|) && At(bits, pos, TokensBits(ls, ds, ts))
    ensures Reaches(bits, SymState(fin, ls, ds, pos, out),
            SymState(fin, ls, ds, pos + |TokensBits(ls, ds, ts)|, Replay(out, ts)))
    decreases |ts|
  {
    hide CodesOK, Reaches, At, TokenBits, Encodable, Apply;
    if ts == [] {
      ReachesSelf(bits, SymState(fin, ls, ds, pos, out));
    } else {
      var a := TokenBits(ls, ds, ts[0]);
      AtConcat(bits, pos, a, TokensBits(ls, ds, ts[1..]));
      TokenDecodes(bits, fin, ls, ds, pos, out, ts[0]);
      ApplySize(out, ts[0]);
      TokensDecode(bits, fin, ls, ds, pos + |a|, Apply(out, ts[0]), ts[1..]);
      ReachesTrans(bits, SymState(fin, ls, ds, pos, out), SymState(fin, ls, ds, pos + |a|, Apply(out, ts[0])),
        SymState(fin, ls, ds, pos + |TokensBits(ls, ds, ts)|, Replay(out, ts)));
    }
  }

  lemma EndDecodes(bits: seq<bool>, fin: bool, ls: seq<nat>, ds: seq<nat>, pos: nat, out: seq<Byte>)
    requires CodesOK(ls, ds) && Used(ls, END_OF_BLOCK) && At(bits, pos, Codeword(ls, END_OF_BLOCK))
    ensures Reaches(bits, SymState(fin, ls, ds, pos, out), Machine(EndBlock(fin), pos + ls[END_OF_BLOCK], out))
  {
    hide Decodable, Reaches, At;
    DecodableFeasible(ls);
    SymAt(ls, bits, pos, END_OF_BLOCK);
    ReachesStep(bits, SymState(fin, ls, ds, pos, out));
  }

  lemma BodyDecodes(bits: seq<bool>, fin: bool, ls: seq<nat>, ds: seq<nat>, pos: nat, out: seq<Byte>, ts: seq<Token>)
    requires CodesOK(ls, ds) && Used(ls, END_OF_BLOCK)
    requires AllEncodable(ls, ds, ts) && ValidTokens(ts, |out|) && At(bits, pos, BodyBits(ls, ds, ts))
    ensures Reaches(bits, SymState(fin, ls, ds, pos, out),
            Machine(EndBlock(fin), pos + |BodyBits(ls, ds, ts)|, Replay(out, ts)))
  {
    hide CodesOK, Reaches, At, TokensBits, AllEncodable, ValidTokens;
    AtConcat(bits, pos, TokensBits(ls, ds, ts), Codeword(ls, END_OF_BLOCK));
    TokensDecode(bits, fin, ls, ds, pos, out, ts);
    EndDecodes(bits, fin, ls, ds, pos + |TokensBits(ls, ds, ts)|, Replay(out, ts));
    ReachesTrans(bits, SymState(fin, ls, ds, pos, out),
        SymState(fin, ls, ds, pos + |TokensBits(ls, ds, ts)|, Replay(out, ts)),
      Machine(EndBlock(fin), pos + |BodyBits(ls, ds, ts)|, Replay(out, ts)));
  }
}
