// The machine's steps, each as what it does to a run that is known to end.
module InflateSteps {
  import opened Arith
  import opened Bits
  import opened Canonical
  import opened FastTable
  import opened CodeSizeRle
  import opened Tokens
  import opened InflateMachine
  import opened InflateRun
  import opened InflateWait
  import opened BlockDecode

  // The value of the n bits at pos.
  ghost function Field(stream: seq<bool>, pos: nat, n: nat): nat
    requires pos + n <= |stream|
  {
    LsbValue(stream[pos..pos + n])
  }

  lemma FieldRange(stream: seq<bool>, pos: nat, n: nat)
    requires pos + n <= |stream|
    ensures Field(stream, pos, n) < Pow2(n)
  {
    LsbBitsOfValue(stream[pos..pos + n]);
  }

  // The machine steps from m to m', still on a run of known length.
  ghost predicate Follows(stream: seq<bool>, m: Machine, left: nat, f: Machine, m': Machine)
  {
    left > 0 && Good(m) && Step(stream, m).Next? && Step(stream, m).m == m' && Ends(stream, m', left - 1, f)
  }

  lemma FollowsMeans(stream: seq<bool>, m: Machine, left: nat, f: Machine, m': Machine)
    requires Follows(stream, m, left, f, m') && Ends(stream, m, left, f)
    ensures left > 0 && Ends(stream, m', left - 1, f) && Good(m') && m.pos <= m'.pos && m.out <= m'.out
  {
    hide Step, Good, Forward;
    StepGood(stream, m);
    ForwardGood(m, m');
  }

  // No byte beyond the first k is needed yet, or the machine waits for more than these.
  ghost predicate Frugal(stream: seq<bool>, k: nat, m: Machine)
  {
    8 * k <= |stream| && Good(m) && (Aligned(m.pos) >= 8 * k || Step(stream[..8 * k], m).Wait?)
  }

  lemma FrugalStep(stream: seq<bool>, k: nat, m: Machine, left: nat, f: Machine, m': Machine)
    requires Frugal(stream, k, m) && Follows(stream, m, left, f, m') && Ends(stream, m, left, f)
    ensures Frugal(stream, k, m') && Aligned(m'.pos) >= 8 * k
  {
    hide Step, Good, Ends;
    FollowsMeans(stream, m, left, f, m');
    if Aligned(m.pos) < 8 * k {
      NotMalformed(stream, m', left - 1, f);
      WaitPast(stream[..8 * k], stream, m);
    }
  }

  lemma NotMalformed(stream: seq<bool>, m: Machine, left: nat, f: Machine)
    requires Ends(stream, m, left, f)
    ensures !m.st.Malformed?
  {
    hide Step, Good;
    if m.st.Malformed? {
      FinalStays(stream, m, left, f);
    }
  }

  // Too few bits for what the state wants.
  lemma StarvedBits(stream: seq<bool>, k: nat, m: Machine, left: nat, f: Machine)
    requires Ends(stream, m, left, f) && Wanted(m.st).SomeBits? && 8 * k <= |stream| && 8 * k < m.pos + Wanted(m.st).n
    ensures Good(m) && Step(stream[..8 * k], m).Wait?
  {
    hide Step, Good;
    WantBits(stream[..8 * k], m);
  }

  lemma StarvedSymbol(stream: seq<bool>, k: nat, m: Machine, left: nat, f: Machine, s: nat)
    requires Ends(stream, m, left, f) && Wanted(m.st).Symbol?
    requires var sizes := Wanted(m.st).sizes;
             Used(sizes, s) && At(stream, m.pos, Codeword(sizes, s)) && m.pos <= 8 * k <= |stream| &&
                 8 * k < m.pos + sizes[s]
    ensures Good(m) && Step(stream[..8 * k], m).Wait?
  {
    hide Step, Good, Codeword, Decodable;
    var sizes := Wanted(m.st).sizes;
    WantSymbol(stream[..8 * k], m);
    DecodableSmall(sizes);
    SymbolStarved(stream[..8 * k], stream, sizes, m.pos, s);
  }

  lemma TakeHead(stream: seq<bool>, m: Machine, left: nat, f: Machine)
    requires Ends(stream, m, left, f) && m.st.BlockHead?
    ensures left > 0 && m.pos + 3 <= |stream|
    ensures var v := Field(stream, m.pos, 3);
            && v < 8
            && (v / 2 == 0 ==> Follows(stream, m, left, f, Machine(RawHead(v % 2 == 1, []), Aligned(m.pos + 3), m.out)))
            && (v / 2 == 1 ==>
                Follows(stream, m, left, f, Machine(Sym(v % 2 == 1, StaticLit(), StaticDist()), m.pos + 3, m.out)))
            && (v / 2 == 2 ==> Follows(stream, m, left, f, Machine(TableSizes(v % 2 == 1, []), m.pos + 3, m.out)))
            && (v / 2 == 3 ==> Follows(stream, m, left, f, Machine(Failed, m.pos + 3, m.out)))
  {
    hide LsbValue, ReadBits, StaticLit, StaticDist, Ends;
    EndsBits(stream, m, left, f);
    EndsGood(stream, m, left, f);
    EndsNext(stream, m, left, f);
    FieldRange(stream, m.pos, 3);
    SmallPowers();
  }

  lemma EndsGood(stream: seq<bool>, m: Machine, left: nat, f: Machine)
    requires Ends(stream, m, left, f)
    ensures Good(m)
  {
    hide Good;
  }

  lemma TakeRawHead(stream: seq<bool>, m: Machine, left: nat, f: Machine)
    requires Ends(stream, m, left, f) && m.st.RawHead?
    ensures left > 0 && m.pos + 8 <= |stream| && |m.st.head| < 4
    ensures Follows(stream, m, left, f, Machine(AfterRawHead(m.st.fin, m.st.head + [Field(stream, m.pos, 8)]),
            m.pos + 8, m.out))
  {
    hide LsbValue, ReadBits, Ends, AfterRawHead;
    EndsBits(stream, m, left, f);
    EndsGood(stream, m, left, f);
    EndsNext(stream, m, left, f);
  }

  lemma TakeRaw(stream: seq<bool>, m: Machine, left: nat, f: Machine)
    requires Ends(stream, m, left, f) && m.st.RawBody? && m.st.left > 0
    ensures left > 0 && m.pos + 8 <= |stream|
    ensures Follows(stream, m, left, f, Machine(RawOut(m.st.fin, m.st.left - 1, Field(stream, m.pos, 8) % 256),
            m.pos + 8, m.out))
  {
    hide LsbValue, ReadBits, Ends;
    EndsBits(stream, m, left, f);
    EndsGood(stream, m, left, f);
    EndsNext(stream, m, left, f);
  }

  lemma TakeRawOut(stream: seq<bool>, m: Machine, left: nat, f: Machine)
    requires Ends(stream, m, left, f) && m.st.RawOut?
    ensures left > 0 && Follows(stream, m, left, f, Machine(RawBody(m.st.fin, m.st.left), m.pos, m.out + [m.st.b]))
  {
    hide Ends;
    EndsGood(stream, m, left, f);
    EndsNext(stream, m, left, f);
  }

  lemma TakeRawEnd(stream: seq<bool>, m: Machine, left: nat, f: Machine)
    requires Ends(stream, m, left, f) && m.st.RawBody? && m.st.left == 0
    ensures left > 0 && Follows(stream, m, left, f, Machine(EndBlock(m.st.fin), m.pos, m.out))
  {
    hide Ends;
    EndsGood(stream, m, left, f);
    EndsNext(stream, m, left, f);
  }

  lemma TakeField(stream: seq<bool>, m: Machine, left: nat, f: Machine)
    requires Ends(stream, m, left, f) && m.st.TableSizes?
    ensures left > 0 && |m.st.ts| < 3 && m.pos + FieldBits(|m.st.ts|) <= |stream|
    ensures var n := FieldBits(|m.st.ts|);
            Follows(stream, m, left, f,
                Machine(AfterField(m, m.st.fin, m.st.ts + [Field(stream, m.pos, n) + FieldBase(|m.st.ts|)]), m.pos + n,
                m.out))
  {
    hide LsbValue, ReadBits, Ends, AfterField;
    EndsBits(stream, m, left, f);
    EndsGood(stream, m, left, f);
    EndsNext(stream, m, left, f);
  }

  lemma TakeCl(stream: seq<bool>, m: Machine, left: nat, f: Machine)
    requires Ends(stream, m, left, f) && m.st.ClSizes?
    ensures left > 0 && TableSizesOK(m.st.ts) && |m.st.got| <= m.st.ts[2] && AllAtMost(m.st.got, 7)
    ensures |m.st.got| < m.st.ts[2] ==> m.pos + 3 <= |stream|
    ensures |m.st.got| < m.st.ts[2] ==>
              Follows(stream, m, left, f, Machine(ClSizes(m.st.fin, m.st.ts, m.st.got + [Field(stream, m.pos, 3)]),
                  m.pos + 3, m.out))
    ensures |m.st.got| == m.st.ts[2] ==>
              Follows(stream, m, left, f, Machine(AfterClSizes(m.st.fin, m.st.ts, ClArray(m.st.got)), m.pos, m.out))
  {
    hide LsbValue, ReadBits, Ends, AllAtMost, ClArray, AfterClSizes;
    EndsGood(stream, m, left, f);
    EndsNext(stream, m, left, f);
    if |m.st.got| < m.st.ts[2] {
      EndsBits(stream, m, left, f);
    }
  }

  lemma TakeLen(stream: seq<bool>, m: Machine, left: nat, f: Machine) returns (s: nat)
    requires Ends(stream, m, left, f) && m.st.Lens? && |m.st.ts| == 3 && |m.st.got| < m.st.ts[0] + m.st.ts[1]
    ensures left > 0 && ClOK(m.st.cl) && AllAtMost(m.st.got, 15)
    ensures Used(m.st.cl, s) && At(stream, m.pos, Codeword(m.st.cl, s)) && m.pos + m.st.cl[s] <= |stream|
    ensures var p := m.pos + m.st.cl[s];
            && (s < 16 ==>
                Follows(stream, m, left, f, Machine(Lens(m.st.fin, m.st.ts, m.st.cl, m.st.got + [s]), p, m.out)))
            && (s == 16 && m.st.got == [] ==> Follows(stream, m, left, f, Machine(Failed, p, m.out)))
            && (s >= 16 && (s == 16 ==> m.st.got != []) ==>
                Follows(stream, m, left, f, Machine(LensRepeat(m.st.fin, m.st.ts, m.st.cl, m.st.got, s), p, m.out)))
  {
    hide ReadSym, Ends, AllAtMost, Decodable, Codeword;
    EndsGood(stream, m, left, f);
    EndsNext(stream, m, left, f);
    s := EndsSymbol(stream, m, left, f);
  }

  lemma TakeLensEnd(stream: seq<bool>, m: Machine, left: nat, f: Machine)
    requires Ends(stream, m, left, f) && m.st.Lens? && |m.st.ts| == 3 && |m.st.got| >= m.st.ts[0] + m.st.ts[1]
    ensures left > 0 && AllAtMost(m.st.got, 15) && TableSizesOK(m.st.ts)
    ensures Follows(stream, m, left, f, Machine(AfterLens(m.st.fin, m.st.ts, m.st.got), m.pos, m.out))
  {
    hide ReadSym, Ends, AllAtMost, Decodable, AfterLens;
    EndsGood(stream, m, left, f);
    EndsNext(stream, m, left, f);
  }

  lemma TakeRepeat(stream: seq<bool>, m: Machine, left: nat, f: Machine)
    requires Ends(stream, m, left, f) && m.st.LensRepeat?
    ensures left > 0 && 16 <= m.st.code <= 18 && (m.st.code == 16 ==> m.st.got != [])
    ensures m.pos + ExtraBits(m.st.code) <= |stream|
    ensures var n := ExtraBits(m.st.code);
            Follows(stream, m, left, f,
                Machine(Lens(m.st.fin, m.st.ts, m.st.cl,
                m.st.got + Expansion(Item(m.st.code, Field(stream, m.pos, n)), m.st.got)), m.pos + n, m.out))
  {
    hide LsbValue, ReadBits, Ends, AllAtMost, Decodable, Expansion;
    EndsBits(stream, m, left, f);
    EndsGood(stream, m, left, f);
    EndsNext(stream, m, left, f);
  }

  lemma TakeSym(stream: seq<bool>, m: Machine, left: nat, f: Machine) returns (s: nat)
    requires Ends(stream, m, left, f) && m.st.Sym?
    ensures left > 0 && CodesOK(m.st.ls, m.st.ds)
    ensures Used(m.st.ls, s) && At(stream, m.pos, Codeword(m.st.ls, s)) && m.pos + m.st.ls[s] <= |stream| && s < 288
    ensures var st, p := m.st, m.pos + m.st.ls[s];
            && (s < 256 ==> Follows(stream, m, left, f, Machine(Emit(st.fin, st.ls, st.ds, s), p, m.out)))
            && (s == 256 ==> Follows(stream, m, left, f, Machine(EndBlock(st.fin), p, m.out)))
            && (s > 256 && RowLengthExtra(s - 257) == 0 ==>
                Follows(stream, m, left, f, Machine(Dist(st.fin, st.ls, st.ds, RowLength(s - 257)), p, m.out)))
            && (s > 256 && RowLengthExtra(s - 257) > 0 ==>
                Follows(stream, m, left, f, Machine(LenBits(st.fin, st.ls, st.ds, s - 257), p, m.out)))
  {
    hide ReadSym, Ends, Decodable, Codeword, RowLength, RowLengthExtra;
    EndsGood(stream, m, left, f);
    EndsNext(stream, m, left, f);
    SymStep(stream, m);
    s := EndsSymbol(stream, m, left, f);
    DecodableSmall(m.st.ls);
  }

  lemma DecodableSmall(sizes: seq<nat>)
    requires Decodable(sizes)
    ensures |sizes| <= 288 && Feasible(MAX_CODE_SIZE, sizes)
  {
  }

  lemma TakeEmit(stream: seq<bool>, m: Machine, left: nat, f: Machine)
    requires Ends(stream, m, left, f) && m.st.Emit?
    ensures left > 0 && Follows(stream, m, left, f, Machine(Sym(m.st.fin, m.st.ls, m.st.ds), m.pos, m.out + [m.st.b]))
  {
    hide Ends, Decodable;
    EndsGood(stream, m, left, f);
    EndsNext(stream, m, left, f);
  }

  lemma TakeLenBits(stream: seq<bool>, m: Machine, left: nat, f: Machine)
    requires Ends(stream, m, left, f) && m.st.LenBits?
    ensures left > 0 && m.st.row < 31 && m.pos + RowLengthExtra(m.st.row) <= |stream|
    ensures var n := RowLengthExtra(m.st.row);
            Follows(stream, m, left, f,
                Machine(Dist(m.st.fin, m.st.ls, m.st.ds, RowLength(m.st.row) + Field(stream, m.pos, n)), m.pos + n,
                m.out))
  {
    hide LsbValue, ReadBits, Ends, Decodable, RowLength, RowLengthExtra;
    EndsGood(stream, m, left, f);
    EndsBits(stream, m, left, f);
    LenBitsStep(stream, m);
    EndsNext(stream, m, left, f);
  }

  lemma TakeDist(stream: seq<bool>, m: Machine, left: nat, f: Machine) returns (s: nat)
    requires Ends(stream, m, left, f) && m.st.Dist?
    ensures left > 0 && CodesOK(m.st.ls, m.st.ds)
    ensures Used(m.st.ds, s) && At(stream, m.pos, Codeword(m.st.ds, s)) && m.pos + m.st.ds[s] <= |stream| && s < 32
    ensures var st, p := m.st, m.pos + m.st.ds[s];
            && (RowDistExtra(s) == 0 ==>
                Follows(stream, m, left, f,
                Machine(StartCopy(st.fin, st.ls, st.ds, st.len, RowDist(s), |m.out|), p, m.out)))
            && (RowDistExtra(s) > 0 ==>
                Follows(stream, m, left, f, Machine(DistBits(st.fin, st.ls, st.ds, st.len, s), p, m.out)))
  {
    hide ReadSym, Ends, Decodable, Codeword, RowDist, RowDistExtra, StartCopy;
    EndsGood(stream, m, left, f);
    EndsNext(stream, m, left, f);
    DistStep(stream, m);
    s := EndsSymbol(stream, m, left, f);
  }

  lemma TakeDistBits(stream: seq<bool>, m: Machine, left: nat, f: Machine)
    requires Ends(stream, m, left, f) && m.st.DistBits?
    ensures left > 0 && m.st.row < 32 && m.pos + RowDistExtra(m.st.row) <= |stream|
    ensures var n, st := RowDistExtra(m.st.row), m.st;
            Follows(stream, m, left, f,
                Machine(StartCopy(st.fin, st.ls, st.ds, st.len, RowDist(st.row) + Field(stream, m.pos, n), |m.out|),
                m.pos + n, m.out))
  {
    hide LsbValue, ReadBits, Ends, Decodable, RowDist, RowDistExtra, StartCopy;
    EndsGood(stream, m, left, f);
    EndsBits(stream, m, left, f);
    DistBitsStep(stream, m);
    EndsNext(stream, m, left, f);
  }

  // A run that ends well does not start a malformed copy.
  lemma CopyStarted(stream: seq<bool>, m: Machine, left: nat, f: Machine, fin: bool, ls: seq<nat>, ds: seq<nat>,
      len: nat, dist: nat)
    requires Ends(stream, m, left, f) && m.st == StartCopy(fin, ls, ds, len, dist, |m.out|)
    ensures dist > |m.out| <==> m.st.Failed?
    ensures dist <= |m.out| ==> 1 <= dist <= LZ_DICT_SIZE && m.st == Copy(fin, ls, ds, len, dist)
  {
    hide Decodable, Step;
    if m.st.Malformed? {
      FinalStays(stream, m, left, f);
    }
  }

  lemma TakeCopy(stream: seq<bool>, m: Machine, left: nat, f: Machine)
    requires Ends(stream, m, left, f) && m.st.Copy? && m.st.len > 0
    ensures left > 0 && 1 <= m.st.dist <= |m.out|
    ensures var st := m.st;
            Follows(stream, m, left, f, Machine(Copy(st.fin, st.ls, st.ds, st.len - 1, st.dist), m.pos,
                m.out + [m.out[|m.out| - st.dist]]))
  {
    hide Decodable, Ends;
    EndsGood(stream, m, left, f);
    EndsNext(stream, m, left, f);
  }

  lemma TakeCopyEnd(stream: seq<bool>, m: Machine, left: nat, f: Machine)
    requires Ends(stream, m, left, f) && m.st.Copy? && m.st.len == 0
    ensures left > 0 && Follows(stream, m, left, f, Machine(Sym(m.st.fin, m.st.ls, m.st.ds), m.pos, m.out))
  {
    hide Decodable, Ends;
    EndsGood(stream, m, left, f);
    EndsNext(stream, m, left, f);
  }

  // The output so far is a beginning of the final output.
  lemma SoFar(stream: seq<bool>, m: Machine, left: nat, f: Machine)
    requires Ends(stream, m, left, f)
    ensures m.out <= f.out
  {
    hide Step, Good, Forward;
    StepsGood(stream, m, left, f);
    ForwardGood(m, f);
  }

  // The state has an output byte to give before it goes on.
  predicate Owes(st: State) {
    st.RawOut? || st.Emit? || (st.RawBody? && st.left > 0) || (st.Copy? && st.len > 0)
  }

  // What is owed is still to come: the final output is longer than the output so far.
  lemma {:induction false} OwedAhead(stream: seq<bool>, m: Machine, left: nat, f: Machine)
    requires Ends(stream, m, left, f) && Owes(m.st)
    ensures |m.out| < |f.out|
    decreases left
  {
    hide Ends, Follows;
    var st, m' := m.st, m;
    if st.RawBody? {
      TakeRaw(stream, m, left, f);
      m' := Machine(RawOut(st.fin, st.left - 1, Field(stream, m.pos, 8) % 256), m.pos + 8, m.out);
      FollowsMeans(stream, m, left, f, m');
      OwedAhead(stream, m', left - 1, f);
    } else {
      if st.RawOut? {
        TakeRawOut(stream, m, left, f);
        m' := Machine(RawBody(st.fin, st.left), m.pos, m.out + [st.b]);
      } else if st.Emit? {
        TakeEmit(stream, m, left, f);
        m' := Machine(Sym(st.fin, st.ls, st.ds), m.pos, m.out + [st.b]);
      } else {
        TakeCopy(stream, m, left, f);
        m' := Machine(Copy(st.fin, st.ls, st.ds, st.len - 1, st.dist), m.pos, m.out + [m.out[|m.out| - st.dist]]);
      }
      FollowsMeans(stream, m, left, f, m');
      SoFar(stream, m', left - 1, f);
    }
  }
}
