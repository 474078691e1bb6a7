// When the inflate machine has to wait for input, and what a run to its end guarantees.
module InflateWait {
  import opened Bits
  import opened Canonical
  import opened FastTable
  import opened CodeSizeRle
  import opened Tokens
  import opened InflateMachine
  import opened InflateRun
  import opened BlockDecode

  // What a state reads next.
  datatype Want = Nothing | SomeBits(n: nat) | Symbol(sizes: seq<nat>)

  ghost function Wanted(st: State): Want {
    if st.BlockHead? || (st.ClSizes? && |st.ts| == 3 && |st.got| < st.ts[2]) then SomeBits(3)
    else if st.RawHead? || (st.RawBody? && st.left > 0) then SomeBits(8)
    else if st.TableSizes? then SomeBits(FieldBits(|st.ts|))
    else if st.Lens? && |st.ts| == 3 && |st.got| < st.ts[0] + st.ts[1] then Symbol(st.cl)
    else if st.LensRepeat? then SomeBits(ExtraBits(st.code))
    else if st.Sym? then Symbol(st.ls)
    else if st.LenBits? && st.row < 31 then SomeBits(RowLengthExtra(st.row))
    else if st.Dist? then Symbol(st.ds)
    else if st.DistBits? && st.row < 32 then SomeBits(RowDistExtra(st.row))
    else Nothing
  }

  lemma WantBits(bits: seq<bool>, m: Machine)
    requires Good(m) && Wanted(m.st).SomeBits?
    ensures Step(bits, m).Wait? <==> ReadBits(bits, m.pos, Wanted(m.st).n).Starved?
    ensures Step(bits, m).Next? ==> Step(bits, m).m.pos >= m.pos + Wanted(m.st).n
  {
    hide CodesOK, ReadBits, Decodable, RowLength, RowLengthExtra, RowDist, RowDistExtra, ReadSym, AfterRawHead,
         StaticLit, StaticDist, StartCopy, Expansion, AllAtMost;
    ReadForward(bits, m.pos, Wanted(m.st).n);
  }

  lemma WantSymbol(bits: seq<bool>, m: Machine)
    requires Good(m) && Wanted(m.st).Symbol?
    ensures Step(bits, m).Wait? <==> ReadSym(Wanted(m.st).sizes, bits, m.pos).Starved?
    ensures ReadSym(Wanted(m.st).sizes, bits, m.pos).Bad? ==> Step(bits, m).Next? && Step(bits, m).m.st.Malformed?
    ensures ReadSym(Wanted(m.st).sizes, bits, m.pos).Got? && Step(bits, m).Next? ==>
              Step(bits, m).m.pos == ReadSym(Wanted(m.st).sizes, bits, m.pos).pos
    ensures Decodable(Wanted(m.st).sizes)
  {
    hide Decodable, ReadBits, ReadSym, RowLength, RowLengthExtra, RowDist, RowDistExtra, StartCopy, AllAtMost;
  }

  lemma WantNothing(bits: seq<bool>, m: Machine)
    requires Good(m) && Wanted(m.st).Nothing?
    ensures !Step(bits, m).Wait?
  {
    hide CodesOK, ReadBits, Decodable, ReadSym, ClArray, AllAtMost;
  }

  // A state that waited with a prefix of the stream moves beyond that prefix.
  lemma WaitPast(prefix: seq<bool>, stream: seq<bool>, m: Machine)
    requires Good(m) && prefix <= stream && Step(prefix, m).Wait? && Step(stream, m).Next?
    requires !Step(stream, m).m.st.Malformed?
    ensures Step(stream, m).m.pos > |prefix|
  {
    hide Step, Good, Wanted;
    match Wanted(m.st)
    case Nothing => WantNothing(prefix, m);
    case SomeBits(n) =>
      WantBits(prefix, m);
      WantBits(stream, m);
    case Symbol(sizes) =>
      WantSymbol(prefix, m);
      WantSymbol(stream, m);
      SymbolPast(prefix, stream, sizes, m.pos);
  }

  lemma SymbolPast(prefix: seq<bool>, stream: seq<bool>, sizes: seq<nat>, pos: nat)
    requires prefix <= stream && ReadSym(sizes, prefix, pos).Starved? && ReadSym(sizes, stream, pos).Got?
    ensures ReadSym(sizes, stream, pos).pos > |prefix|
  {
    var s := CodeFound(sizes, stream, pos);
    if pos + sizes[s] <= |prefix| {
      assert Codeword(sizes, s) <= prefix[pos..];
      assert CodeAt(sizes, prefix, pos, s);
    }
  }

  // With too few bits for the symbol that comes, the machine waits.
  lemma SymbolStarved(prefix: seq<bool>, stream: seq<bool>, sizes: seq<nat>, pos: nat, s: nat)
    requires prefix <= stream && Feasible(MAX_CODE_SIZE, sizes) && Used(sizes, s) && At(stream, pos, Codeword(sizes, s))
    requires pos <= |prefix| < pos + sizes[s]
    ensures ReadSym(sizes, prefix, pos).Starved?
  {
    hide Feasible, Codeword;
    if SomeCodeAt(sizes, prefix, pos) {
      var t: nat :| CodeAt(sizes, prefix, pos, t);
      assert stream[pos..][..sizes[s]] == stream[pos..pos + sizes[s]];
      assert prefix[pos..] <= stream[pos..];
      UniqueDecoding(MAX_CODE_SIZE, sizes, s, t, stream[pos..]);
    }
    SizeAtMost(sizes, s);
  }

  lemma SizeAtMost(sizes: seq<nat>, s: nat)
    requires Feasible(MAX_CODE_SIZE, sizes) && Used(sizes, s)
    ensures sizes[s] <= MAX_CODE_SIZE
  {
  }

  // ---------------------------------------------------------------------------------
  // Runs to an end that is not malformed.

  ghost predicate Ends(stream: seq<bool>, m: Machine, left: nat, f: Machine)
  {
    Good(m) && StepsTo(stream, m, left, f) && (f.st.Done? || f.st.Failed?)
  }

  lemma EndsNext(stream: seq<bool>, m: Machine, left: nat, f: Machine)
    requires Ends(stream, m, left, f) && !m.st.Done? && !m.st.Failed?
    ensures left > 0 && Step(stream, m).Next? && Ends(stream, Step(stream, m).m, left - 1, f)
    ensures !m.st.Malformed? && !Step(stream, m).m.st.Malformed? && Forward(m, Step(stream, m).m)
  {
    hide Step, Good, Forward;
    if m.st.Malformed? {
      FinalStays(stream, m, left, f);
    }
    StepGood(stream, m);
    ForwardGood(m, Step(stream, m).m);
    if Step(stream, m).m.st.Malformed? {
      FinalStays(stream, Step(stream, m).m, left - 1, f);
    }
  }

  lemma ForwardGood(m: Machine, m': Machine)
    requires Forward(m, m')
    ensures Good(m') && m.pos <= m'.pos && m.out <= m'.out
  {
    hide Good;
  }

  // The bits a state wants are there.
  lemma EndsBits(stream: seq<bool>, m: Machine, left: nat, f: Machine)
    requires Ends(stream, m, left, f) && Wanted(m.st).SomeBits?
    ensures m.pos + Wanted(m.st).n <= |stream|
    ensures ReadBits(stream, m.pos, Wanted(m.st).n) ==
            Got(LsbValue(stream[m.pos..m.pos + Wanted(m.st).n]), m.pos + Wanted(m.st).n)
  {
    hide Step, Good, LsbValue;
    EndsNext(stream, m, left, f);
    WantBits(stream, m);
  }

  // And so is the code of the symbol it wants.
  lemma EndsSymbol(stream: seq<bool>, m: Machine, left: nat, f: Machine) returns (s: nat)
    requires Ends(stream, m, left, f) && Wanted(m.st).Symbol?
    ensures var sizes := Wanted(m.st).sizes;
            && Decodable(sizes) && Used(sizes, s) && m.pos + sizes[s] <= |stream| &&
              At(stream, m.pos, Codeword(sizes, s))
            && ReadSym(sizes, stream, m.pos) == Got(s, m.pos + sizes[s])
  {
    hide Step, Good, Decodable, Codeword;
    EndsNext(stream, m, left, f);
    WantSymbol(stream, m);
    var sizes := Wanted(m.st).sizes;
    s := CodeFound(sizes, stream, m.pos);
    assert stream[m.pos..m.pos + sizes[s]] == stream[m.pos..][..sizes[s]];
  }

  lemma EndsFinal(stream: seq<bool>, m: Machine, left: nat, f: Machine)
    requires Ends(stream, m, left, f) && (m.st.Done? || m.st.Failed?)
    ensures m == f
  {
    hide Step, Good;
    FinalStays(stream, m, left, f);
  }
}
