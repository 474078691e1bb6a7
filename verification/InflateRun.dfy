// Runs of the inflate machine: its invariant, determinism, and what more input changes.
module InflateRun {
  import opened Arith
  import opened Bits
  import opened Canonical
  import opened FastTable
  import opened CodeSizeRle
  import opened Tokens
  import opened InflateMachine

  // ---------------------------------------------------------------------------------
  // The fixed codes are complete.

  lemma {:induction false} StaticLitBelow(k: nat)
    requires k <= 288
    ensures Bounded(MAX_CODE_SIZE, StaticLit())
    ensures Below(MAX_CODE_SIZE, StaticLit(), 16, k) ==
            if k <= 144 then k * 128 else if k <= 256 then 144 * 128 + (k - 144) * 64
            else if k <= 280 then 144 * 128 + 112 * 64 + (k - 256) * 256
            else 144 * 128 + 112 * 64 + 24 * 256 + (k - 280) * 128
  {
    SmallPowers();
    if k > 0 {
      StaticLitBelow(k - 1);
      assert StaticLit()[k - 1] == StaticLitSize(k - 1);
    }
  }

  lemma {:induction false} StaticDistBelow(k: nat)
    requires k <= 32
    ensures Bounded(MAX_CODE_SIZE, StaticDist())
    ensures Below(MAX_CODE_SIZE, StaticDist(), 16, k) == k * 1024
  {
    SmallPowers();
    if k > 0 {
      StaticDistBelow(k - 1);
      assert StaticDist()[k - 1] == 5;
    }
  }

  lemma StaticCodes()
    ensures Complete(MAX_CODE_SIZE, StaticLit()) && Complete(MAX_CODE_SIZE, StaticDist())
    ensures CodesOK(StaticLit(), StaticDist())
  {
    hide Below, StaticLit, StaticDist;
    StaticLitBelow(288);
    StaticDistBelow(32);
    assert Pow2(15) == 32768 by {
      Pow2Add(13, 2);
      SmallPowers();
    }
    assert Complete(MAX_CODE_SIZE, StaticLit()) && Complete(MAX_CODE_SIZE, StaticDist());
  }

  // ---------------------------------------------------------------------------------
  // Every step keeps the machine well formed, moves forward and only appends output.

  lemma ReadRange(bits: seq<bool>, pos: nat, n: nat)
    ensures ReadBits(bits, pos, n).Got? ==> ReadBits(bits, pos, n).value < Pow2(n)
  {
    if pos + n <= |bits| {
      LsbBitsOfValue(bits[pos..pos + n]);
    }
  }

  lemma SymRange(sizes: seq<nat>, bits: seq<bool>, pos: nat)
    ensures var r := ReadSym(sizes, bits, pos);
            r.Got? ==> r.value < |sizes| && r.pos == pos + sizes[r.value] && r.pos <= |bits|
  {
  }

  ghost predicate Forward(m: Machine, m': Machine)
  {
    Good(m') && m.pos <= m'.pos && m.out <= m'.out
  }

  lemma RawGood(bits: seq<bool>, m: Machine)
    requires Good(m) && (m.st.RawHead? || m.st.RawBody? || m.st.RawOut?)
    ensures RawStep(bits, m).Next? ==> Forward(m, RawStep(bits, m).m)
  {
    hide ReadBits;
    ReadForward(bits, m.pos, 8);
  }

  lemma ReadForward(bits: seq<bool>, pos: nat, n: nat)
    ensures ReadBits(bits, pos, n).Got? ==> ReadBits(bits, pos, n).pos == pos + n
    ensures !ReadBits(bits, pos, n).Bad?
  {
  }

  lemma TableGood(bits: seq<bool>, m: Machine)
    requires Good(m) && (m.st.TableSizes? || m.st.ClSizes? || m.st.Lens? || m.st.LensRepeat?)
    ensures TableStep(bits, m).Next? ==> Forward(m, TableStep(bits, m).m)
  {
    hide ReadBits, ReadSym, Decodable, ClArray;
    SmallPowers();
    if m.st.TableSizes? {
      ReadForward(bits, m.pos, FieldBits(|m.st.ts|));
      ReadRange(bits, m.pos, FieldBits(|m.st.ts|));
    } else if m.st.ClSizes? {
      ReadForward(bits, m.pos, 3);
      ReadRange(bits, m.pos, 3);
    } else if m.st.Lens? {
      SymRange(m.st.cl, bits, m.pos);
    } else {
      ReadForward(bits, m.pos, ExtraBits(m.st.code));
      ReadRange(bits, m.pos, ExtraBits(m.st.code));
    }
  }

  lemma DataGood(bits: seq<bool>, m: Machine)
    requires Good(m) && (m.st.Sym? || m.st.Emit? || m.st.LenBits? || m.st.Dist? || m.st.DistBits? || m.st.Copy?)
    ensures DataStep(bits, m).Next? ==> Forward(m, DataStep(bits, m).m)
  {
    hide ReadBits, ReadSym, Decodable, RowDist, RowDistExtra, RowLength, RowLengthExtra, Pow2;
    if m.st.Sym? {
      SymRange(m.st.ls, bits, m.pos);
    } else if m.st.LenBits? {
      ReadForward(bits, m.pos, RowLengthExtra(m.st.row));
    } else if m.st.Dist? {
      SymRange(m.st.ds, bits, m.pos);
      ShortDistances();
    } else if m.st.DistBits? {
      ReadForward(bits, m.pos, RowDistExtra(m.st.row));
      ReadRange(bits, m.pos, RowDistExtra(m.st.row));
      FarthestDistance(m.st.row);
    }
  }

  // No row of the table reaches beyond the dictionary.
  lemma FarthestDistance(row: nat)
    requires row < 32
    ensures RowDist(row) + Pow2(RowDistExtra(row)) <= LZ_DICT_SIZE + 1
  {
    hide Pow2;
    SmallPowers();
    if row < 30 {
      DistRow(row);
    }
  }

  lemma ShortDistances()
    ensures forall row: nat :: row < 32 ==> RowDist(row) <= LZ_DICT_SIZE
  {
    forall row: nat | row < 32
      ensures RowDist(row) <= LZ_DICT_SIZE
    {
      FarthestDistance(row);
    }
  }

  lemma StepGood(bits: seq<bool>, m: Machine)
    requires Good(m)
    ensures Step(bits, m).Next? ==> Forward(m, Step(bits, m).m)
  {
    hide RawStep, TableStep, DataStep, Forward, ReadBits, CodesOK;
    if m.st.BlockHead? {
      ReadForward(bits, m.pos, 3);
      StaticCodes();
      HeadGood(m, ReadBits(bits, m.pos, 3));
    } else if m.st.RawHead? || m.st.RawBody? || m.st.RawOut? {
      RawGood(bits, m);
    } else if m.st.TableSizes? || m.st.ClSizes? || m.st.Lens? || m.st.LensRepeat? {
      TableGood(bits, m);
    } else if !(m.st.Done? || m.st.Failed? || m.st.Malformed?) {
      DataGood(bits, m);
    }
  }

  lemma HeadGood(m: Machine, r: Read)
    requires CodesOK(StaticLit(), StaticDist()) && (r.Got? ==> r.pos >= m.pos)
    ensures AfterHead(m, r).Next? ==> Forward(m, AfterHead(m, r).m)
  {
    hide CodesOK;
  }

  // ---------------------------------------------------------------------------------
  // Runs.

  ghost predicate StepsTo(bits: seq<bool>, m: Machine, k: nat, m': Machine)
    decreases k
  {
    if k == 0 then m == m'
    else Good(m) && Step(bits, m).Next? && StepsTo(bits, Step(bits, m).m, k - 1, m')
  }

  ghost predicate Reaches(bits: seq<bool>, m: Machine, m': Machine)
  {
    exists k: nat :: StepsTo(bits, m, k, m')
  }

  lemma ReachesSelf(bits: seq<bool>, m: Machine)
    ensures Reaches(bits, m, m)
  {
    assert StepsTo(bits, m, 0, m);
  }

  lemma ReachesStep(bits: seq<bool>, m: Machine)
    requires Good(m) && Step(bits, m).Next?
    ensures Reaches(bits, m, Step(bits, m).m) && Forward(m, Step(bits, m).m)
  {
    hide Step;
    StepGood(bits, m);
    var n := Step(bits, m).m;
    assert StepsTo(bits, n, 0, n);
    assert StepsTo(bits, m, 1, n);
  }

  lemma {:induction false} StepsTrans(bits: seq<bool>, a: Machine, i: nat, b: Machine, j: nat, c: Machine)
    requires StepsTo(bits, a, i, b) && StepsTo(bits, b, j, c)
    ensures StepsTo(bits, a, i + j, c)
    decreases i
  {
    hide Step, Good;
    if i > 0 {
      StepsTrans(bits, Step(bits, a).m, i - 1, b, j, c);
    }
  }

  lemma ReachesTrans(bits: seq<bool>, a: Machine, b: Machine, c: Machine)
    requires Reaches(bits, a, b) && Reaches(bits, b, c)
    ensures Reaches(bits, a, c)
  {
    var i: nat :| StepsTo(bits, a, i, b);
    var j: nat :| StepsTo(bits, b, j, c);
    StepsTrans(bits, a, i, b, j, c);
  }

  lemma {:induction false} StepsGood(bits: seq<bool>, m: Machine, k: nat, m': Machine)
    requires StepsTo(bits, m, k, m') && Good(m)
    ensures Forward(m, m')
    decreases k
  {
    hide Step, Good;
    if k > 0 {
      StepGood(bits, m);
      StepsGood(bits, Step(bits, m).m, k - 1, m');
    }
  }

  ghost predicate Final(m: Machine)
  {
    m.st.Done? || m.st.Failed? || m.st.Malformed?
  }

  lemma FinalStays(bits: seq<bool>, m: Machine, k: nat, m': Machine)
    requires Final(m) && StepsTo(bits, m, k, m')
    ensures k == 0
  {
  }

  // The machine is deterministic: any two runs from one state meet at the final state.
  lemma {:induction false} StepsMeet(bits: seq<bool>, m: Machine, i: nat, a: Machine, j: nat, f: Machine)
    requires StepsTo(bits, m, i, a) && StepsTo(bits, m, j, f) && Final(f)
    ensures i <= j && StepsTo(bits, a, j - i, f)
    decreases i
  {
    hide Step, Good, Final;
    if j == 0 {
      FinalStays(bits, m, i, a);
    }
    if i > 0 {
      StepsMeet(bits, Step(bits, m).m, i - 1, a, j - 1, f);
    }
  }

  lemma ReachesMeet(bits: seq<bool>, m: Machine, a: Machine, f: Machine)
    requires Reaches(bits, m, a) && Reaches(bits, m, f) && Final(f)
    ensures Reaches(bits, a, f)
  {
    var i: nat :| StepsTo(bits, m, i, a);
    var j: nat :| StepsTo(bits, m, j, f);
    StepsMeet(bits, m, i, a, j, f);
  }

  // Two runs to a final state end in the same state.
  lemma FinalUnique(bits: seq<bool>, m: Machine, f: Machine, g: Machine)
    requires Reaches(bits, m, f) && Reaches(bits, m, g) && Final(f) && Final(g)
    ensures f == g
  {
    ReachesMeet(bits, m, g, f);
    var k: nat :| StepsTo(bits, g, k, f);
    FinalStays(bits, g, k, f);
  }
}
