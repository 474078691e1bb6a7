// Runs of the threaded machine, put together from the runs of consecutive pieces of code.
module MachineRuns {
  import opened ThreadedMachine

  // A run starts at a line, or with a turn of a loop.
  datatype Start = At(pc: Pc) | Turn(loopId: Pc)

  function Run(code: Memory, from: Start, s: State, fuel: nat): Returned {
    match from
    case At(pc) => Exec(code, pc, s, fuel)
    case Turn(id) => ExecLoop(code, id, s, fuel)
  }

  ghost predicate Returns(code: Memory, from: Start, s: State, r: Returned) {
    r != Unfinished && exists fuel: nat :: Run(code, from, s, fuel) == r
  }

  // Lines used on each page; the addresses from which no later code starts.
  predicate Old(used: seq<nat>, pc: Pc) {
    pc.page < |used| && pc.line <= used[pc.page]
  }

  predicate Grown(used: seq<nat>, later: seq<nat>) {
    |used| <= |later| && forall p :: 0 <= p < |used| ==> used[p] <= later[p]
  }

  predicate Outside(used: seq<nat>, r: Returned) {
    r.Again? ==> Old(used, r.loopId)
  }

  // The run from `from` is the run from `to` with something before it: it ends when that ends, with
  // the same result, unless that is a turn of a loop younger than `used`.
  ghost predicate Leads(code: Memory, used: seq<nat>, from: Start, s: State, to: Start, s1: State) {
    && (forall r :: Returns(code, to, s1, r) && Outside(used, r) ==> Returns(code, from, s, r))
    && (forall fuel: nat :: Run(code, to, s1, fuel) == Unfinished ==> Run(code, from, s, fuel) == Unfinished)
  }

  // ---------------------------------------------------------------------------------
  // Fuel.

  lemma {:induction false} MoreFuel(code: Memory, from: Start, s: State, fuel: nat, more: nat)
    requires Run(code, from, s, fuel) != Unfinished && fuel <= more
    ensures Run(code, from, s, more) == Run(code, from, s, fuel)
    decreases fuel
  {
    match from
    case At(pc) =>
      match StepAt(code, pc, s) {
        case Go(pc1, s1) => MoreFuel(code, At(pc1), s1, fuel - 1, more - 1);
        case Enter(id, s1) => MoreFuel(code, Turn(id), s1, fuel - 1, more - 1);
        case Leave(_) =>
      }
    case Turn(id) =>
      MoreFuel(code, At(id), s, fuel - 1, more - 1);
      match Exec(code, id, s, fuel - 1) {
        case Again(id1, s1) =>
          if id1 == id {
            MoreFuel(code, Turn(id), s1.(r0 := 0), fuel - 1, more - 1);
          }
        case _ =>
      }
  }

  // A run has one result.
  lemma OneResult(code: Memory, from: Start, s: State, r: Returned, fuel: nat)
    requires Returns(code, from, s, r)
    ensures Run(code, from, s, fuel) == r || Run(code, from, s, fuel) == Unfinished
  {
    var f: nat :| Run(code, from, s, f) == r;
    if f <= fuel {
      MoreFuel(code, from, s, f, fuel);
    } else if Run(code, from, s, fuel) != Unfinished {
      MoreFuel(code, from, s, fuel, f);
    }
  }

  lemma ReturnsOnce(code: Memory, from: Start, s: State, r: Returned, r1: Returned)
    requires Returns(code, from, s, r) && Returns(code, from, s, r1)
    ensures r == r1
  {
    var f: nat :| Run(code, from, s, f) == r1;
    OneResult(code, from, s, r, f);
  }

  lemma Shorter(code: Memory, from: Start, s: State, fuel: nat, less: nat)
    requires Run(code, from, s, fuel) == Unfinished && less <= fuel
    ensures Run(code, from, s, less) == Unfinished
  {
    if Run(code, from, s, less) != Unfinished {
      MoreFuel(code, from, s, less, fuel);
    }
  }

  // ---------------------------------------------------------------------------------
  // Steps.

  lemma Stays(code: Memory, used: seq<nat>, from: Start, s: State)
    ensures Leads(code, used, from, s, from, s)
  {
  }

  lemma Goes(code: Memory, used: seq<nat>, pc: Pc, s: State, pc1: Pc, s1: State)
    requires StepAt(code, pc, s) == Go(pc1, s1)
    ensures Leads(code, used, At(pc), s, At(pc1), s1)
  {
    forall r | Returns(code, At(pc1), s1, r) ensures Returns(code, At(pc), s, r) {
      var f: nat :| Run(code, At(pc1), s1, f) == r;
      assert Run(code, At(pc), s, f + 1) == r;
    }
    forall fuel: nat | Run(code, At(pc1), s1, fuel) == Unfinished ensures Run(code, At(pc), s, fuel) == Unfinished {
      if fuel > 0 {
        Shorter(code, At(pc1), s1, fuel, fuel - 1);
      }
    }
  }

  lemma Leaves(code: Memory, pc: Pc, s: State, r: Returned)
    requires StepAt(code, pc, s) == Leave(r) && r != Unfinished
    ensures Returns(code, At(pc), s, r)
  {
    assert Run(code, At(pc), s, 1) == r;
  }

  // Entering a loop.
  lemma Enters(code: Memory, used: seq<nat>, pc: Pc, s: State)
    requires pc in code && code[pc] == LoopOp
    ensures Leads(code, used, At(pc), s, Turn(After(pc)), s.(r0 := 0))
  {
    var id, s1 := After(pc), s.(r0 := 0);
    forall r | Returns(code, Turn(id), s1, r) ensures Returns(code, At(pc), s, r) {
      var f: nat :| Run(code, Turn(id), s1, f) == r;
      assert Run(code, At(pc), s, f + 1) == r;
    }
    forall fuel: nat | Run(code, Turn(id), s1, fuel) == Unfinished ensures Run(code, At(pc), s, fuel) == Unfinished {
      if fuel > 0 {
        Shorter(code, Turn(id), s1, fuel, fuel - 1);
      }
    }
  }

  // A turn returns what its run returns, unless that asks for another turn.  What follows the loop
  // runs inside its last turn.
  lemma OneTurn(code: Memory, used: seq<nat>, id: Pc, s: State)
    requires !Old(used, id)
    ensures Leads(code, used, Turn(id), s, At(id), s)
  {
    forall r | Returns(code, At(id), s, r) && Outside(used, r) ensures Returns(code, Turn(id), s, r) {
      var f: nat :| Run(code, At(id), s, f) == r;
      assert Run(code, Turn(id), s, f + 1) == r;
    }
    forall fuel: nat | Run(code, At(id), s, fuel) == Unfinished ensures Run(code, Turn(id), s, fuel) == Unfinished {
      if fuel > 0 {
        Shorter(code, At(id), s, fuel, fuel - 1);
      }
    }
  }

  lemma NextTurnStarves(code: Memory, id: Pc, s: State, s1: State, fuel: nat)
    requires Returns(code, At(id), s, Again(id, s1)) && Run(code, Turn(id), s1.(r0 := 0), fuel) == Unfinished
    ensures Run(code, Turn(id), s, fuel + 1) == Unfinished
  {
    OneResult(code, At(id), s, Again(id, s1), fuel);
  }

  // A turn whose run asks for another one.
  lemma NextTurn(code: Memory, used: seq<nat>, id: Pc, s: State, s1: State)
    requires Returns(code, At(id), s, Again(id, s1))
    ensures Leads(code, used, Turn(id), s, Turn(id), s1.(r0 := 0))
  {
    forall r | Returns(code, Turn(id), s1.(r0 := 0), r) ensures Returns(code, Turn(id), s, r) {
      var f: nat :| Run(code, At(id), s, f) == Again(id, s1);
      var g: nat :| Run(code, Turn(id), s1.(r0 := 0), g) == r;
      var h: nat := if f < g then g else f;
      MoreFuel(code, At(id), s, f, h);
      MoreFuel(code, Turn(id), s1.(r0 := 0), g, h);
      assert Run(code, Turn(id), s, h + 1) == r;
    }
    forall fuel: nat | Run(code, Turn(id), s1.(r0 := 0), fuel) == Unfinished ensures Run(code, Turn(id), s, fuel) ==
        Unfinished {
      NextTurnStarves(code, id, s, s1, fuel);
      Shorter(code, Turn(id), s, fuel + 1, fuel);
    }
  }

  lemma LeadsOn(code: Memory, used: seq<nat>, later: seq<nat>, from: Start, s: State, mid: Start, s1: State, to: Start,
      s2: State)
    requires Leads(code, used, from, s, mid, s1) && Leads(code, later, mid, s1, to, s2) && Grown(used, later)
    ensures Leads(code, used, from, s, to, s2)
  {
    forall r | Returns(code, to, s2, r) && Outside(used, r) ensures Returns(code, from, s, r) {
      assert Outside(later, r);
      assert Returns(code, mid, s1, r);
    }
    forall fuel: nat | Run(code, to, s2, fuel) == Unfinished ensures Run(code, from, s, fuel) == Unfinished {
      assert Run(code, mid, s1, fuel) == Unfinished;
    }
  }

  // ---------------------------------------------------------------------------------
  // Stretches of straight operations.

  // The lines from pc on do the operations ops.
  predicate Holds(code: Memory, pc: Pc, ops: seq<Straight>)
    decreases |ops|
  {
    ops == [] || (pc in code && code[pc] == Do(ops[0]) && Holds(code, After(pc), ops[1..]))
  }

  function Skip(pc: Pc, n: nat): Pc {
    pc.(line := pc.line + n)
  }

  lemma {:induction false} PerformLeads(code: Memory, used: seq<nat>, pc: Pc, ops: seq<Straight>, s: State)
    requires Holds(code, pc, ops)
    ensures match PerformAll(ops, s)
            case Next(s1) => Leads(code, used, At(pc), s, At(Skip(pc, |ops|)), s1)
            case Fault(t, s1) => Returns(code, At(pc), s, Died(t, s1))
            case Broken => true
    decreases |ops|
  {
    if ops == [] {
      Stays(code, used, At(pc), s);
    } else {
      match Perform(ops[0], s)
      case Next(s1) =>
        Goes(code, used, pc, s, After(pc), s1);
        PerformLeads(code, used, After(pc), ops[1..], s1);
        match PerformAll(ops[1..], s1) {
          case Next(s2) => LeadsOn(code, used, used, At(pc), s, At(After(pc)), s1, At(Skip(pc, |ops|)), s2);
          case Fault(t, s2) =>
          case Broken =>
        }
      case Fault(t, s1) => Leaves(code, pc, s, Died(t, s1));
      case Broken =>
    }
  }
}
