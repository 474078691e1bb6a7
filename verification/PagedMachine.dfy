// Running code that is laid out in pages: an operation takes as many lines as it has words, and where
// a page has no room for another one a branch leads on to the next page
// (kernel/wasm3/source/m3_emit.c:13-104; m3_exec.h:31-60; m3_exec.c:247-272).
module PagedMachine {
  import opened ThreadedMachine
  import opened MachineRuns

  // The operation and its immediates (kernel/wasm3/source/m3_compile.c:554-830, 1014-1257, 1525-1810).
  function Width(op: Op): (w: nat)
    ensures 1 <= w <= 4
  {
    match op
    case Do(straight) => StraightWidth(straight)
    case Jump(_) => 2
    case BranchIfR(_) => 2
    case BranchIfS(_, _) => 3
    case BranchIfRS(_, _) => 3
    case BranchIfSS(_, _, _) => 4
    case IfR(_) => 2
    case IfS(_, _) => 3
    case LoopOp => 1
    case ContinueLoop(_) => 2
    case ContinueLoopIf(_) => 2
    case Return => 1
  }

  function StraightWidth(op: Straight): (w: nat)
    ensures 1 <= w <= 4
  {
    match op
    case Const32(_, _) => 3
    case CopySlot(_, _) => 3
    case SetSlot(_) => 2
    case SetRegister(_) => 2
    case PreserveCopySlot(_, _, _) => 4
    case PreserveSetSlot(_, _) => 3
    case GetGlobal(_, _) => 3
    case SetGlobalR(_) => 2
    case SetGlobalS(_, _) => 3
    case UnaryR(_) => 1
    case UnaryS(_, _) => 2
    case BinaryRS(_, _) => 2
    case BinarySR(_, _) => 2
    case BinarySS(_, _, _) => 3
    case SelectRSS(_, _) => 3
    case SelectSRS(_, _) => 3
    case SelectSSR(_, _) => 3
    case SelectSSS(_, _, _) => 4
    case LoadR(_, _) => 2
    case LoadS(_, _, _) => 3
    case StoreRS(_, _, _) => 3
    case StoreSR(_, _, _) => 3
    case StoreSS(_, _, _, _) => 4
    case NoOperation => 1
  }

  function Beyond(pc: Pc, op: Op): Pc {
    pc.(line := pc.line + Width(op))
  }

  // Lines hold operations at their first words only.
  function PagedStep(lines: Memory, pc: Pc, s: State): Move {
    if pc in lines then Step(lines[pc], Beyond(pc, lines[pc]), s) else Leave(Lost)
  }

  function PagedExec(lines: Memory, pc: Pc, s: State, fuel: nat): Returned
    decreases fuel
  {
    if fuel == 0 then Unfinished
    else
      match PagedStep(lines, pc, s)
      case Go(pc1, s1) => PagedExec(lines, pc1, s1, fuel - 1)
      case Enter(id, s1) => PagedLoop(lines, id, s1, fuel - 1)
      case Leave(r) => r
  }

  function PagedLoop(lines: Memory, id: Pc, s: State, fuel: nat): Returned
    decreases fuel
  {
    if fuel == 0 then Unfinished
    else
      match PagedExec(lines, id, s, fuel - 1)
      case Again(id1, s1) => if id1 == id then PagedLoop(lines, id, s1.(r0 := 0), fuel - 1) else Again(id1, s1)
      case r => r
  }

  // ---------------------------------------------------------------------------------
  // Laying out.

  function Carry(t: Target, to: map<Pc, Pc>): Target {
    if t.To? && t.pc in to then To(to[t.pc]) else t
  }

  // The operation with the real addresses in place of those on the tape.
  function Relocate(op: Op, to: map<Pc, Pc>): (r: Op)
    ensures Width(r) == Width(op)
  {
    match op
    case Do(_) => op
    case Jump(t) => Jump(Carry(t, to))
    case BranchIfR(t) => BranchIfR(Carry(t, to))
    case BranchIfS(c, t) => BranchIfS(c, Carry(t, to))
    case BranchIfRS(v, t) => BranchIfRS(v, Carry(t, to))
    case BranchIfSS(c, v, t) => BranchIfSS(c, v, Carry(t, to))
    case IfR(t) => IfR(Carry(t, to))
    case IfS(c, t) => IfS(c, Carry(t, to))
    case LoopOp => op
    case ContinueLoop(id) => if id in to then ContinueLoop(to[id]) else op
    case ContinueLoopIf(id) => if id in to then ContinueLoopIf(to[id]) else op
    case Return => op
  }

  // The addresses an operation names.
  function Named(op: Op): set<Pc> {
    match op
    case Jump(To(pc)) => {pc}
    case BranchIfR(To(pc)) => {pc}
    case BranchIfS(_, To(pc)) => {pc}
    case BranchIfRS(_, To(pc)) => {pc}
    case BranchIfSS(_, _, To(pc)) => {pc}
    case IfR(To(pc)) => {pc}
    case IfS(_, To(pc)) => {pc}
    case ContinueLoop(id) => {id}
    case ContinueLoopIf(id) => {id}
    case _ => {}
  }

  // Running may go on at the line after the operation.
  predicate FallsThrough(op: Op) {
    !op.Jump? && !op.ContinueLoop? && !op.Return?
  }

  // Where the tape's operation at v is, if it is not at the address that leads there.
  predicate Leading(lines: Memory, from: Pc, place: Pc) {
    from == place || (from in lines && lines[from] == Jump(To(place)))
  }

  // The address of a loop is the line after its operation.
  predicate Head(code: Memory, id: Pc) {
    id.line > 0 && Pc(id.page, id.line - 1) in code && code[Pc(id.page, id.line - 1)] == LoopOp
  }

  predicate GoesAround(code: Memory, op: Op) {
    match op
    case ContinueLoop(id) => Head(code, id)
    case ContinueLoopIf(id) => Head(code, id)
    case _ => true
  }

  // `at` is where an operation of the tape is, `to` the address that other operations have for it, which
  // may be that of a bridge.
  predicate InPlace(code: Memory, lines: Memory, at: map<Pc, Pc>, to: map<Pc, Pc>) {
    forall v :: v in code ==>
      && v in at && at[v] in lines && lines[at[v]] == Relocate(code[v], to)
      && v in to && Leading(lines, to[v], at[v])
  }

  predicate GoesOn(code: Memory, at: map<Pc, Pc>, to: map<Pc, Pc>) {
    forall v :: v in code && FallsThrough(code[v]) ==>
      v in at && After(v) in to && to[After(v)] == Beyond(at[v], code[v])
  }

  predicate AllNamed(code: Memory, to: map<Pc, Pc>) {
    forall v, pc :: v in code && pc in Named(code[v]) ==> pc in to
  }

  predicate Apart(code: Memory, at: map<Pc, Pc>) {
    forall v, w :: v in code && w in code && v in at && w in at && at[v] == at[w] ==> v == w
  }

  predicate AllGoAround(code: Memory) {
    forall v :: v in code ==> GoesAround(code, code[v])
  }

  // The tape in pages.
  predicate LaidOut(code: Memory, lines: Memory, at: map<Pc, Pc>, to: map<Pc, Pc>) {
    InPlace(code, lines, at, to) && GoesOn(code, at, to) && AllNamed(code, to) && Apart(code, at) && AllGoAround(code)
  }

  // ---------------------------------------------------------------------------------
  // Running the pages is running the tape.

  // What the native call returns, with real addresses of loops.
  function Carried(r: Returned, to: map<Pc, Pc>): Returned {
    match r
    case Again(id, s) => Again(if id in to then to[id] else id, s)
    case _ => r
  }

  function CarriedMove(m: Move, to: map<Pc, Pc>): Move {
    match m
    case Go(pc, s) => Go(if pc in to then to[pc] else pc, s)
    case Enter(id, s) => Enter(if id in to then to[id] else id, s)
    case Leave(r) => Leave(Carried(r, to))
  }

  lemma StepCarried(code: Memory, lines: Memory, at: map<Pc, Pc>, to: map<Pc, Pc>, v: Pc, s: State)
    requires LaidOut(code, lines, at, to) && StepAt(code, v, s) != Leave(Lost)
    ensures v in code && v in at && PagedStep(lines, at[v], s) == CarriedMove(StepAt(code, v, s), to)
    ensures match StepAt(code, v, s)
            case Go(pc, _) => pc in to
            case Enter(id, _) => id in to && Head(code, id)
            case Leave(r) => r.Again? ==> r.loopId in to && Head(code, r.loopId)
  {
    var op := code[v];
    assert GoesAround(code, op);
    assert forall pc :: pc in Named(op) ==> pc in to;
    match op
    case Do(straight) =>
    case _ =>
  }

  function PagedRun(lines: Memory, from: Start, s: State, fuel: nat): Returned {
    match from
    case At(pc) => PagedExec(lines, pc, s, fuel)
    case Turn(id) => PagedLoop(lines, id, s, fuel)
  }

  ghost predicate PagedReturns(lines: Memory, from: Start, s: State, r: Returned) {
    r != Unfinished && exists fuel: nat :: PagedRun(lines, from, s, fuel) == r
  }

  lemma {:induction false} PagedMoreFuel(lines: Memory, from: Start, s: State, fuel: nat, more: nat)
    requires PagedRun(lines, from, s, fuel) != Unfinished && fuel <= more
    ensures PagedRun(lines, from, s, more) == PagedRun(lines, from, s, fuel)
    decreases fuel
  {
    match from
    case At(pc) =>
      match PagedStep(lines, pc, s) {
        case Go(pc1, s1) => PagedMoreFuel(lines, At(pc1), s1, fuel - 1, more - 1);
        case Enter(id, s1) => PagedMoreFuel(lines, Turn(id), s1, fuel - 1, more - 1);
        case Leave(_) =>
      }
    case Turn(id) =>
      PagedMoreFuel(lines, At(id), s, fuel - 1, more - 1);
      match PagedExec(lines, id, s, fuel - 1) {
        case Again(id1, s1) =>
          if id1 == id {
            PagedMoreFuel(lines, Turn(id), s1.(r0 := 0), fuel - 1, more - 1);
          }
        case _ =>
      }
  }

  lemma PagedOneResult(lines: Memory, from: Start, s: State, r: Returned, fuel: nat)
    requires PagedReturns(lines, from, s, r)
    ensures PagedRun(lines, from, s, fuel) == r || PagedRun(lines, from, s, fuel) == Unfinished
  {
    var f: nat :| PagedRun(lines, from, s, f) == r;
    if f <= fuel {
      PagedMoreFuel(lines, from, s, f, fuel);
    } else if PagedRun(lines, from, s, fuel) != Unfinished {
      PagedMoreFuel(lines, from, s, fuel, f);
    }
  }

  function Place(from: Start): Pc {
    match from
    case At(pc) => pc
    case Turn(id) => id
  }

  function CarriedStart(from: Start, to: map<Pc, Pc>): Start
    requires Place(from) in to
  {
    match from
    case At(pc) => At(to[pc])
    case Turn(id) => Turn(to[id])
  }

  predicate Begins(code: Memory, to: map<Pc, Pc>, from: Start) {
    Place(from) in to && (from.Turn? ==> Head(code, from.loopId))
  }

  // A bridge costs one step.
  lemma OverBridge(lines: Memory, from: Pc, place: Pc, s: State, r: Returned)
    requires Leading(lines, from, place) && PagedReturns(lines, At(place), s, r)
    ensures PagedReturns(lines, At(from), s, r)
  {
    if from != place {
      var f: nat :| PagedRun(lines, At(place), s, f) == r;
      assert PagedRun(lines, At(from), s, f + 1) == r;
    }
  }

  lemma OneStep(lines: Memory, pc: Pc, s: State, to: Start, s1: State, r: Returned)
    requires PagedStep(lines, pc, s) == match to case At(pc1) => Go(pc1, s1) case Turn(id) => Enter(id, s1)
    requires PagedReturns(lines, to, s1, r)
    ensures PagedReturns(lines, At(pc), s, r)
  {
    var f: nat :| PagedRun(lines, to, s1, f) == r;
    assert PagedRun(lines, At(pc), s, f + 1) == r;
  }

  lemma NextTurns(lines: Memory, id: Pc, s: State, s1: State, r: Returned)
    requires PagedReturns(lines, At(id), s, Again(id, s1)) && PagedReturns(lines, Turn(id), s1.(r0 := 0), r)
    ensures PagedReturns(lines, Turn(id), s, r)
  {
    var f: nat :| PagedRun(lines, At(id), s, f) == Again(id, s1);
    var g: nat :| PagedRun(lines, Turn(id), s1.(r0 := 0), g) == r;
    var h := if f < g then g else f;
    PagedMoreFuel(lines, At(id), s, f, h);
    PagedMoreFuel(lines, Turn(id), s1.(r0 := 0), g, h);
    assert PagedRun(lines, Turn(id), s, h + 1) == r;
  }

  lemma LastTurn(lines: Memory, id: Pc, s: State, r: Returned)
    requires PagedReturns(lines, At(id), s, r) && (r.Again? ==> r.loopId != id)
    ensures PagedReturns(lines, Turn(id), s, r)
  {
    var f: nat :| PagedRun(lines, At(id), s, f) == r;
    assert PagedRun(lines, Turn(id), s, f + 1) == r;
  }

  // Whatever the tape's run returns, the run of the pages returns.
  lemma {:induction false} PagesReturn(code: Memory, lines: Memory, at: map<Pc, Pc>, to: map<Pc, Pc>, from: Start,
                                       s: State, fuel: nat)
    requires LaidOut(code, lines, at, to) && Begins(code, to, from)
    requires Run(code, from, s, fuel) != Unfinished && Run(code, from, s, fuel) != Lost
    ensures var r := Run(code, from, s, fuel);
            && PagedReturns(lines, CarriedStart(from, to), s, Carried(r, to))
            && (r.Again? ==> r.loopId in to && Head(code, r.loopId))
    decreases fuel
  {
    hide LaidOut;
    match from
    case At(v) =>
      StepCarried(code, lines, at, to, v, s);
      LeadsThere(code, lines, at, to, v);
      var r := Run(code, from, s, fuel);
      match StepAt(code, v, s) {
        case Go(v1, s1) =>
          PagesReturn(code, lines, at, to, At(v1), s1, fuel - 1);
          OneStep(lines, at[v], s, At(to[v1]), s1, Carried(r, to));
        case Enter(id, s1) =>
          PagesReturn(code, lines, at, to, Turn(id), s1, fuel - 1);
          OneStep(lines, at[v], s, Turn(to[id]), s1, Carried(r, to));
        case Leave(_) =>
          assert PagedRun(lines, At(at[v]), s, 1) == Carried(r, to);
      }
      OverBridge(lines, to[v], at[v], s, Carried(r, to));
    case Turn(id) =>
      PagesReturn(code, lines, at, to, At(id), s, fuel - 1);
      var r := Exec(code, id, s, fuel - 1);
      if r.Again? && r.loopId == id {
        PagesReturn(code, lines, at, to, Turn(id), r.state.(r0 := 0), fuel - 1);
        NextTurns(lines, to[id], s, r.state, Carried(Run(code, from, s, fuel), to));
      } else {
        if r.Again? {
          HeadsApart(code, lines, at, to, r.loopId, id);
        }
        LastTurn(lines, to[id], s, Carried(r, to));
      }
  }

  lemma LeadsThere(code: Memory, lines: Memory, at: map<Pc, Pc>, to: map<Pc, Pc>, v: Pc)
    requires LaidOut(code, lines, at, to) && v in code
    ensures v in at && v in to && Leading(lines, to[v], at[v])
  {
  }

  lemma HeadsApart(code: Memory, lines: Memory, at: map<Pc, Pc>, to: map<Pc, Pc>, id: Pc, other: Pc)
    requires LaidOut(code, lines, at, to) && Head(code, id) && Head(code, other) && id != other
    ensures id in to && other in to && to[id] != to[other]
  {
    var v, w := Pc(id.page, id.line - 1), Pc(other.page, other.line - 1);
    assert After(v) == id && After(w) == other;
  }

  // As long as the tape's run is unfinished, so is the run of the pages.
  lemma {:induction false} PagesUnfinished(code: Memory, lines: Memory, at: map<Pc, Pc>, to: map<Pc, Pc>, from: Start,
                                           s: State, fuel: nat)
    requires LaidOut(code, lines, at, to) && Begins(code, to, from) && Run(code, from, s, fuel) == Unfinished
    ensures PagedRun(lines, CarriedStart(from, to), s, fuel) == Unfinished
    decreases fuel, 1
  {
    hide LaidOut, Relocate, StepAt;
    if fuel > 0 {
      match from
      case At(v) =>
        StepCarried(code, lines, at, to, v, s);
        LeadsThere(code, lines, at, to, v);
        PlaceUnfinished(code, lines, at, to, v, s, fuel);
        if to[v] != at[v] {
          Shorter(code, At(v), s, fuel, fuel - 1);
          if fuel > 1 {
            PlaceUnfinished(code, lines, at, to, v, s, fuel - 1);
          }
        }
      case Turn(id) =>
        var r := Exec(code, id, s, fuel - 1);
        if r == Unfinished {
          PagesUnfinished(code, lines, at, to, At(id), s, fuel - 1);
        } else {
          PagesReturn(code, lines, at, to, At(id), s, fuel - 1);
          PagedOneResult(lines, At(to[id]), s, Carried(r, to), fuel - 1);
          PagesUnfinished(code, lines, at, to, Turn(id), r.state.(r0 := 0), fuel - 1);
        }
    }
  }

  lemma PlaceUnfinished(code: Memory, lines: Memory, at: map<Pc, Pc>, to: map<Pc, Pc>, v: Pc, s: State, fuel: nat)
    requires LaidOut(code, lines, at, to) && v in to && Run(code, At(v), s, fuel) == Unfinished && fuel > 0
    ensures v in at && PagedRun(lines, At(at[v]), s, fuel) == Unfinished
    decreases fuel, 0
  {
    hide LaidOut, Relocate;
    StepCarried(code, lines, at, to, v, s);
    match StepAt(code, v, s)
    case Go(v1, s1) => PagesUnfinished(code, lines, at, to, At(v1), s1, fuel - 1);
    case Enter(id, s1) => PagesUnfinished(code, lines, at, to, Turn(id), s1, fuel - 1);
    case Leave(_) =>
  }
}
