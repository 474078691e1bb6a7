// What the compiler emits, step by step: operations, pointers filled in later, and tapes for the other
// branches of ifs (kernel/wasm3/source/m3_compile.c:683-735, 1574-1598; m3_emit.c:40-104).
module EmissionLog {
  import opened Wrappers
  import opened ThreadedMachine
  import opened SlotAllocator
  import opened ControlCompile
  import opened PagedMachine

  datatype Emitted =
    | Written(op: Op)
    | FilledIn(place: Pc, target: Pc)
    | NewTape
    | BackTo(tape: nat)

  // The tapes so far, the one that is emitted to, and those that are gone back to after it.
  datatype Tapes = Tapes(code: Memory, used: seq<nat>, tape: nat, saved: seq<nat>)

  // A line that has been emitted, or the next one.
  predicate Within(used: seq<nat>, pc: Pc) {
    pc.page < |used| && pc.line <= used[pc.page]
  }

  predicate Writable(code: Memory, used: seq<nat>, op: Op) {
    (forall pc :: pc in Named(op) ==> Within(used, pc)) && GoesAround(code, op)
  }

  predicate Can(t: Tapes, e: Emitted) {
    match e
    case Written(op) => t.tape < |t.used| && Writable(t.code, t.used, op)
    case FilledIn(place, target) => place in t.code && HasTarget(t.code[place]) && Within(t.used, target)
    case NewTape => true
    case BackTo(k) => |t.saved| > 0 && t.saved[|t.saved| - 1] == k
  }

  function Taken(t: Tapes, e: Emitted): Tapes
    requires Can(t, e)
  {
    match e
    case Written(op) =>
      t.(code := t.code[Pc(t.tape, t.used[t.tape]) := op], used := t.used[t.tape := t.used[t.tape] + 1])
    case FilledIn(place, target) => t.(code := Patch(t.code, place, target))
    case NewTape => t.(used := t.used + [0], tape := |t.used|, saved := t.saved + [t.tape])
    case BackTo(k) => t.(tape := k, saved := t.saved[..|t.saved| - 1])
  }

  const BEGINNING := Tapes(map[], [0], 0, [])

  // What the steps have made, if each of them was possible.
  function TapesOf(log: seq<Emitted>): Option<Tapes> {
    if log == [] then Some(BEGINNING)
    else
      var t :- TapesOf(log[..|log| - 1]);
      if Can(t, log[|log| - 1]) then Some(Taken(t, log[|log| - 1])) else None
  }

  lemma TapesNext(log: seq<Emitted>, e: Emitted)
    requires TapesOf(log).Some? && Can(TapesOf(log).value, e)
    ensures TapesOf(log + [e]) == Some(Taken(TapesOf(log).value, e))
  {
    assert (log + [e])[..|log|] == log;
  }

  // A beginning of what was possible was possible.
  lemma {:induction false} TapesBefore(log: seq<Emitted>, i: nat)
    requires TapesOf(log).Some? && i < |log|
    ensures TapesOf(log[..i]).Some? && TapesOf(log[..i + 1]).Some? && Can(TapesOf(log[..i]).value, log[i])
    ensures TapesOf(log[..i + 1]) == Some(Taken(TapesOf(log[..i]).value, log[i]))
    decreases |log|
  {
    if i < |log| - 1 {
      TapesBefore(log[..|log| - 1], i);
      assert log[..|log| - 1][..i] == log[..i] && log[..|log| - 1][..i + 1] == log[..i + 1];
    } else {
      assert log[..i + 1] == log;
    }
  }

  // ---------------------------------------------------------------------------------
  // What makes every step of the compiler possible.

  // What is still to be done: the tapes to go back to, and the pointers of ifs to be filled in.
  datatype Duties = Duties(saved: seq<nat>, reserved: set<Pc>)

  predicate Pointer(code: Memory, loc: Pc) {
    loc in code && HasTarget(code[loc])
  }

  // A block begins at a line emitted or the next one, a loop after its operation, and branches to the end
  // of a block have pointers.
  predicate ScopeLinked(code: Memory, used: seq<nat>, s: Scope) {
    && Within(used, s.pc) && (s.opcode == LoopBody ==> Head(code, s.pc))
    && forall loc :: loc in s.patches ==> Pointer(code, loc)
  }

  predicate Linked(code: Memory, used: seq<nat>, scopes: seq<Scope>, reserved: set<Pc>) {
    && (forall pc :: pc in code ==> pc.page < |used| && pc.line < used[pc.page])
    && (forall j :: 0 <= j < |scopes| ==> ScopeLinked(code, used, scopes[j]))
    && forall loc :: loc in reserved ==> Pointer(code, loc)
  }

  lemma ScopeLater(code: Memory, used: seq<nat>, s: Scope, code': Memory, used': seq<nat>)
    requires ScopeLinked(code, used, s)
    requires forall loc :: loc in code ==> loc in code' && (code[loc] == LoopOp ==> code'[loc] == LoopOp)
    requires forall loc :: loc in code && HasTarget(code[loc]) ==> HasTarget(code'[loc])
    requires forall pc :: Within(used, pc) ==> Within(used', pc)
    ensures ScopeLinked(code', used', s)
  {
    hide HasTarget, Within;
  }

  lemma LinkedWritten(code: Memory, used: seq<nat>, scopes: seq<Scope>, reserved: set<Pc>, page: nat, op: Op)
    requires Linked(code, used, scopes, reserved) && page < |used|
    ensures Linked(code[Pc(page, used[page]) := op], used[page := used[page] + 1], scopes, reserved)
  {
    hide HasTarget, ScopeLinked;
    var code', used' := code[Pc(page, used[page]) := op], used[page := used[page] + 1];
    forall j | 0 <= j < |scopes| ensures ScopeLinked(code', used', scopes[j]) {
      ScopeLater(code, used, scopes[j], code', used');
    }
  }

  lemma LinkedFilled(code: Memory, used: seq<nat>, scopes: seq<Scope>, reserved: set<Pc>, loc: Pc, target: Pc)
    requires Linked(code, used, scopes, reserved) && Pointer(code, loc)
    ensures Linked(Patch(code, loc, target), used, scopes, reserved) && HasTarget(Patch(code, loc, target)[loc])
    ensures forall l :: Pointer(code, l) ==> Pointer(Patch(code, loc, target), l)
  {
    hide ScopeLinked;
    forall j | 0 <= j < |scopes| ensures ScopeLinked(Patch(code, loc, target), used, scopes[j]) {
      ScopeLater(code, used, scopes[j], Patch(code, loc, target), used);
    }
  }

  lemma LinkedTape(code: Memory, used: seq<nat>, scopes: seq<Scope>, reserved: set<Pc>)
    requires Linked(code, used, scopes, reserved)
    ensures Linked(code, used + [0], scopes, reserved)
  {
    hide HasTarget, ScopeLinked;
    forall j | 0 <= j < |scopes| ensures ScopeLinked(code, used + [0], scopes[j]) {
      ScopeLater(code, used, scopes[j], code, used + [0]);
    }
  }

  lemma LinkedScope(code: Memory, used: seq<nat>, scopes: seq<Scope>, reserved: set<Pc>, j: nat)
    requires Linked(code, used, scopes, reserved) && j < |scopes|
    ensures ScopeLinked(code, used, scopes[j])
  {
  }

  lemma LinkedChanged(code: Memory, used: seq<nat>, scopes: seq<Scope>, reserved: set<Pc>, j: nat, s: Scope)
    requires Linked(code, used, scopes, reserved) && j < |scopes| && ScopeLinked(code, used, s)
    ensures Linked(code, used, scopes[j := s], reserved)
  {
    hide ScopeLinked, HasTarget;
  }

  lemma LinkedBegun(code: Memory, used: seq<nat>, s: Scope, reserved: set<Pc>, init: nat)
    requires Linked(code, used, [s], reserved)
    ensures Linked(code, used, [s.(init := init)], reserved)
  {
    hide HasTarget;
    var scopes := [s];
    assert ScopeLinked(code, used, scopes[0]);
  }

  lemma LinkedForward(code: Memory, used: seq<nat>, scopes: seq<Scope>, reserved: set<Pc>, j: nat, loc: Pc)
    requires Linked(code, used, scopes, reserved) && j < |scopes| && Pointer(code, loc)
    ensures Linked(code, used, scopes[j := scopes[j].(patches := [loc] + scopes[j].patches)], reserved)
  {
    hide HasTarget, Linked;
    LinkedScope(code, used, scopes, reserved, j);
    LinkedChanged(code, used, scopes, reserved, j, scopes[j].(patches := [loc] + scopes[j].patches));
  }

  // A pointer to be filled in later may always be emitted.
  lemma ForwardWritable(code: Memory, used: seq<nat>, op: Op)
    requires HasTarget(op) && Named(op) == {}
    ensures Writable(code, used, op)
  {
  }

  lemma LinkedEntered(code: Memory, used: seq<nat>, scopes: seq<Scope>, reserved: set<Pc>, s: Scope)
    requires Linked(code, used, scopes, reserved) && ScopeLinked(code, used, s)
    ensures Linked(code, used, [s] + scopes, reserved)
  {
    hide ScopeLinked, HasTarget;
  }

  lemma LinkedLeft(code: Memory, used: seq<nat>, scopes: seq<Scope>, reserved: set<Pc>)
    requires Linked(code, used, scopes, reserved) && |scopes| > 0
    ensures Linked(code, used, scopes[1..], reserved)
  {
    hide ScopeLinked, HasTarget;
  }

  lemma LinkedReserved(code: Memory, used: seq<nat>, scopes: seq<Scope>, reserved: set<Pc>, loc: Pc)
    requires Linked(code, used, scopes, reserved) && Pointer(code, loc)
    ensures Linked(code, used, scopes, reserved + {loc})
  {
    hide ScopeLinked, HasTarget;
  }

  lemma LinkedSettled(code: Memory, used: seq<nat>, scopes: seq<Scope>, reserved: set<Pc>, loc: Pc)
    requires Linked(code, used, scopes, reserved + {loc})
    ensures Linked(code, used, scopes, reserved) && Pointer(code, loc)
  {
    hide ScopeLinked, HasTarget;
  }
}
