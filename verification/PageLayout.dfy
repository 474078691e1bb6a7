// How a tape of operations is laid out in pages while it is emitted: each step keeps what running the
// pages relies on (kernel/wasm3/source/m3_emit.c:13-104; m3_compile.c:683-735, 1574-1598).
module PageLayout {
  import opened ThreadedMachine
  import opened ControlCompile
  import opened PagedMachine

  // The tapes, of which the branches of an if have one each, and how far they go; the lines of the
  // pages; where operations are and what their addresses are; the pages that the tapes go on on; and
  // how far the pages are used.
  datatype Layout = Layout(code: Memory, used: seq<nat>, lines: Memory, at: map<Pc, Pc>, to: map<Pc, Pc>,
                           ends: map<nat, nat>, marks: seq<nat>)

  // The next line of a tape, and of a page.
  function End(y: Layout, k: nat): Pc
    requires k < |y.used|
  {
    Pc(k, y.used[k])
  }

  function Mark(y: Layout, p: nat): Pc
    requires p < |y.marks|
  {
    Pc(p, y.marks[p])
  }

  predicate CodeBelow(y: Layout) {
    forall v :: v in y.code ==> v.page < |y.used| && v.line < y.used[v.page]
  }

  predicate AddressesBelow(y: Layout) {
    forall v :: v in y.to ==> v.page < |y.used| && v.line <= y.used[v.page]
  }

  predicate LinesBelow(y: Layout) {
    forall pc :: pc in y.lines ==> pc.page < |y.marks| && pc.line + Width(y.lines[pc]) <= y.marks[pc.page]
  }

  predicate OpenEnds(y: Layout) {
    && (forall k :: k in y.ends ==> k < |y.used| && y.ends[k] < |y.marks| && End(y, k) in y.to)
    && (forall j, k :: j in y.ends && k in y.ends && j != k ==> y.ends[j] != y.ends[k])
  }

  // The address of an operation is that of no other one: a bridge is not part of a tape.
  predicate OwnAddress(y: Layout) {
    forall v, w :: v in y.code && w in y.code && v in y.at && w in y.to && y.at[v] == y.to[w] ==> v == w
  }

  // The pages hold the tapes, everything is below the marks, and open tapes go on on different pages.
  predicate Consistent(y: Layout) {
    && LaidOut(y.code, y.lines, y.at, y.to) && CodeBelow(y) && AddressesBelow(y) && LinesBelow(y) && OpenEnds(y)
    && OwnAddress(y)
  }

  predicate Going(y: Layout, k: nat) {
    k in y.ends && k < |y.used| && y.ends[k] < |y.marks| && End(y, k) in y.to
  }

  // Nothing has been emitted since the address of a tape's next line was taken, not even a bridge.
  predicate Tidy(y: Layout, k: nat) {
    Going(y, k) && y.to[End(y, k)] == Mark(y, y.ends[k])
  }

  predicate AllTidy(y: Layout) {
    OpenEnds(y) && forall k :: k in y.ends ==> Tidy(y, k)
  }

  predicate OthersTidy(y: Layout, k: nat) {
    OpenEnds(y) && forall j :: j in y.ends && j != k ==> Tidy(y, j)
  }

  // At most a bridge has been emitted since.
  predicate Ready(y: Layout, k: nat) {
    && Going(y, k) && Leading(y.lines, y.to[End(y, k)], Mark(y, y.ends[k]))
    && forall v :: v in y.code && v in y.at ==> y.at[v] != y.to[End(y, k)]
  }

  // What may be emitted.
  predicate Known(y: Layout, op: Op) {
    (forall pc :: pc in Named(op) ==> pc in y.to) && GoesAround(y.code, op)
  }

  function Append(y: Layout, k: nat, v: Op): (r: Layout)
    requires Going(y, k)
  {
    var p := y.ends[k];
    y.(code := y.code[End(y, k) := v], used := y.used[k := y.used[k] + 1],
       lines := y.lines[Mark(y, p) := Relocate(v, y.to)], at := y.at[End(y, k) := Mark(y, p)],
       to := y.to[After(End(y, k)) := Beyond(Mark(y, p), v)],
       marks := y.marks[p := y.marks[p] + Width(v)])
  }

  function Bridge(y: Layout, k: nat, q: nat): (r: Layout)
    requires Going(y, k) && q < |y.marks|
  {
    var p := y.ends[k];
    y.(lines := y.lines[Mark(y, p) := Jump(To(Mark(y, q)))], ends := y.ends[k := q],
       marks := y.marks[p := y.marks[p] + 2])
  }

  function Fill(y: Layout, v: Pc, t: Pc): (r: Layout)
    requires v in y.code && v in y.at
  {
    y.(code := y.code[v := Retarget(y.code[v], To(t))],
       lines := y.lines[y.at[v] := Relocate(Retarget(y.code[v], To(t)), y.to)])
  }

  function StartTape(y: Layout, q: nat): (r: Layout)
    requires q < |y.marks|
  {
    y.(used := y.used + [0], ends := y.ends[|y.used| := q], to := y.to[Pc(|y.used|, 0) := Mark(y, q)])
  }

  function StopTape(y: Layout, k: nat): (r: Layout) {
    y.(ends := map j | j in y.ends && j != k :: y.ends[j])
  }

  function AddPage(y: Layout): (r: Layout) {
    y.(marks := y.marks + [0])
  }

  // ---------------------------------------------------------------------------------
  // Each step keeps the layout consistent.

  lemma RelocateSame(op: Op, to: map<Pc, Pc>, later: map<Pc, Pc>)
    requires forall pc :: pc in Named(op) ==> pc in to && pc in later && later[pc] == to[pc]
    ensures Relocate(op, later) == Relocate(op, to)
  {
    match op
    case Do(_) =>
    case _ =>
      assert forall pc :: pc in Named(op) ==> pc in to;
  }

  lemma AppendBelow(y: Layout, k: nat, v: Op)
    requires Consistent(y) && k in y.ends
    ensures CodeBelow(Append(y, k, v)) && AddressesBelow(Append(y, k, v))
  {
    hide LaidOut, Relocate, LinesBelow;
  }

  lemma AppendLines(y: Layout, k: nat, v: Op)
    requires Consistent(y) && k in y.ends
    ensures LinesBelow(Append(y, k, v)) && Mark(y, y.ends[k]) !in y.lines
  {
    hide LaidOut, Relocate, CodeBelow, AddressesBelow;
  }

  lemma AppendOpen(y: Layout, k: nat, v: Op)
    requires Consistent(y) && k in y.ends
    ensures OpenEnds(Append(y, k, v))
  {
    hide LaidOut, Relocate, CodeBelow, AddressesBelow, LinesBelow;
    var z := Append(y, k, v);
    forall j | j in z.ends ensures End(z, j) in z.to {
      assert End(z, j) == if j == k then After(End(y, k)) else End(y, j);
    }
  }

  // Addresses already known stay the same.
  lemma AppendNew(y: Layout, k: nat, v: Op)
    requires Consistent(y) && k in y.ends
    ensures End(y, k) !in y.code && After(End(y, k)) !in y.to
    ensures forall w :: w in y.to ==> w in Append(y, k, v).to && Append(y, k, v).to[w] == y.to[w]
  {
    hide LaidOut, Relocate, LinesBelow;
  }

  // What was in place still is.
  lemma AppendOld(y: Layout, k: nat, v: Op, w: Pc)
    requires Consistent(y) && k in y.ends && w in y.code
    ensures w in y.at && w in y.to && y.at[w] in y.lines && y.at[w] != Mark(y, y.ends[k]) && w != End(y, k)
    ensures y.lines[y.at[w]] == Relocate(y.code[w], y.to) && Leading(y.lines, y.to[w], y.at[w])
    ensures FallsThrough(y.code[w]) ==> After(w) in y.to && y.to[After(w)] == Beyond(y.at[w], y.code[w])
    ensures Relocate(y.code[w], Append(y, k, v).to) == Relocate(y.code[w], y.to)
  {
    AppendNew(y, k, v);
    AppendLines(y, k, v);
    hide Named, Relocate, GoesAround, Apart, AllGoAround, CodeBelow, AddressesBelow, LinesBelow;
    RelocateSame(y.code[w], y.to, Append(y, k, v).to);
  }

  lemma AppendStays(y: Layout, k: nat, v: Op, w: Pc)
    requires Consistent(y) && k in y.ends && w in y.code
    ensures var z := Append(y, k, v);
            && w in z.code && w in z.at && w in z.to && z.at[w] in z.lines
            && z.lines[z.at[w]] == Relocate(z.code[w], z.to) && Leading(z.lines, z.to[w], z.at[w])
  {
    AppendOld(y, k, v, w);
    AppendNew(y, k, v);
    AppendLines(y, k, v);
    hide Named, Relocate, Consistent;
  }

  lemma AppendAdds(y: Layout, k: nat, v: Op)
    requires Consistent(y) && k in y.ends && Known(y, v) && Ready(y, k)
    ensures var z, e := Append(y, k, v), End(y, k);
            && e in z.code && e in z.at && e in z.to && z.at[e] in z.lines
            && z.lines[z.at[e]] == Relocate(z.code[e], z.to) && Leading(z.lines, z.to[e], z.at[e])
  {
    AppendNew(y, k, v);
    AppendLines(y, k, v);
    RelocateSame(v, y.to, Append(y, k, v).to);
    hide Named, Relocate, Consistent;
  }

  lemma AppendPlaces(y: Layout, k: nat, v: Op)
    requires Consistent(y) && k in y.ends && Known(y, v) && Ready(y, k)
    ensures var z := Append(y, k, v);
            InPlace(z.code, z.lines, z.at, z.to)
  {
    var z := Append(y, k, v);
    forall w | w in z.code
      ensures w in z.at && w in z.to && z.at[w] in z.lines && z.lines[z.at[w]] == Relocate(z.code[w], z.to)
      ensures Leading(z.lines, z.to[w], z.at[w])
    {
      hide *;
      if w in y.code {
        AppendStays(y, k, v, w);
      } else {
        AppendExtends(y, k, v, w);
        AppendAdds(y, k, v);
      }
    }
    hide Relocate, Leading, Append, Consistent;
  }

  lemma AppendExtends(y: Layout, k: nat, v: Op, w: Pc)
    requires Consistent(y) && k in y.ends && w in Append(y, k, v).code && w !in y.code
    ensures w == End(y, k)
  {
    hide Consistent;
  }

  lemma AppendGoesOn(y: Layout, k: nat, v: Op)
    requires Consistent(y) && k in y.ends
    ensures var z := Append(y, k, v);
            GoesOn(z.code, z.at, z.to)
  {
    AppendNew(y, k, v);
    var z, e := Append(y, k, v), End(y, k);
    forall w | w in z.code && FallsThrough(z.code[w])
      ensures w in z.at && After(w) in z.to && z.to[After(w)] == Beyond(z.at[w], z.code[w])
    {
      if w != e {
        AppendOld(y, k, v, w);
      }
    }
    hide Consistent, Relocate;
  }

  lemma AppendApart(y: Layout, k: nat, v: Op)
    requires Consistent(y) && k in y.ends
    ensures Apart(Append(y, k, v).code, Append(y, k, v).at)
  {
    AppendNew(y, k, v);
    forall w | w in y.code ensures w in y.at && y.at[w] != Mark(y, y.ends[k]) {
      AppendOld(y, k, v, w);
    }
    hide Relocate, InPlace, GoesOn, AllNamed, AllGoAround, CodeBelow, AddressesBelow, LinesBelow, OpenEnds, OwnAddress;
  }

  lemma AppendNamed(y: Layout, k: nat, v: Op)
    requires Consistent(y) && k in y.ends && Known(y, v)
    ensures AllNamed(Append(y, k, v).code, Append(y, k, v).to)
  {
    AppendNew(y, k, v);
    hide Named, Relocate, InPlace, GoesOn, Apart, AllGoAround, GoesAround, CodeBelow, AddressesBelow, LinesBelow;
  }

  lemma RoundsLater(code: Memory, later: Memory, op: Op)
    requires GoesAround(code, op) && forall w :: w in code ==> w in later && (code[w] == LoopOp ==> later[w] == LoopOp)
    ensures GoesAround(later, op)
  {
  }

  lemma OneMoreRound(code: Memory, e: Pc, v: Op)
    requires AllGoAround(code) && e !in code && GoesAround(code, v)
    ensures AllGoAround(code[e := v])
  {
    hide GoesAround;
    var later := code[e := v];
    forall w | w in later ensures GoesAround(later, later[w]) {
      RoundsLater(code, later, later[w]);
    }
  }

  lemma AppendRounds(y: Layout, k: nat, v: Op)
    requires Consistent(y) && k in y.ends && Known(y, v)
    ensures AllGoAround(Append(y, k, v).code)
  {
    AppendNew(y, k, v);
    hide Named, Relocate, InPlace, GoesOn, AllNamed, Apart, CodeBelow, AddressesBelow, LinesBelow, GoesAround, OpenEnds;
    hide OwnAddress, AllGoAround;
    OneMoreRound(y.code, End(y, k), v);
  }

  lemma AppendOwn(y: Layout, k: nat, v: Op)
    requires Consistent(y) && k in y.ends && Known(y, v) && Ready(y, k)
    ensures OwnAddress(Append(y, k, v))
  {
    AppendLines(y, k, v);
    AppendNew(y, k, v);
    var z, e := Append(y, k, v), End(y, k);
    forall w | w in y.code ensures w in y.at && w in y.to && y.at[w] in y.lines && y.to[w] in y.lines {
      AppendOld(y, k, v, w);
    }
    hide LaidOut, Relocate, CodeBelow, AddressesBelow, LinesBelow, OpenEnds;
  }

  lemma AppendKeeps(y: Layout, k: nat, v: Op)
    requires Consistent(y) && k in y.ends && Known(y, v) && Ready(y, k)
    ensures Consistent(Append(y, k, v))
  {
    AppendBelow(y, k, v);
    AppendLines(y, k, v);
    AppendOpen(y, k, v);
    AppendPlaces(y, k, v);
    AppendGoesOn(y, k, v);
    AppendApart(y, k, v);
    AppendNamed(y, k, v);
    AppendRounds(y, k, v);
    AppendOwn(y, k, v);
  }

  lemma AppendTidy(y: Layout, k: nat, v: Op)
    requires Consistent(y) && k in y.ends && OthersTidy(y, k)
    ensures AllTidy(Append(y, k, v))
  {
    AppendOpen(y, k, v);
    AppendNew(y, k, v);
    hide LaidOut, Relocate, CodeBelow, AddressesBelow, LinesBelow, OwnAddress;
    var z := Append(y, k, v);
    forall j | j in z.ends ensures Tidy(z, j) {
      if j == k {
        assert End(z, j) == After(End(y, k));
      } else {
        assert Tidy(y, j) && End(z, j) == End(y, j);
      }
    }
  }

  // Without a bridge a tidy tape is ready.
  lemma TidyReady(y: Layout, k: nat)
    requires Consistent(y) && k in y.ends && Tidy(y, k)
    ensures Ready(y, k)
  {
    AppendLines(y, k, Return);
    hide GoesOn, AllNamed, Apart, AllGoAround, Relocate, Leading;
  }

  // A free page, on which no open tape goes on.
  predicate Free(y: Layout, q: nat) {
    q < |y.marks| && forall j :: j in y.ends ==> y.ends[j] != q
  }

  lemma BridgeLines(y: Layout, k: nat, q: nat)
    requires Consistent(y) && k in y.ends && Free(y, q)
    ensures LinesBelow(Bridge(y, k, q)) && Mark(y, y.ends[k]) !in y.lines
  {
    hide LaidOut, Relocate, CodeBelow, AddressesBelow, OwnAddress;
  }

  lemma BridgeOpen(y: Layout, k: nat, q: nat)
    requires Consistent(y) && k in y.ends && Free(y, q)
    ensures OpenEnds(Bridge(y, k, q))
  {
    hide LaidOut, Relocate, CodeBelow, AddressesBelow, OwnAddress, LinesBelow;
    var z := Bridge(y, k, q);
    forall j | j in z.ends ensures j in y.ends && End(y, j) in y.to && End(z, j) == End(y, j) {
    }
  }

  lemma BridgeBelow(y: Layout, k: nat, q: nat)
    requires Consistent(y) && k in y.ends && Free(y, q)
    ensures var z := Bridge(y, k, q);
            LinesBelow(z) && OpenEnds(z) && Mark(y, y.ends[k]) !in y.lines
  {
    BridgeLines(y, k, q);
    BridgeOpen(y, k, q);
    hide *;
  }

  lemma BridgeLaid(y: Layout, k: nat, q: nat)
    requires Consistent(y) && k in y.ends && Free(y, q)
    ensures var z := Bridge(y, k, q);
            InPlace(z.code, z.lines, z.at, z.to)
  {
    BridgeBelow(y, k, q);
    hide Relocate, CodeBelow, AddressesBelow, OwnAddress, LinesBelow, GoesOn, AllNamed, Apart, AllGoAround;
  }

  lemma BridgeKeeps(y: Layout, k: nat, q: nat)
    requires Consistent(y) && k in y.ends && Free(y, q) && Tidy(y, k)
    ensures Consistent(Bridge(y, k, q)) && Ready(Bridge(y, k, q), k)
  {
    hide *;
    BridgeConsistent(y, k, q);
    BridgeReady(y, k, q);
  }

  lemma BridgeConsistent(y: Layout, k: nat, q: nat)
    requires Consistent(y) && k in y.ends && Free(y, q)
    ensures Consistent(Bridge(y, k, q))
  {
    hide InPlace, GoesOn, AllNamed, Apart, AllGoAround, Relocate, LinesBelow, OpenEnds;
    BridgeBelow(y, k, q);
    BridgeLaid(y, k, q);
  }

  lemma BridgeReady(y: Layout, k: nat, q: nat)
    requires Consistent(y) && k in y.ends && Free(y, q) && Tidy(y, k)
    ensures Ready(Bridge(y, k, q), k)
  {
    BridgeBelow(y, k, q);
    TidyReady(y, k);
    hide LaidOut, Relocate, CodeBelow, AddressesBelow, OwnAddress, LinesBelow;
  }

  lemma BridgeTidy(y: Layout, k: nat, q: nat)
    requires Consistent(y) && k in y.ends && Free(y, q) && AllTidy(y)
    ensures OthersTidy(Bridge(y, k, q), k)
  {
    BridgeBelow(y, k, q);
    hide LaidOut, Relocate, CodeBelow, AddressesBelow, OwnAddress, LinesBelow;
    var z := Bridge(y, k, q);
    forall j | j in z.ends && j != k ensures Tidy(z, j) {
      assert Tidy(y, j);
    }
  }

  // Filling a pointer in changes neither the size of the operation nor where running goes on.
  lemma Retargeted(op: Op, t: Pc)
    requires HasTarget(op)
    ensures var r := Retarget(op, To(t));
            && Width(r) == Width(op) && FallsThrough(r) == FallsThrough(op) && Named(r) == {t}
            && r != LoopOp && op != LoopOp
  {
  }

  lemma FillStays(y: Layout, v: Pc, t: Pc, w: Pc)
    requires Consistent(y) && v in y.code && v in y.at && HasTarget(y.code[v]) && t in y.to && w in y.code
    ensures var z := Fill(y, v, t);
            && w in z.code && w in z.at && w in z.to && z.at[w] in z.lines
            && z.lines[z.at[w]] == Relocate(z.code[w], z.to) && Leading(z.lines, z.to[w], z.at[w])
  {
    hide Retarget, Relocate, Named, CodeBelow, AddressesBelow, LinesBelow, GoesOn, AllNamed, AllGoAround, OpenEnds;
    assert w != v ==> y.at[w] != y.at[v] && y.to[w] != y.at[v];
  }

  lemma FillPlaces(y: Layout, v: Pc, t: Pc)
    requires Consistent(y) && v in y.code && v in y.at && HasTarget(y.code[v]) && t in y.to
    ensures var z := Fill(y, v, t);
            InPlace(z.code, z.lines, z.at, z.to)
  {
    var z := Fill(y, v, t);
    forall w | w in z.code
      ensures w in z.at && w in z.to && z.at[w] in z.lines && z.lines[z.at[w]] == Relocate(z.code[w], z.to)
      ensures Leading(z.lines, z.to[w], z.at[w])
    {
      FillStays(y, v, t, w);
    }
    hide Relocate, Leading, Fill, Consistent;
  }

  lemma FillLines(y: Layout, v: Pc, t: Pc)
    requires Consistent(y) && v in y.code && v in y.at && HasTarget(y.code[v]) && t in y.to
    ensures LinesBelow(Fill(y, v, t))
  {
    Retargeted(y.code[v], t);
    hide Retarget, Relocate, Named, CodeBelow, AddressesBelow, GoesOn, AllNamed, AllGoAround, OpenEnds, Apart;
    hide OwnAddress;
    assert y.at[v] in y.lines && Width(y.lines[y.at[v]]) == Width(y.code[v]);
  }

  lemma FillOwn(y: Layout, v: Pc, t: Pc)
    requires Consistent(y) && v in y.code && v in y.at && HasTarget(y.code[v]) && t in y.to
    ensures var z := Fill(y, v, t);
            OwnAddress(z) && CodeBelow(z) && AddressesBelow(z)
  {
    hide Retarget, Relocate, LaidOut, OpenEnds, LinesBelow;
  }

  lemma FillOpen(y: Layout, v: Pc, t: Pc)
    requires OpenEnds(y) && v in y.code && v in y.at
    ensures OpenEnds(Fill(y, v, t)) && (AllTidy(y) ==> AllTidy(Fill(y, v, t)))
  {
    hide Retarget, Relocate;
    var z := Fill(y, v, t);
    assert forall k :: k in z.ends ==> k in y.ends && End(z, k) == End(y, k);
    if AllTidy(y) {
      forall k | k in z.ends ensures Tidy(z, k) {
        assert Tidy(y, k);
      }
    }
  }

  lemma FillGoesOn(y: Layout, v: Pc, t: Pc)
    requires Consistent(y) && v in y.code && v in y.at && HasTarget(y.code[v]) && t in y.to
    ensures var z := Fill(y, v, t);
            GoesOn(z.code, z.at, z.to) && Apart(z.code, z.at)
  {
    Retargeted(y.code[v], t);
    hide Retarget, Relocate, Named, CodeBelow, AddressesBelow, LinesBelow, AllNamed, AllGoAround, OpenEnds, OwnAddress;
  }

  lemma FillNamed(y: Layout, v: Pc, t: Pc)
    requires Consistent(y) && v in y.code && v in y.at && HasTarget(y.code[v]) && t in y.to
    ensures AllNamed(Fill(y, v, t).code, Fill(y, v, t).to)
  {
    Retargeted(y.code[v], t);
    hide Retarget, Relocate, Named, CodeBelow, AddressesBelow, LinesBelow, GoesOn, Apart, AllGoAround, OpenEnds;
    hide OwnAddress, InPlace;
  }

  lemma FillRounds(y: Layout, v: Pc, t: Pc)
    requires Consistent(y) && v in y.code && v in y.at && HasTarget(y.code[v]) && t in y.to
    ensures AllGoAround(Fill(y, v, t).code)
  {
    Retargeted(y.code[v], t);
    var z := Fill(y, v, t);
    assert GoesAround(y.code, z.code[v]);
    hide Retarget, Relocate, Named, CodeBelow, AddressesBelow, LinesBelow, InPlace, GoesOn, AllNamed, Apart, GoesAround;
    forall w | w in z.code ensures GoesAround(z.code, z.code[w]) {
      RoundsLater(y.code, z.code, z.code[w]);
    }
  }

  lemma FillKeeps(y: Layout, v: Pc, t: Pc)
    requires Consistent(y) && v in y.code && v in y.at && HasTarget(y.code[v]) && t in y.to
    ensures Consistent(Fill(y, v, t)) && (AllTidy(y) ==> AllTidy(Fill(y, v, t)))
  {
    FillPlaces(y, v, t);
    FillLines(y, v, t);
    FillOwn(y, v, t);
    FillOpen(y, v, t);
    FillGoesOn(y, v, t);
    FillNamed(y, v, t);
    FillRounds(y, v, t);
    hide InPlace, GoesOn, AllNamed, Apart, AllGoAround, OwnAddress, CodeBelow, AddressesBelow, LinesBelow, OpenEnds;
    hide AllTidy, Fill;
  }

  lemma StartLaid(y: Layout, q: nat)
    requires Consistent(y) && Free(y, q)
    ensures var z := StartTape(y, q);
            InPlace(z.code, z.lines, z.at, z.to)
  {
    hide Relocate, Named, GoesOn, Apart, AllGoAround, LinesBelow, OwnAddress;
    var z := StartTape(y, q);
    assert Pc(|y.used|, 0) !in y.to;
    forall w | w in z.code ensures Relocate(z.code[w], z.to) == Relocate(z.code[w], y.to) {
      RelocateSame(z.code[w], y.to, z.to);
    }
  }

  lemma StartBelow(y: Layout, q: nat)
    requires Consistent(y) && Free(y, q)
    ensures var z := StartTape(y, q);
            && GoesOn(z.code, z.at, z.to) && AllNamed(z.code, z.to) && CodeBelow(z) && AddressesBelow(z)
  {
    hide Relocate, Named, InPlace, Apart, AllGoAround, LinesBelow, OwnAddress, OpenEnds;
  }

  lemma StartOpen(y: Layout, q: nat)
    requires Consistent(y) && Free(y, q)
    ensures OpenEnds(StartTape(y, q)) && (AllTidy(y) ==> AllTidy(StartTape(y, q)))
  {
    hide LaidOut, LinesBelow, OwnAddress, CodeBelow;
    var z := StartTape(y, q);
    assert forall k :: k in y.ends ==> End(z, k) == End(y, k) && z.ends[k] == y.ends[k];
    if AllTidy(y) {
      forall k | k in z.ends ensures Tidy(z, k) {
        if k in y.ends {
          assert Tidy(y, k);
        }
      }
    }
  }

  lemma StartOwn(y: Layout, q: nat)
    requires Consistent(y) && Free(y, q)
    ensures OwnAddress(StartTape(y, q))
  {
    hide Relocate, Named, GoesOn, AllNamed, Apart, AllGoAround, LinesBelow, OpenEnds, CodeBelow;
  }

  lemma StartTapeKeeps(y: Layout, q: nat)
    requires Consistent(y) && Free(y, q)
    ensures Consistent(StartTape(y, q)) && (AllTidy(y) ==> AllTidy(StartTape(y, q)))
  {
    StartLaid(y, q);
    StartBelow(y, q);
    StartOpen(y, q);
    StartOwn(y, q);
    hide InPlace, GoesOn, AllNamed, OwnAddress, CodeBelow, AddressesBelow, OpenEnds, AllTidy;
  }

  lemma StopTapeKeeps(y: Layout, k: nat)
    requires Consistent(y)
    ensures Consistent(StopTape(y, k)) && (AllTidy(y) ==> AllTidy(StopTape(y, k)))
  {
    hide LaidOut;
    StopTidy(y, k);
    hide AllTidy;
  }

  lemma StopTidy(y: Layout, k: nat)
    ensures AllTidy(y) ==> AllTidy(StopTape(y, k))
  {
    if AllTidy(y) {
      forall j | j in y.ends && j != k ensures Tidy(StopTape(y, k), j) {
        assert Tidy(y, j);
      }
    }
  }

  lemma AddPageKeeps(y: Layout)
    requires Consistent(y)
    ensures Consistent(AddPage(y)) && (AllTidy(y) ==> AllTidy(AddPage(y))) && Free(AddPage(y), |y.marks|)
  {
  }

  // Before anything is emitted.
  function Blank(marks: seq<nat>): (r: Layout) {
    Layout(map[], [], map[], map[], map[], map[], marks)
  }

  lemma BlankConsistent(marks: seq<nat>)
    ensures Consistent(Blank(marks)) && AllTidy(Blank(marks))
  {
  }

  // Pointers are filled in alike on the tape and in the pages.
  lemma RetargetRelocates(op: Op, to: map<Pc, Pc>, t: Pc)
    requires HasTarget(op) && t in to
    ensures Relocate(Retarget(op, To(t)), to) == Retarget(Relocate(op, to), To(to[t]))
  {
  }
}
