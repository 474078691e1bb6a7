// Emitting the code of a function on pages: the pages hold what has been emitted, laid out so that
// running them is running the tape (kernel/wasm3/source/m3_emit.c:13-104; m3_compile.c:59-93,
// 683-735, 1574-1598).
module PageEmission {
  import opened ThreadedMachine
  import opened ControlCompile
  import opened PagedMachine
  import opened PageLayout
  import opened CodePages

  // The cells hold the lines.
  predicate Printed(cells: seq<seq<Cell>>, lines: Memory) {
    forall pc :: pc in lines ==>
      pc.page < |cells| && pc.line < |cells[pc.page]| && cells[pc.page][pc.line] == Operation(lines[pc])
  }

  // A page on which a tape goes on is active and has room for a bridge.
  predicate Roomy(h: Shelf, ends: map<nat, nat>) {
    forall k :: k in ends ==>
      ends[k] in h.active && ends[k] < |h.marks| == |h.cells| && h.marks[ends[k]] + BRIDGE_LINES <= |h.cells[ends[k]]|
  }

  predicate Binds(h: Shelf, y: Layout) {
    y.marks == h.marks && Printed(h.cells, y.lines) && Roomy(h, y.ends) && Consistent(y)
  }

  lemma PrintedMore(cells: seq<seq<Cell>>, q: seq<Cell>, lines: Memory, at: Pc, op: Op)
    requires Printed(cells, lines) && at.page < |cells| && at.line < |q| == |cells[at.page]|
    requires forall pc :: pc in lines && pc.page == at.page ==> pc.line < at.line
    requires q[..at.line] == cells[at.page][..at.line] && q[at.line] == Operation(op)
    ensures Printed(cells[at.page := q], lines[at := op])
  {
    forall pc | pc in lines && pc.page == at.page ensures q[pc.line] == cells[at.page][pc.line] {
      assert q[..at.line][pc.line] == cells[at.page][..at.line][pc.line];
    }
  }

  lemma LinesBefore(y: Layout, p: nat)
    requires Consistent(y) && p < |y.marks|
    ensures forall pc :: pc in y.lines && pc.page == p ==> pc.line < y.marks[p]
  {
    hide LaidOut, CodeBelow, AddressesBelow, OpenEnds, OwnAddress;
  }

  // ---------------------------------------------------------------------------------
  // What each step does to pages and layout.

  function Provided(y: Layout, h: Shelf): (r: Layout) {
    if |y.marks| < |h.marks| then AddPage(y) else y
  }

  lemma AcquireBinds(h: Shelf, g: Shelf, y: Layout, q: nat, n: nat)
    requires Kept(h) && Binds(h, y) && Acquired(h, g, q, n)
    ensures Binds(g, Provided(y, g)) && Free(Provided(y, g), q) && q in g.active
    ensures AllTidy(y) ==> AllTidy(Provided(y, g))
  {
    if q == |h.marks| {
      AddPageKeeps(y);
    }
    hide Consistent, AllTidy;
  }

  lemma BridgePrinted(h: Shelf, g: Shelf, y: Layout, k: nat, q: nat)
    requires Binds(h, y) && k in y.ends && Going(y, k) && q < |y.marks|
    requires Wrote(h, g, y.ends[k], Jump(To(Mark(y, q))))
    ensures Printed(g.cells, Bridge(y, k, q).lines) && Bridge(y, k, q).marks == g.marks
  {
    LinesBefore(y, y.ends[k]);
    PrintedMore(h.cells, g.cells[y.ends[k]], y.lines, Mark(y, y.ends[k]), Jump(To(Mark(y, q))));
    hide Consistent, Printed;
  }

  lemma BridgeRoomy(h: Shelf, g: Shelf, y: Layout, k: nat, q: nat)
    requires Binds(h, y) && k in y.ends && Going(y, k) && Free(y, q) && q in h.active
    requires q < |h.cells| == |h.marks| && |h.cells[q]| >= h.marks[q] + BRIDGE_LINES
    requires Wrote(h, g, y.ends[k], Jump(To(Mark(y, q)))) && OpenEnds(y)
    ensures Roomy(g.(active := g.active - {y.ends[k]}), Bridge(y, k, q).ends)
  {
    hide Consistent, Printed;
  }

  lemma BridgeBinds(h: Shelf, g: Shelf, y: Layout, k: nat, q: nat)
    requires Kept(h) && Binds(h, y) && AllTidy(y) && k in y.ends && Going(y, k) && Free(y, q) && q in h.active
    requires |h.cells[q]| >= h.marks[q] + BRIDGE_LINES && Wrote(h, g, y.ends[k], Jump(To(Mark(y, q))))
    ensures var z := Bridge(y, k, q);
            && Binds(g.(active := g.active - {y.ends[k]}), z)
            && OthersTidy(z, k) && k in z.ends && z.ends[k] == q && PageLayout.Ready(z, k)
  {
    assert Tidy(y, k);
    BridgeKeeps(y, k, q);
    BridgeTidy(y, k, q);
    BridgePrinted(h, g, y, k, q);
    BridgeRoomy(h, g, y, k, q);
    hide Consistent, Printed, Roomy, AllTidy, OthersTidy, PageLayout.Ready, Kept, Free, Wrote;
  }

  lemma AppendPrinted(h: Shelf, g: Shelf, y: Layout, k: nat, v: Op)
    requires Binds(h, y) && Going(y, k) && Wrote(h, g, y.ends[k], Relocate(v, y.to))
    ensures Printed(g.cells, Append(y, k, v).lines) && Append(y, k, v).marks == g.marks
  {
    LinesBefore(y, y.ends[k]);
    PrintedMore(h.cells, g.cells[y.ends[k]], y.lines, Mark(y, y.ends[k]), Relocate(v, y.to));
    hide Consistent, Printed, Relocate;
  }

  lemma AppendRoomy(h: Shelf, g: Shelf, y: Layout, k: nat, v: Op)
    requires Binds(h, y) && OpenEnds(y) && Going(y, k) && Wrote(h, g, y.ends[k], Relocate(v, y.to))
    requires h.marks[y.ends[k]] + Width(v) + BRIDGE_LINES <= |h.cells[y.ends[k]]|
    ensures Roomy(g, Append(y, k, v).ends)
  {
    hide Consistent, Printed, Relocate;
  }

  lemma AppendBinds(h: Shelf, g: Shelf, y: Layout, k: nat, v: Op)
    requires Kept(h) && Binds(h, y) && OthersTidy(y, k) && k in y.ends && Known(y, v) && PageLayout.Ready(y, k)
    requires h.marks[y.ends[k]] + Width(v) + BRIDGE_LINES <= |h.cells[y.ends[k]]|
    requires Wrote(h, g, y.ends[k], Relocate(v, y.to))
    ensures Binds(g, Append(y, k, v)) && AllTidy(Append(y, k, v))
  {
    AppendKeeps(y, k, v);
    AppendTidy(y, k, v);
    AppendPrinted(h, g, y, k, v);
    AppendRoomy(h, g, y, k, v);
    hide Consistent, Printed, Roomy, AllTidy, OthersTidy, Known, Kept, Wrote, Relocate;
  }

  // One line written anew.
  function Anew(cells: seq<seq<Cell>>, at: Pc, op: Op): (r: seq<seq<Cell>>)
    requires at.page < |cells| && at.line < |cells[at.page]|
    ensures |r| == |cells| && forall i :: 0 <= i < |cells| ==> |r[i]| == |cells[i]|
  {
    cells[at.page := cells[at.page][at.line := Operation(op)]]
  }

  lemma PrintedAnew(cells: seq<seq<Cell>>, lines: Memory, at: Pc, op: Op)
    requires Printed(cells, lines) && at in lines
    ensures at.page < |cells| && at.line < |cells[at.page]| && Printed(Anew(cells, at, op), lines[at := op])
  {
  }

  lemma FillBinds(h: Shelf, g: Shelf, y: Layout, v: Pc, t: Pc, op: Op)
    requires Kept(h) && Binds(h, y) && v in y.code && v in y.at && HasTarget(y.code[v]) && t in y.to
    requires y.at[v].page < |h.cells| && y.at[v].line < |h.cells[y.at[v].page]|
    requires op == Retarget(Relocate(y.code[v], y.to), To(y.to[t]))
    requires g == h.(cells := Anew(h.cells, y.at[v], op))
    ensures Binds(g, Fill(y, v, t)) && (AllTidy(y) ==> AllTidy(Fill(y, v, t)))
  {
    CellThere(h, y, v);
    FillKeeps(y, v, t);
    RetargetRelocates(y.code[v], y.to, t);
    PrintedAnew(h.cells, y.lines, y.at[v], op);
    RoomyAnew(h, g, y.ends);
    hide Consistent, AllTidy, Retarget, Relocate, HasTarget, Printed, Roomy, Kept, Anew;
  }

  lemma RoomyAnew(h: Shelf, g: Shelf, ends: map<nat, nat>)
    requires Roomy(h, ends) && g.marks == h.marks && g.active == h.active && |g.cells| == |h.cells|
    requires forall i :: 0 <= i < |h.cells| ==> |g.cells[i]| == |h.cells[i]|
    ensures Roomy(g, ends)
  {
  }

  lemma CellThere(h: Shelf, y: Layout, v: Pc)
    requires Binds(h, y) && v in y.code
    ensures v in y.at && y.at[v] in y.lines && y.at[v].page < |h.cells| && y.at[v].line < |h.cells[y.at[v].page]|
    ensures h.cells[y.at[v].page][y.at[v].line] == Operation(Relocate(y.code[v], y.to))
  {
    hide Relocate;
  }

  // A step on one tape: where the others go on, what addresses are and where operations are stays so.
  predicate Stays(y: Layout, z: Layout, k: nat) {
    && (forall j :: j in y.ends && j != k ==> j in z.ends && z.ends[j] == y.ends[j])
    && (forall a :: a in y.to ==> a in z.to && z.to[a] == y.to[a])
    && (forall v :: v in y.code && v in y.at ==> v in z.at && z.at[v] == y.at[v])
  }

  lemma StaysOn(y: Layout, x: Layout, z: Layout, k: nat)
    requires Stays(y, x, k) && Stays(x, z, k) && forall v :: v in y.code ==> v in x.code
    ensures Stays(y, z, k)
  {
  }

  lemma BindsNew(h: Shelf, y: Layout, k: nat, v: Op)
    requires Binds(h, y) && k in y.ends
    ensures Going(y, k) && Stays(y, Append(y, k, v), k)
  {
    AppendNew(y, k, v);
    hide LaidOut, CodeBelow, AddressesBelow, LinesBelow, OwnAddress, Relocate, Printed, Roomy;
  }

  // A new tape has a new address.
  lemma StartNew(h: Shelf, y: Layout)
    requires Binds(h, y)
    ensures Pc(|y.used|, 0) !in y.to && |y.used| !in y.ends
  {
    hide LaidOut, CodeBelow, LinesBelow, OwnAddress;
  }

  lemma StartRoomy(h: Shelf, y: Layout, q: nat)
    requires Kept(h) && Roomy(h, y.ends) && q < |y.marks| && q in h.active
    requires h.marks[q] + BRIDGE_LINES <= |h.cells[q]|
    ensures Roomy(h, StartTape(y, q).ends)
  {
  }

  lemma StartBinds(h: Shelf, y: Layout, q: nat)
    requires Kept(h) && Binds(h, y) && Free(y, q) && q in h.active && h.marks[q] + BRIDGE_LINES <= |h.cells[q]|
    ensures q < |y.marks| && Binds(h, StartTape(y, q)) && (AllTidy(y) ==> AllTidy(StartTape(y, q)))
  {
    StartTapeKeeps(y, q);
    StartRoomy(h, y, q);
    hide Consistent, AllTidy, Printed, Roomy;
  }

  lemma StopBinds(h: Shelf, y: Layout, k: nat)
    requires Kept(h) && Binds(h, y) && OpenEnds(y) && k in y.ends
    ensures Binds(h.(active := h.active - {y.ends[k]}), StopTape(y, k)) && (AllTidy(y) ==> AllTidy(StopTape(y, k)))
  {
    StopTapeKeeps(y, k);
    hide Consistent, AllTidy, Printed;
  }

  lemma BindsMeans(h: Shelf, y: Layout, k: nat)
    requires Binds(h, y) && k in y.ends
    ensures Going(y, k) && OpenEnds(y) && y.marks == h.marks && y.ends[k] in h.active
    ensures y.ends[k] < |h.marks| == |h.cells| && h.marks[y.ends[k]] + BRIDGE_LINES <= |h.cells[y.ends[k]]|
    ensures AllTidy(y) ==> Tidy(y, k) && OthersTidy(y, k) && PageLayout.Ready(y, k)
  {
    if AllTidy(y) {
      assert Tidy(y, k);
      TidyReady(y, k);
    }
    hide LaidOut, CodeBelow, AddressesBelow, LinesBelow, OwnAddress, PageLayout.Ready;
  }

  lemma StartFields(y: Layout, q: nat)
    requires q < |y.marks| && |y.used| !in y.ends && Pc(|y.used|, 0) !in y.to
    ensures var z, k := StartTape(y, q), |y.used|;
            && k in z.ends && z.ends[k] == q && z.code == y.code && z.used == y.used + [0]
            && Stays(y, z, k)
  {
  }

  lemma StopFields(y: Layout, k: nat)
    ensures var z := StopTape(y, k);
            && z.code == y.code && z.used == y.used && Stays(y, z, k)
  {
  }

  // ---------------------------------------------------------------------------------
  // The pages that tapes go on on.

  function PagesOf(ends: map<nat, nat>): set<nat> {
    set k | k in ends :: ends[k]
  }

  predicate OnePageEach(ends: map<nat, nat>) {
    forall j, k :: j in ends && k in ends && j != k ==> ends[j] != ends[k]
  }

  lemma EndsApart(y: Layout)
    requires OpenEnds(y)
    ensures OnePageEach(y.ends)
  {
  }

  lemma PagesMoved(ends: map<nat, nat>, k: nat, q: nat)
    requires OnePageEach(ends) && k in ends
    ensures PagesOf(ends[k := q]) == PagesOf(ends) - {ends[k]} + {q}
  {
    var after := ends[k := q];
    forall p | p in PagesOf(ends) - {ends[k]} + {q} ensures p in PagesOf(after) {
      if p == q {
        assert after[k] == q;
      } else {
        var j :| j in ends && ends[j] == p;
        assert after[j] == p;
      }
    }
  }

  lemma PagesMore(ends: map<nat, nat>, k: nat, q: nat)
    requires k !in ends
    ensures PagesOf(ends[k := q]) == PagesOf(ends) + {q}
  {
    var after := ends[k := q];
    assert after[k] == q;
    forall p | p in PagesOf(ends) ensures p in PagesOf(after) {
      var j :| j in ends && ends[j] == p;
      assert after[j] == p;
    }
  }

  lemma PagesLess(y: Layout, k: nat)
    requires OnePageEach(y.ends) && k in y.ends
    ensures PagesOf(StopTape(y, k).ends) == PagesOf(y.ends) - {y.ends[k]}
    ensures StopTape(y, k).ends.Keys == y.ends.Keys - {k}
  {
    var after := StopTape(y, k).ends;
    forall p | p in PagesOf(y.ends) - {y.ends[k]} ensures p in PagesOf(after) {
      var j :| j in y.ends && y.ends[j] == p;
      assert after[j] == p;
    }
  }

  class Emission {
    const runtime: Runtime
    var page: CodePage
    ghost var layout: Layout
    ghost var tape: nat
    // The pages that are written to by others.
    ghost const others: set<nat>

    // Besides these the pages that are active are those of the tapes.
    ghost predicate Sparing()
      reads this, runtime
    {
      runtime.active == others + PagesOf(layout.ends) && others !! PagesOf(layout.ends)
    }

    // The pages hold what has been emitted.
    ghost predicate Tied()
      reads this, runtime, runtime.repr
    {
      && this !in runtime.repr && runtime.Valid() && Binds(runtime.Contents(), layout)
      && tape in layout.ends && layout.ends[tape] == page.sequence && Made(runtime.pages, page)
    }

    ghost predicate Valid()
      reads this, runtime, runtime.repr
    {
      Tied() && AllTidy(layout)
    }

    lemma RuntimeValid()
      requires Valid()
      ensures runtime.Valid() && this !in runtime.repr
    {
      hide Runtime.Valid;
    }

    // The code of a function begins on a page that has been acquired for it.
    constructor (runtime: Runtime, page: CodePage)
      requires runtime.Valid() && Made(runtime.pages, page) && page.sequence in runtime.active
      requires page.NumFreeLines() >= FREE_LINES_THRESHOLD
      ensures this.runtime == runtime && this.page == page && Valid()
      ensures Sparing() && others == runtime.active - {page.sequence} && layout.ends.Keys == {0}
      ensures layout.code == map[] && layout.used == [0] && tape == 0
    {
      this.runtime, this.page, others := runtime, page, runtime.active - {page.sequence};
      var blank := PageLayout.Blank(runtime.Contents().marks);
      runtime.PageKnown(page);
      layout, tape := StartTape(blank, page.sequence), 0;
      BlankConsistent(runtime.Contents().marks);
      StartBinds(runtime.Contents(), blank, page.sequence);
      hide Consistent, AllTidy, Runtime.Contents;
    }

    // The address of what is emitted next.
    function GetPC(): (pc: Pc)
      requires Valid()
      reads this, runtime, runtime.repr
      ensures Going(layout, tape) && pc == layout.to[End(layout, tape)]
    {
      BindsMeans(runtime.Contents(), layout, tape);
      runtime.PageKnown(page);
      Pc(page.sequence, page.lineIndex)
    }

    // Where lines get scarce a bridge leads on to another page.
    method EnsureCodePageNumLines(numLines: nat)
      requires Valid() && Sparing()
      modifies this, runtime, page, page.code
      ensures Tied() && OthersTidy(layout, tape) && PageLayout.Ready(layout, tape)
      ensures Sparing() && layout.ends.Keys == old(layout.ends.Keys)
      ensures page.NumFreeLines() >= numLines + BRIDGE_LINES && tape == old(tape)
      ensures layout.code == old(layout.code) && layout.used == old(layout.used) && layout.to == old(layout.to)
      ensures Stays(old(layout), layout, tape) && old(runtime.pages) <= runtime.pages
      ensures old(runtime.repr) <= runtime.repr && fresh(runtime.repr - old(runtime.repr))
    {
      hide Binds, Consistent, AllTidy, OthersTidy, Runtime.Valid, Runtime.Contents, PageLayout.Ready, Kept, Free;
      BindsMeans(runtime.Contents(), layout, tape);
      if page.NumFreeLines() < numLines + BRIDGE_LINES {
        var next := AcquirePage(numLines + BRIDGE_LINES);
        GoOn(next);
      }
    }

    // Another page, on which no tape goes on.
    method AcquirePage(minLines: nat) returns (next: CodePage)
      requires Valid()
      modifies runtime, `layout
      ensures Valid() && Made(runtime.pages, next) && Made(runtime.pages, page) && next.sequence in runtime.active
      ensures Free(layout, next.sequence) && next.NumFreeLines() >= minLines
      ensures next.sequence !in old(runtime.active) && runtime.active == old(runtime.active) + {next.sequence}
      ensures layout == old(layout).(marks := layout.marks) && old(runtime.pages) <= runtime.pages
      ensures old(runtime.repr) <= runtime.repr && fresh(runtime.repr - old(runtime.repr))
    {
      hide Binds, Consistent, AllTidy, Runtime.Valid, Runtime.Contents, Kept, Free;
      ghost var h, y := runtime.Contents(), layout;
      runtime.PageKnown(page);
      next := runtime.AcquireCodePageWithCapacity(minLines);
      runtime.PageKnown(next);
      AcquireBinds(h, runtime.Contents(), y, next.sequence, minLines);
      layout := Provided(y, runtime.Contents());
    }

    // The page that is left is given back.
    method GoOn(next: CodePage)
      requires Valid() && next.sequence in runtime.active && Made(runtime.pages, next) && Free(layout, next.sequence)
      requires next.NumFreeLines() >= BRIDGE_LINES
      requires runtime.active == others + PagesOf(layout.ends) + {next.sequence} && next.sequence !in others
      requires others !! PagesOf(layout.ends)
      modifies this, runtime, page, page.code
      ensures Tied() && OthersTidy(layout, tape) && PageLayout.Ready(layout, tape) && page == next && tape == old(tape)
      ensures Sparing() && layout.ends.Keys == old(layout.ends.Keys)
      ensures layout.code == old(layout.code) && layout.used == old(layout.used) && layout.to == old(layout.to)
      ensures Stays(old(layout), layout, tape) && runtime.pages == old(runtime.pages)
      ensures runtime.repr == old(runtime.repr) && next.NumFreeLines() == old(next.NumFreeLines())
    {
      hide Binds, Consistent, AllTidy, OthersTidy, Runtime.Valid, Runtime.Contents, PageLayout.Ready, Kept;
      ghost var h, y := runtime.Contents(), layout;
      runtime.PageKnown(page);
      runtime.PageKnown(next);
      BindsMeans(h, y, tape);
      runtime.Write(page, Jump(To(Pc(next.sequence, next.lineIndex))));
      BridgeBinds(h, runtime.Contents(), y, tape, next.sequence);
      EndsApart(y);
      PagesMoved(y.ends, tape, next.sequence);
      runtime.ReleaseCodePage(page);
      layout := Bridge(y, tape, next.sequence);
      page := next;
    }

    // An operation of the tape; its pointers are the addresses in the pages.  Where it has been written is
    // returned.
    method EmitOp(ghost v: Op, op: Op) returns (at: CodePage, line: nat)
      requires Valid() && Sparing() && Known(layout, v) && op == Relocate(v, layout.to)
      modifies this, runtime, runtime.repr
      ensures Valid() && tape == old(tape) && tape < |old(layout.used)|
      ensures Sparing() && layout.ends.Keys == old(layout.ends.Keys)
      ensures layout.code == old(layout.code)[End(old(layout), tape) := v]
      ensures layout.used == old(layout.used)[tape := old(layout.used)[tape] + 1]
      ensures Stays(old(layout), layout, tape) && old(runtime.pages) <= runtime.pages
      ensures Made(runtime.pages, at) && End(old(layout), tape) in layout.at
      ensures layout.at[End(old(layout), tape)] == Pc(at.sequence, line)
      ensures old(runtime.repr) <= runtime.repr && fresh(runtime.repr - old(runtime.repr))
    {
      hide Binds, Consistent, AllTidy, OthersTidy, Runtime.Valid, Runtime.Contents, PageLayout.Ready, Kept, Known;
      hide Relocate, Stays;
      BindsMeans(runtime.Contents(), layout, tape);
      ghost var before := layout;
      runtime.PageKnown(page);
      EnsureCodePageNumLines(FREE_LINES_THRESHOLD);
      runtime.PageKnown(page);
      KnownStill(before, layout, v);
      ghost var between := layout;
      at, line := WriteOperation(v, op);
      StaysOn(before, between, layout, tape);
    }

    lemma KnownStill(before: Layout, y: Layout, v: Op)
      requires Known(before, v) && y.code == before.code && y.to == before.to
      ensures Known(y, v)
    {
    }

    method WriteOperation(ghost v: Op, op: Op) returns (at: CodePage, line: nat)
      requires Tied() && OthersTidy(layout, tape) && PageLayout.Ready(layout, tape) && Known(layout, v)
      requires page.NumFreeLines() >= FREE_LINES_THRESHOLD + BRIDGE_LINES && op == Relocate(v, layout.to)
      modifies `layout, page, page.code
      ensures Valid() && Going(old(layout), tape) && layout == Append(old(layout), tape, v)
      ensures Stays(old(layout), layout, tape) && at == page
      ensures layout.at[End(old(layout), tape)] == Pc(at.sequence, line)
    {
      hide Binds, Consistent, AllTidy, OthersTidy, Runtime.Valid, Runtime.Contents, PageLayout.Ready, Kept, Known;
      hide Relocate, Stays;
      ghost var h, y := runtime.Contents(), layout;
      at, line := page, page.lineIndex;
      runtime.PageKnown(page);
      BindsMeans(h, y, tape);
      runtime.Write(page, op);
      AppendBinds(h, runtime.Contents(), y, tape, v);
      BindsNew(h, y, tape, v);
      layout := Append(y, tape, v);
    }

    // A pointer that has been reserved gets its target.
    method FillIn(at: CodePage, line: nat, target: Pc, ghost v: Pc, ghost t: Pc)
      requires Valid() && Made(runtime.pages, at)
      requires v in layout.code && v in layout.at && layout.at[v] == Pc(at.sequence, line) && HasTarget(layout.code[v])
      requires t in layout.to && target == layout.to[t]
      modifies `layout, at.code
      ensures Valid() && layout.code == old(layout.code)[v := Retarget(old(layout.code)[v], To(t))]
      ensures layout == old(layout).(code := layout.code, lines := layout.lines)
    {
      hide Consistent, AllTidy, Runtime.Valid, Runtime.Contents, Kept, Relocate, Retarget, HasTarget, Roomy;
      ghost var h, y := runtime.Contents(), layout;
      runtime.PageKnown(at);
      CellThere(h, y, v);
      assert line < at.code.Length;
      assert at.code[line] == h.cells[at.sequence][line] by { runtime.CellKnown(at, line); }
      runtime.Rewrite(at, line, Retarget(at.code[line].op, To(target)));
      FillBinds(h, runtime.Contents(), y, v, t, at.code[line].op);
      layout := Fill(y, v, t);
    }

    // The other branch of an if begins on a page that has been acquired for it.
    method StartElse() returns (saved: CodePage)
      requires Valid() && Sparing()
      modifies this, runtime
      ensures Valid() && saved == old(page) && Made(runtime.pages, saved)
      ensures Sparing() && layout.ends.Keys == old(layout.ends.Keys) + {tape}
      ensures tape == |old(layout.used)| && tape != old(tape) && tape !in old(layout.ends)
      ensures layout.code == old(layout.code) && layout.used == old(layout.used) + [0]
      ensures old(tape) in layout.ends && layout.ends[old(tape)] == saved.sequence
      ensures Stays(old(layout), layout, tape) && old(runtime.pages) <= runtime.pages
      ensures old(runtime.repr) <= runtime.repr && fresh(runtime.repr - old(runtime.repr))
    {
      hide Binds, Consistent, AllTidy, Runtime.Valid, Runtime.Contents, Kept, Free, PagesOf, Stays;
      ghost var y := layout;
      BindsMeans(runtime.Contents(), y, tape);
      StartNew(runtime.Contents(), y);
      saved := page;
      var next := AcquirePage(FREE_LINES_THRESHOLD);
      ghost var marks := layout.marks;
      BeginTape(next);
      StaysSince(y, marks, layout, tape);
    }

    lemma StaysSince(y: Layout, marks: seq<nat>, z: Layout, k: nat)
      requires Stays(y.(marks := marks), z, k)
      ensures Stays(y, z, k)
    {
    }

    method BeginTape(next: CodePage)
      requires Valid() && Made(runtime.pages, next) && next.sequence in runtime.active && Free(layout, next.sequence)
      requires next.NumFreeLines() >= BRIDGE_LINES
      requires |layout.used| !in layout.ends && Pc(|layout.used|, 0) !in layout.to
      requires runtime.active == others + PagesOf(layout.ends) + {next.sequence} && next.sequence !in others
      requires others !! PagesOf(layout.ends)
      modifies this
      ensures Valid() && page == next && tape == |old(layout.used)|
      ensures Sparing() && layout.ends.Keys == old(layout.ends.Keys) + {tape}
      ensures layout.code == old(layout.code) && layout.used == old(layout.used) + [0]
      ensures Stays(old(layout), layout, tape)
    {
      hide Binds, Consistent, AllTidy, Runtime.Valid, Runtime.Contents, Kept, Free, PagesOf, Stays;
      ghost var y := layout;
      runtime.PageKnown(next);
      StartBinds(runtime.Contents(), y, next.sequence);
      StartFields(y, next.sequence);
      PagesMore(y.ends, |y.used|, next.sequence);
      tape := |y.used|;
      layout := StartTape(y, next.sequence);
      page := next;
    }

    // After the branch back its page is given back, and the first branch goes on.
    method EndElse(saved: CodePage, ghost savedTape: nat)
      requires Valid() && Sparing() && Made(runtime.pages, saved) && savedTape != tape
      requires savedTape in layout.ends && layout.ends[savedTape] == saved.sequence
      modifies this, runtime
      ensures Valid() && page == saved && tape == savedTape
      ensures Sparing() && layout.ends.Keys == old(layout.ends.Keys) - {old(tape)}
      ensures layout.code == old(layout.code) && layout.used == old(layout.used)
      ensures Stays(old(layout), layout, old(tape)) && runtime.pages == old(runtime.pages)
      ensures runtime.repr == old(runtime.repr)
    {
      hide Binds, Consistent, AllTidy, Runtime.Valid, Runtime.Contents, Kept;
      ghost var h, y := runtime.Contents(), layout;
      runtime.PageKnown(page);
      BindsMeans(h, y, tape);
      StopBinds(h, y, tape);
      EndsApart(y);
      StopFields(y, tape);
      PagesLess(y, tape);
      hide StopTape;
      runtime.ReleaseCodePage(page);
      layout := StopTape(y, tape);
      page := saved;
      tape := savedTape;
    }

    // At the end of the function its page is given back.
    method Release()
      requires Valid() && Sparing()
      modifies this, runtime
      ensures runtime.Valid() && Binds(runtime.Contents(), layout) && runtime.repr == old(runtime.repr)
      ensures layout.code == old(layout.code) && layout.to == old(layout.to)
      ensures old(layout.ends.Keys == {tape}) ==> runtime.active == others
    {
      hide Binds, Consistent, AllTidy, Runtime.Valid, Runtime.Contents, Kept;
      ghost var h, y := runtime.Contents(), layout;
      runtime.PageKnown(page);
      BindsMeans(h, y, tape);
      StopBinds(h, y, tape);
      EndsApart(y);
      PagesLess(y, tape);
      runtime.ReleaseCodePage(page);
      layout := StopTape(y, tape);
    }
  }
}
