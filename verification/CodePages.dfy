// The pages that code is written to: lists of open and full pages, acquiring and releasing, and
// emitting, with a bridge to another page where room gets scarce
// (kernel/wasm3/source/m3_code.c:10-84; m3_env.c:223-246, 862-922; m3_emit.c:13-104;
// m3_compile.c:59-93, 683-735, 1574-1598).
module CodePages {
  import opened Wrappers
  import opened ThreadedMachine
  import opened PagedMachine

  const FREE_LINES_THRESHOLD := 6
  const BRIDGE_LINES := 2
  const PAGE_ALIGN := 4096
  const HEADER_SIZE := 24
  const LINE_SIZE := 8

  // A line holds an operation, or one of the immediates of the operation before it.
  datatype Cell = Operation(op: Op) | Immediate

  // A page is as large as the alignment allows.
  function LinesOf(minLines: nat): (n: nat)
    ensures n >= minLines
  {
    var size := HEADER_SIZE + LINE_SIZE * minLines;
    ((size + PAGE_ALIGN - 1) / PAGE_ALIGN * PAGE_ALIGN - HEADER_SIZE) / LINE_SIZE
  }

  class CodePage {
    const sequence: nat
    const code: array<Cell>
    var lineIndex: nat

    constructor (sequence: nat, minLines: nat)
      ensures this.sequence == sequence && lineIndex == 0 && fresh(code) && code.Length >= minLines
    {
      this.sequence := sequence;
      code := new Cell[LinesOf(minLines)](_ => Immediate);
      lineIndex := 0;
    }

    function NumFreeLines(): (n: int)
      reads this
    {
      code.Length - lineIndex
    }

    method EmitWord(word: Cell)
      requires lineIndex < code.Length
      modifies this, code
      ensures lineIndex == old(lineIndex) + 1 && code[..] == old(code[..])[old(lineIndex) := word]
    {
      code[lineIndex] := word;
      lineIndex := lineIndex + 1;
    }

    // The operation and its immediates; what was emitted before stays.
    method EmitOperation(op: Op)
      requires lineIndex + Width(op) <= code.Length
      modifies this, code
      ensures lineIndex == old(lineIndex) + Width(op) && code[old(lineIndex)] == Operation(op)
      ensures forall i :: 0 <= i < old(lineIndex) ==> code[i] == old(code[i])
    {
      EmitWord(Operation(op));
      for i := 1 to Width(op)
        invariant lineIndex == old(lineIndex) + i && code[old(lineIndex)] == Operation(op)
        invariant forall j :: 0 <= j < old(lineIndex) ==> code[j] == old(code[j])
      {
        EmitWord(Immediate);
      }
    }
  }

  // ---------------------------------------------------------------------------------
  // What the pages hold: how far they are used, their lines, and which are being written to.

  datatype Shelf = Shelf(marks: seq<nat>, cells: seq<seq<Cell>>, active: set<nat>)

  predicate Kept(h: Shelf) {
    && |h.marks| == |h.cells| && (forall i :: 0 <= i < |h.marks| ==> h.marks[i] <= |h.cells[i]|)
    && (forall p :: p in h.active ==> p < |h.marks|)
  }

  // Page q has been acquired: it was open before, or is new.
  predicate Acquired(h: Shelf, g: Shelf, q: nat, minLines: nat) {
    && q !in h.active && q < |g.marks| == |g.cells| && g.marks[q] + minLines <= |g.cells[q]|
    && (if q < |h.marks| then g == h.(active := h.active + {q})
        else q == |h.marks| && g == Shelf(h.marks + [0], h.cells + [g.cells[q]], h.active + {q}))
  }

  // An operation has been written to page p, and nothing else has changed.
  predicate Wrote(h: Shelf, g: Shelf, p: nat, op: Op) {
    && p < |h.marks| == |h.cells| == |g.cells| && h.marks[p] < |g.cells[p]| == |h.cells[p]|
    && g == Shelf(h.marks[p := h.marks[p] + Width(op)], h.cells[p := g.cells[p]], h.active)
    && g.cells[p][..h.marks[p]] == h.cells[p][..h.marks[p]] && g.cells[p][h.marks[p]] == Operation(op)
  }

  // ---------------------------------------------------------------------------------
  // The lists of pages.

  predicate Distinct(list: seq<CodePage>) {
    forall i, j :: 0 <= i < j < |list| ==> list[i] != list[j]
  }

  ghost predicate Made(pages: seq<CodePage>, p: CodePage) {
    p.sequence < |pages| && pages[p.sequence] == p
  }

  // Every page is in one of the lists or active, and in one only.
  ghost predicate Listed(pages: seq<CodePage>, open: seq<CodePage>, full: seq<CodePage>, active: set<nat>,
                         total: nat, busy: nat)
  {
    && Distinct(open) && Distinct(full)
    && (forall p :: p in open ==> p !in full && p.sequence !in active && Made(pages, p))
    && (forall p :: p in full ==> p.sequence !in active && Made(pages, p))
    && (forall p :: p in active ==> p < |pages|)
    && |open| + |full| + busy == total == |pages| && busy == |active|
  }

  lemma ListedNew(pages: seq<CodePage>, open: seq<CodePage>, full: seq<CodePage>, active: set<nat>,
                  total: nat, busy: nat, page: CodePage)
    requires Listed(pages, open, full, active, total, busy) && page.sequence == |pages|
    ensures Listed(pages + [page], open, full, active + {|pages|}, total + 1, busy + 1)
  {
  }

  // None of the pages has so many free lines.
  ghost predicate Scarce(list: seq<CodePage>, minLines: nat)
    reads list
  {
    forall i :: 0 <= i < |list| ==> list[i].NumFreeLines() < minLines
  }

  class Runtime {
    var pagesOpen: seq<CodePage>
    var pagesFull: seq<CodePage>
    var numCodePages: nat
    var numActiveCodePages: nat
    // Every page, in the order in which they were made, and those that are being written to.
    ghost var pages: seq<CodePage>
    ghost var active: set<nat>
    ghost var repr: set<object>

    // Pages are numbered, have arrays of their own and are nowhere overrun.
    ghost predicate Sane()
      reads this, repr
    {
      && this !in repr && (forall i :: 0 <= i < |pages| ==> pages[i] in repr && pages[i].code in repr)
      && (forall i :: 0 <= i < |pages| ==> pages[i].sequence == i && pages[i].lineIndex <= pages[i].code.Length)
      && (forall i, j :: 0 <= i < j < |pages| ==> pages[i].code != pages[j].code)
    }

    ghost predicate Valid()
      reads this, repr
    {
      Sane() && Listed(pages, pagesOpen, pagesFull, active, numCodePages, numActiveCodePages)
    }

    ghost function Contents(): (h: Shelf)
      requires Valid()
      reads this, repr
      ensures Kept(h) && |h.marks| == |pages| && h.active == active
      ensures forall i :: 0 <= i < |pages| ==> h.marks[i] == pages[i].lineIndex && h.cells[i] == pages[i].code[..]
    {
      Shelf(seq(|pages|, i requires 0 <= i < |pages| && Sane() reads this, repr => pages[i].lineIndex),
            seq(|pages|, i requires 0 <= i < |pages| && Sane() reads this, repr => pages[i].code[..]), active)
    }

    constructor ()
      ensures Valid() && pages == [] && active == {} && repr == {}
    {
      pagesOpen, pagesFull, numCodePages, numActiveCodePages := [], [], 0, 0;
      pages, active, repr := [], {}, {};
    }

    // The first open page with so many free lines.
    method RemoveCodePageOfCapacity(minLines: nat) returns (r: Option<CodePage>)
      requires Valid()
      modifies `pagesOpen
      ensures r.None? ==> pagesOpen == old(pagesOpen) && Scarce(pagesOpen, minLines)
      ensures r.Some? ==>
                && r.value.NumFreeLines() >= minLines && Distinct(pagesOpen) && r.value !in pagesOpen
                && exists before, after ::
                     && old(pagesOpen) == before + [r.value] + after && pagesOpen == before + after
                     && Scarce(before, minLines)
    {
      var i := 0;
      while i < |pagesOpen| && pagesOpen[i].NumFreeLines() < minLines
        invariant 0 <= i <= |pagesOpen| && pagesOpen == old(pagesOpen) && Scarce(pagesOpen[..i], minLines)
      {
        i := i + 1;
      }
      if i == |pagesOpen| {
        assert pagesOpen[..i] == pagesOpen;
        return None;
      }
      r := Some(pagesOpen[i]);
      ghost var before, after := pagesOpen[..i], pagesOpen[i + 1..];
      assert pagesOpen == before + [r.value] + after;
      pagesOpen := pagesOpen[..i] + pagesOpen[i + 1..];
    }

    // An open page is used before a new one is made.
    method AcquireCodePageWithCapacity(minLines: nat) returns (page: CodePage)
      requires Valid()
      modifies this
      ensures Valid() && Made(pages, page) && Acquired(old(Contents()), Contents(), page.sequence, minLines)
      ensures old(pages) <= pages && old(repr) <= repr && fresh(repr - old(repr))
      ensures page !in old(pagesOpen) ==> Scarce(old(pagesOpen), minLines) && pagesOpen == old(pagesOpen)
    {
      ghost var h := Contents();
      var r := RemoveCodePageOfCapacity(minLines);
      if r.Some? {
        page := r.value;
        numActiveCodePages := numActiveCodePages + 1;
        active := active + {page.sequence};
        assert Contents().marks == h.marks && Contents().cells == h.cells;
      } else {
        page := NewCodePage(minLines);
      }
    }

    lemma NumbersAgree()
      requires Valid()
      ensures numCodePages == |pages| && forall p :: p in active ==> p < |pages|
    {
    }

    method NewCodePage(minLines: nat) returns (page: CodePage)
      requires Valid()
      modifies `numCodePages, `numActiveCodePages, `pages, `active, `repr
      ensures Valid() && page.sequence == |old(pages)| && pages == old(pages) + [page]
      ensures Acquired(old(Contents()), Contents(), page.sequence, minLines)
      ensures old(repr) <= repr && fresh(repr - old(repr))
    {
      hide Listed;
      NumbersAgree();
      ghost var h := Contents();
      page := new CodePage(numCodePages, minLines);
      ListedNew(pages, pagesOpen, pagesFull, active, numCodePages, numActiveCodePages, page);
      numCodePages := numCodePages + 1;
      numActiveCodePages := numActiveCodePages + 1;
      pages := pages + [page];
      active := active + {page.sequence};
      repr := repr + {page, page.code};
      assert Contents().marks == h.marks + [0] && Contents().cells == h.cells + [page.code[..]];
    }

    // Full pages are not looked at again.
    method ReleaseCodePage(page: CodePage)
      requires Valid() && Made(pages, page) && page.sequence in active
      modifies `pagesFull, `pagesOpen, `numActiveCodePages, `active
      ensures Valid() && Contents() == old(Contents()).(active := old(active) - {page.sequence})
      ensures if page.NumFreeLines() < FREE_LINES_THRESHOLD
              then pagesFull == [page] + old(pagesFull) && pagesOpen == old(pagesOpen)
              else pagesOpen == [page] + old(pagesOpen) && pagesFull == old(pagesFull)
    {
      ghost var h := Contents();
      if page.NumFreeLines() < FREE_LINES_THRESHOLD {
        pagesFull := [page] + pagesFull;
      } else {
        pagesOpen := [page] + pagesOpen;
      }
      numActiveCodePages := numActiveCodePages - 1;
      active := active - {page.sequence};
      assert Contents().marks == h.marks && Contents().cells == h.cells;
    }

    method Write(page: CodePage, op: Op)
      requires Valid() && Made(pages, page) && page.NumFreeLines() >= Width(op)
      modifies page, page.code
      ensures Valid() && Wrote(old(Contents()), Contents(), page.sequence, op)
    {
      ghost var h := Contents();
      page.EmitOperation(op);
      ghost var g := Contents();
      assert g.marks == h.marks[page.sequence := h.marks[page.sequence] + Width(op)];
      assert g.cells == h.cells[page.sequence := page.code[..]];
    }

    // A line that is there already is written anew.
    method Rewrite(page: CodePage, line: nat, op: Op)
      requires Valid() && Made(pages, page) && line < page.code.Length
      modifies page.code
      ensures Valid()
      ensures var h, p := old(Contents()), page.sequence;
              Contents() == h.(cells := h.cells[p := h.cells[p][line := Operation(op)]])
    {
      ghost var h := Contents();
      page.code[line] := Operation(op);
      assert page.code[..] == h.cells[page.sequence][line := Operation(op)];
      assert Contents().cells == h.cells[page.sequence := page.code[..]] && Contents().marks == h.marks;
    }

    lemma PageKnown(page: CodePage)
      requires Valid() && Made(pages, page)
      ensures page.sequence < |Contents().marks| && Contents().marks[page.sequence] == page.lineIndex
      ensures |Contents().cells[page.sequence]| == page.code.Length && page in repr && page.code in repr
      ensures Kept(Contents()) && Contents().active == active
    {
    }

    lemma CellKnown(page: CodePage, line: nat)
      requires Valid() && Made(pages, page) && line < page.code.Length
      ensures page.sequence < |Contents().cells| && line < |Contents().cells[page.sequence]|
      ensures Contents().cells[page.sequence][line] == page.code[line]
    {
    }
  }
}
