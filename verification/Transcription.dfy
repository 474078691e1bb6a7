// Carrying out on pages what the compiler has emitted to tapes
// (kernel/wasm3/source/m3_emit.c:13-104; m3_compile.c:683-735, 1574-1598).
module Transcription {
  import opened Wrappers
  import opened ThreadedMachine
  import opened ControlCompile
  import opened PagedMachine
  import opened EmissionLog
  import opened PageLayout
  import opened CodePages
  import opened PageEmission

  // Where an operation is: the page and the line.
  datatype Place = Place(page: CodePage, line: nat)

  // Every line emitted, and the next one, has an address.
  ghost predicate Addressed(to: map<Pc, Pc>, addresses: map<Pc, Pc>, used: seq<nat>) {
    forall pc :: Within(used, pc) ==> pc in addresses && pc in to && to[pc] == addresses[pc]
  }

  // Operations with pointers are where they have been written.
  ghost predicate Found(code: Memory, at: map<Pc, Pc>, places: map<Pc, Place>, pages: seq<CodePage>) {
    forall v :: v in code && HasTarget(code[v]) ==>
      v in places && CodePages.Made(pages, places[v].page) && v in at &&
      at[v] == Pc(places[v].page.sequence, places[v].line)
  }

  // The tapes that are gone back to go on on the pages that have been saved.
  ghost predicate Waiting(ends: map<nat, nat>, tapes: seq<nat>, tape: nat, saved: seq<CodePage>,
                          pages: seq<CodePage>)
  {
    && |saved| == |tapes|
    && (forall i :: 0 <= i < |saved| ==>
          && tapes[i] != tape && tapes[i] in ends && ends[tapes[i]] == saved[i].sequence
          && CodePages.Made(pages, saved[i]))
    && (forall i, j :: 0 <= i < j < |saved| ==> tapes[i] != tapes[j])
  }

  lemma AddressedNext(y: Layout, z: Layout, addresses: map<Pc, Pc>, used: seq<nat>, k: nat)
    requires Addressed(y.to, addresses, used) && k < |used| && Stays(y, z, k) && Pc(k, used[k] + 1) in z.to
    ensures var pc := Pc(k, used[k] + 1);
            Addressed(z.to, addresses[pc := z.to[pc]], used[k := used[k] + 1])
  {
    var pc, used' := Pc(k, used[k] + 1), used[k := used[k] + 1];
    forall a | Within(used', a) ensures a == pc || Within(used, a) {
    }
  }

  // The real addresses are those of the layout.
  lemma SameAddresses(op: Op, to: map<Pc, Pc>, addresses: map<Pc, Pc>, used: seq<nat>)
    requires Addressed(to, addresses, used) && forall pc :: pc in Named(op) ==> Within(used, pc)
    ensures Relocate(op, addresses) == Relocate(op, to) && forall pc :: pc in Named(op) ==> pc in to
  {
    RelocateSame(op, to, addresses);
  }

  lemma FoundNext(y: Layout, z: Layout, k: nat, e: Pc, op: Op, places: map<Pc, Place>, pages: seq<CodePage>,
      pages': seq<CodePage>, place: Place)
    requires Found(y.code, y.at, places, pages) && Stays(y, z, k) && pages <= pages'
    requires z.code == y.code[e := op] && e in z.at && z.at[e] == Pc(place.page.sequence, place.line)
    requires CodePages.Made(pages', place.page)
    ensures Found(z.code, z.at, places[e := place], pages')
  {
  }

  lemma FoundFilled(code: Memory, at: map<Pc, Pc>, places: map<Pc, Place>, pages: seq<CodePage>, v: Pc, t: Pc)
    requires Found(code, at, places, pages) && v in code && HasTarget(code[v])
    ensures Found(code[v := Retarget(code[v], To(t))], at, places, pages)
  {
  }

  lemma FoundStill(y: Layout, z: Layout, k: nat, places: map<Pc, Place>, pages: seq<CodePage>, pages': seq<CodePage>)
    requires Found(y.code, y.at, places, pages) && Stays(y, z, k) && pages <= pages' && z.code == y.code
    ensures Found(z.code, z.at, places, pages')
  {
  }

  lemma WaitingStill(y: Layout, z: Layout, tapes: seq<nat>, tape: nat, saved: seq<CodePage>, pages: seq<CodePage>,
      pages': seq<CodePage>)
    requires Waiting(y.ends, tapes, tape, saved, pages) && Stays(y, z, tape) && pages <= pages'
    ensures Waiting(z.ends, tapes, tape, saved, pages')
  {
  }

  // The tape that is left waits for the new one to end.
  lemma WaitingMore(y: Layout, z: Layout, tapes: seq<nat>, tape: nat, tape': nat, saved: seq<CodePage>, page: CodePage,
      pages: seq<CodePage>, pages': seq<CodePage>)
    requires Waiting(y.ends, tapes, tape, saved, pages) && Stays(y, z, tape') && pages <= pages'
    requires tape' !in y.ends && tape in z.ends && z.ends[tape] == page.sequence && CodePages.Made(pages', page)
    requires tape' != tape
    ensures Waiting(z.ends, tapes + [tape], tape', saved + [page], pages')
  {
  }

  lemma WaitingLast(ends: map<nat, nat>, tapes: seq<nat>, tape: nat, saved: seq<CodePage>, pages: seq<CodePage>)
    requires Waiting(ends, tapes, tape, saved, pages) && |tapes| > 0
    ensures var n := |tapes| - 1;
            && |saved| == |tapes| && tapes[n] != tape && tapes[n] in ends && ends[tapes[n]] == saved[n].sequence
            && CodePages.Made(pages, saved[n])
  {
  }

  lemma WaitingLess(y: Layout, z: Layout, tapes: seq<nat>, tape: nat, saved: seq<CodePage>, pages: seq<CodePage>)
    requires Waiting(y.ends, tapes, tape, saved, pages) && Stays(y, z, tape) && |tapes| > 0
    ensures var n := |tapes| - 1;
            |saved| == |tapes| && Waiting(z.ends, tapes[..n], tapes[n], saved[..n], pages)
  {
  }

  lemma AddressedMore(y: Layout, z: Layout, addresses: map<Pc, Pc>, used: seq<nat>, k: nat)
    requires Addressed(y.to, addresses, used) && Stays(y, z, k) && Pc(|used|, 0) in z.to
    ensures var pc := Pc(|used|, 0);
            Addressed(z.to, addresses[pc := z.to[pc]], used + [0])
  {
    var pc, used' := Pc(|used|, 0), used + [0];
    forall a | Within(used', a) ensures a == pc || Within(used, a) {
    }
  }

  lemma AddressedStill(y: Layout, z: Layout, addresses: map<Pc, Pc>, used: seq<nat>, k: nat)
    requires Addressed(y.to, addresses, used) && Stays(y, z, k)
    ensures Addressed(z.to, addresses, used)
  {
  }

  class Transcriber {
    const emission: Emission
    var addresses: map<Pc, Pc>
    var places: map<Pc, Place>
    var saved: seq<CodePage>
    var tapes: Tapes

    // What has been emitted to the pages is what the tapes hold.
    ghost predicate Valid()
      reads this, emission, emission.runtime, emission.runtime.repr
    {
      && emission.Valid() && emission.Sparing() && this !in emission.runtime.repr && emission !in emission.runtime.repr
      && Tied(emission.layout, emission.tape, emission.runtime.pages)
    }

    ghost predicate Tied(y: Layout, tape: nat, pages: seq<CodePage>)
      reads this
    {
      && y.code == tapes.code && y.used == tapes.used && tape == tapes.tape < |tapes.used|
      && Addressed(y.to, addresses, tapes.used) && Found(tapes.code, y.at, places, pages)
      && Waiting(y.ends, tapes.saved, tapes.tape, saved, pages)
      && y.ends.Keys == {tape} + (set k | k in tapes.saved)
    }

    // The code of a function begins on a page that has been acquired for it.
    constructor (runtime: Runtime)
      requires runtime.Valid()
      modifies runtime
      ensures Valid() && fresh(emission) && emission.runtime == runtime && tapes == BEGINNING
      ensures emission.others == old(runtime.active)
      ensures old(runtime.repr) <= runtime.repr && fresh(runtime.repr - old(runtime.repr))
    {
      hide Runtime.Valid, Runtime.Contents, Emission.Valid;
      var page := runtime.AcquireCodePageWithCapacity(FREE_LINES_THRESHOLD);
      emission := new Emission(runtime, page);
      saved, places, tapes := [], map[], BEGINNING;
      addresses := map[];
      new;
      addresses := map[Pc(0, 0) := emission.GetPC()];
      FirstAddressed(emission.layout, addresses);
    }

    lemma FirstAddressed(y: Layout, addresses: map<Pc, Pc>)
      requires y.used == [0] && Pc(0, 0) in y.to && addresses == map[Pc(0, 0) := y.to[Pc(0, 0)]]
      ensures Addressed(y.to, addresses, [0])
    {
    }

    method Write(op: Op)
      requires Valid() && Can(tapes, Written(op))
      modifies this, emission, emission.runtime, emission.runtime.repr
      ensures Valid() && tapes == Taken(old(tapes), Written(op))
      ensures old(emission.runtime.repr) <= emission.runtime.repr
      ensures fresh(emission.runtime.repr - old(emission.runtime.repr))
    {
      hide Emission.Valid, Relocate, Stays, Addressed, Found, Waiting, Named;
      ghost var y, pages := emission.layout, emission.runtime.pages;
      var t, e := tapes, Pc(tapes.tape, tapes.used[tapes.tape]);
      SameAddresses(op, y.to, addresses, t.used);
      var page, line := emission.EmitOp(op, Relocate(op, addresses));
      ghost var z, pages' := emission.layout, emission.runtime.pages;
      var pc := emission.GetPC();
      AddressedNext(y, z, addresses, t.used, t.tape);
      FoundNext(y, z, t.tape, e, op, places, pages, pages', Place(page, line));
      tapes := Taken(t, Written(op));
      WaitingStill(y, z, t.saved, t.tape, saved, pages, pages');
      addresses := addresses[Pc(t.tape, tapes.used[t.tape]) := pc];
      places := places[e := Place(page, line)];
    }

    method FillIn(place: Pc, target: Pc)
      requires Valid() && Can(tapes, FilledIn(place, target))
      modifies this, emission, emission.runtime.repr
      ensures Valid() && tapes == Taken(old(tapes), FilledIn(place, target))
      ensures emission.runtime.repr == old(emission.runtime.repr)
    {
      hide Emission.Valid, Runtime.Valid, Relocate, Stays, Addressed, Waiting, Retarget, HasTarget;
      var at := places[place];
      ghost var y := emission.layout;
      emission.RuntimeValid();
      emission.runtime.PageKnown(at.page);
      TargetAddressed(y.to, addresses, tapes.used, target);
      emission.FillIn(at.page, at.line, addresses[target], place, target);
      tapes := Taken(tapes, FilledIn(place, target));
      FoundFilled(y.code, y.at, places, emission.runtime.pages, place, target);
    }

    // The other branch of an if.
    method StartTape()
      requires Valid() && Can(tapes, NewTape)
      modifies this, emission, emission.runtime
      ensures Valid() && tapes == Taken(old(tapes), NewTape)
      ensures old(emission.runtime.repr) <= emission.runtime.repr
      ensures fresh(emission.runtime.repr - old(emission.runtime.repr))
    {
      hide Emission.Valid, Stays, Addressed, Found, Waiting;
      ghost var y, pages := emission.layout, emission.runtime.pages;
      var t := tapes;
      var page := emission.StartElse();
      ghost var z, pages' := emission.layout, emission.runtime.pages;
      tapes := Taken(t, NewTape);
      FoundStill(y, z, tapes.tape, places, pages, pages');
      WaitingMore(y, z, t.saved, t.tape, tapes.tape, saved, page, pages, pages');
      saved := saved + [page];
      ghost var before := addresses;
      addresses := addresses[Pc(tapes.tape, 0) := emission.GetPC()];
      AddressedMore(y, z, before, t.used, tapes.tape);
    }

    method GoBack(tape: nat)
      requires Valid() && Can(tapes, BackTo(tape))
      modifies this, emission, emission.runtime
      ensures Valid() && tapes == Taken(old(tapes), BackTo(tape))
      ensures emission.runtime.repr == old(emission.runtime.repr)
    {
      hide Emission.Valid, Stays, Addressed, Found, Waiting;
      ghost var y, pages := emission.layout, emission.runtime.pages;
      var t, n := tapes, |tapes.saved| - 1;
      WaitingLast(y.ends, t.saved, t.tape, saved, pages);
      emission.EndElse(saved[n], tape);
      ghost var pc := emission.GetPC();
      ghost var z := emission.layout;
      tapes := Taken(t, BackTo(tape));
      FoundStill(y, z, t.tape, places, pages, pages);
      AddressedStill(y, z, addresses, t.used, t.tape);
      WaitingLess(y, z, t.saved, t.tape, saved, pages);
      saved := saved[..n];
    }

    // The address of the function.
    function Start(): (pc: Pc)
      requires Valid()
      reads this, emission, emission.runtime, emission.runtime.repr
      ensures Pc(0, 0) in emission.layout.to && pc == emission.layout.to[Pc(0, 0)]
    {
      assert Within(tapes.used, Pc(0, 0));
      addresses[Pc(0, 0)]
    }

    method Perform(e: Emitted)
      requires Valid() && Can(tapes, e)
      modifies this, emission, emission.runtime, emission.runtime.repr
      ensures Valid() && tapes == Taken(old(tapes), e)
      ensures old(emission.runtime.repr) <= emission.runtime.repr
      ensures fresh(emission.runtime.repr - old(emission.runtime.repr))
    {
      hide Emission.Valid, Tied, Can, Taken;
      match e
      case Written(op) => Write(op);
      case FilledIn(place, target) => FillIn(place, target);
      case NewTape => StartTape();
      case BackTo(tape) => GoBack(tape);
    }

    // Whatever has been emitted can be carried out.
    method PerformAll(log: seq<Emitted>)
      requires Valid() && tapes == BEGINNING && TapesOf(log).Some?
      modifies this, emission, emission.runtime, emission.runtime.repr
      ensures Valid() && TapesOf(log) == Some(tapes)
      ensures old(emission.runtime.repr) <= emission.runtime.repr
      ensures fresh(emission.runtime.repr - old(emission.runtime.repr))
    {
      hide Valid, Can, Taken;
      for i := 0 to |log|
        invariant Valid() && TapesOf(log[..i]) == Some(tapes)
        invariant old(emission.runtime.repr) <= emission.runtime.repr
        invariant fresh(emission.runtime.repr - old(emission.runtime.repr))
      {
        TapesBefore(log, i);
        Perform(log[i]);
      }
      assert log[..|log|] == log;
    }

    lemma TargetAddressed(to: map<Pc, Pc>, addresses: map<Pc, Pc>, used: seq<nat>, pc: Pc)
      requires Addressed(to, addresses, used) && Within(used, pc)
      ensures pc in addresses && pc in to && to[pc] == addresses[pc]
    {
    }
  }
}
