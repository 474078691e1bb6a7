// Minimum-redundancy code lengths (kernel/miniz/miniz.c:764-819): weights, parent
// links, internal depths and leaf depths all live in the same array of 16-bit keys.
module Huffman {
  import opened Arith

  // tdefl_sym_freq
  datatype SymFreq = SymFreq(key: U16, sym: U16)

  // ---------------------------------------------------------------------------------
  // Merge histories.  After k merges, RC(R, k) internal nodes and LC(R, k) leaves have
  // been given a parent; W[t] is the weight of the internal node made by merge t.

  function RC(R: seq<nat>, k: nat): (r: nat)
    requires k <= |R|
  {
    if k == 0 then 0 else R[k - 1]
  }

  function LC(R: seq<nat>, k: nat): (r: int)
    requires k <= |R|
  {
    2 * k - RC(R, k)
  }

  // Merge t takes two items from the fronts of the two queues.
  ghost predicate MergeStep(w: seq<nat>, W: seq<nat>, R: seq<nat>, t: nat)
    requires t < |W| == |R|
  {
    var r := RC(R, t);
    var a := LC(R, t);
    && r <= R[t] <= r + 2
    && R[t] <= t
    && 0 <= a <= LC(R, t + 1) <= |w|
    && (R[t] == r ==> W[t] == w[a] + w[a + 1])
    && (R[t] == r + 1 ==> W[t] == w[a] + W[r])
    && (R[t] == r + 2 ==> W[t] == W[r] + W[r + 1])
  }

  ghost predicate History(w: seq<nat>, W: seq<nat>, R: seq<nat>)
  {
    && |W| == |R|
    && forall t :: 0 <= t < |W| ==> MergeStep(w, W, R, t)
  }

  // Items already taken never outweigh the leaves that remain, and internal nodes are
  // made in order of weight.
  ghost predicate Ordered(w: seq<nat>, W: seq<nat>, R: seq<nat>)
    requires |W| == |R|
  {
    && (forall i, j :: 0 <= i <= j < |W| ==> W[i] <= W[j])
    && (forall k, i, j :: 0 <= k <= |R| && 0 <= i < RC(R, k) && i < |W| && 0 <= LC(R, k) <= j < |w| ==> W[i] <= w[j])
  }

  // t is the merge that consumed internal node i.
  ghost predicate IsParent(R: seq<nat>, i: nat, t: nat)
  {
    t < |R| && RC(R, t) <= i < RC(R, t + 1)
  }

  ghost predicate IsLeafParent(R: seq<nat>, i: nat, t: nat)
  {
    t < |R| && LC(R, t) <= i < LC(R, t + 1)
  }

  ghost predicate AscendingPositive(w: seq<nat>)
  {
    && (forall i :: 0 <= i < |w| ==> w[i] > 0)
    && (forall i, j :: 0 <= i <= j < |w| ==> w[i] <= w[j])
  }

  // The greedy rule of the source: take the front internal node when there is no leaf
  // left or the node is strictly lighter.
  datatype Pick = Pick(weight: nat, leaf: nat, root: nat)

  predicate TakesInternal(w: seq<nat>, W: seq<nat>, leaf: nat, root: nat)
    requires leaf <= |w| && root <= |W|
  {
    leaf == |w| || (root < |W| && W[root] < w[leaf])
  }

  function Take(w: seq<nat>, W: seq<nat>, leaf: nat, root: nat): (p: Pick)
    requires leaf <= |w| && root <= |W| && leaf + root < |w| + |W|
    ensures p.leaf <= |w| && p.root <= |W| && p.leaf + p.root == leaf + root + 1
  {
    if TakesInternal(w, W, leaf, root) then Pick(W[root], leaf, root + 1) else Pick(w[leaf], leaf + 1, root)
  }

  // Total weight of the merges the greedy rule still has to make.
  function GreedyCost(w: seq<nat>, W: seq<nat>, leaf: nat, root: nat): (c: nat)
    requires leaf <= |w| && root <= |W|
    decreases |w| - leaf + |W| - root
  {
    if |w| - leaf + |W| - root <= 1 then 0
    else
      var p := Take(w, W, leaf, root);
      var q := Take(w, W, p.leaf, p.root);
      var made := p.weight + q.weight;
      made + GreedyCost(w, W + [made], q.leaf, q.root)
  }

  ghost function Keys(s: seq<SymFreq>): (w: seq<nat>)
    ensures |w| == |s|
    ensures forall i :: 0 <= i < |s| ==> w[i] == s[i].key
  {
    seq(|s|, i requires 0 <= i < |s| => s[i].key)
  }

  ghost predicate SameSyms(s: seq<SymFreq>, t: seq<SymFreq>)
  {
    |s| == |t| && forall i :: 0 <= i < |s| ==> s[i].sym == t[i].sym
  }

  // What is consumed is what was produced: leaves and internal nodes taken so far weigh
  // as much as the internal nodes made so far.
  lemma {:induction false} Conservation(w: seq<nat>, W: seq<nat>, R: seq<nat>, k: nat)
    requires History(w, W, R) && k <= |W|
    ensures 0 <= LC(R, k) <= |w| && RC(R, k) <= k
    ensures SumTo(w, LC(R, k)) + SumTo(W, RC(R, k)) == SumTo(W, k)
  {
    if k > 0 {
      Conservation(w, W, R, k - 1);
      assert MergeStep(w, W, R, k - 1);
      var a, r := LC(R, k - 1), RC(R, k - 1);
      if R[k - 1] == r {
        assert SumTo(w, a + 2) == SumTo(w, a + 1) + w[a + 1] == SumTo(w, a) + w[a] + w[a + 1];
      } else if R[k - 1] == r + 2 {
        assert SumTo(W, r + 2) == SumTo(W, r + 1) + W[r + 1] == SumTo(W, r) + W[r] + W[r + 1];
      }
    }
  }

  lemma HistorySnoc(w: seq<nat>, W: seq<nat>, R: seq<nat>, x: nat, r: nat)
    requires History(w, W, R)
    requires MergeStep(w, W + [x], R + [r], |W|)
    ensures History(w, W + [x], R + [r])
  {
    forall t | 0 <= t < |W| + 1
      ensures MergeStep(w, W + [x], R + [r], t)
    {
      if t < |W| {
        assert MergeStep(w, W, R, t);
      }
    }
  }

  // A new internal node fits in the 16-bit key because its weight is part of the total.
  lemma NewWeightBounded(w: seq<nat>, W: seq<nat>, R: seq<nat>)
    requires History(w, W, R) && |W| > 0
    ensures W[|W| - 1] <= SumTo(w, |w|)
  {
    var k := |W|;
    Conservation(w, W, R, k);
    assert MergeStep(w, W, R, k - 1);
    SumToMonotone(W, RC(R, k), k);
    SumToMonotone(w, LC(R, k), |w|);
  }

  // No item taken so far is heavier than top and no item still queued is lighter.
  ghost predicate Fronts(w: seq<nat>, W: seq<nat>, leaf: nat, root: nat, top: nat)
  {
    && root < |W| < |w| && leaf <= |w|
    && (forall i :: 0 <= i < root ==> W[i] <= top)
    && (forall i :: root <= i < |W| ==> top <= W[i])
    && (forall j :: leaf <= j < |w| ==> top <= w[j])
    && W[|W| - 1] <= 2 * top
  }

  // The state between two merges.
  ghost predicate Queues(w: seq<nat>, W: seq<nat>, R: seq<nat>, leaf: nat, root: nat, top: nat)
  {
    && |W| == |R| && root == RC(R, |R|) && leaf == LC(R, |R|)
    && AscendingPositive(w) && Fronts(w, W, leaf, root, top)
    && History(w, W, R) && Ordered(w, W, R)
  }

  lemma OrderedSnoc(w: seq<nat>, W: seq<nat>, R: seq<nat>, x: nat, r: nat)
    requires History(w, W, R) && Ordered(w, W, R)
    requires W != [] ==> W[|W| - 1] <= x
    requires r <= |W| && 2 * (|R| + 1) >= r
    requires forall i, j :: 0 <= i < r && 2 * (|R| + 1) - r <= j < |w| ==> W[i] <= w[j]
    ensures Ordered(w, W + [x], R + [r])
  {
    var W', R' := W + [x], R + [r];
    forall k, i, j | 0 <= k <= |R'| && 0 <= i < RC(R', k) && i < |W'| && 0 <= LC(R', k) <= j < |w|
      ensures W'[i] <= w[j]
    {
      if k <= |R| {
        assert RC(R', k) == RC(R, k);
        HistoryBounds(w, W, R, k);
      }
    }
  }

  lemma HistoryBounds(w: seq<nat>, W: seq<nat>, R: seq<nat>, k: nat)
    requires History(w, W, R) && k <= |W|
    ensures RC(R, k) <= k && 0 <= LC(R, k) <= |w|
  {
    if k > 0 {
      assert MergeStep(w, W, R, k - 1);
    }
  }

  lemma FrontsAdvance(w: seq<nat>, W: seq<nat>, leaf: nat, root: nat, top: nat, p: Pick, q: Pick)
    requires AscendingPositive(w) && Fronts(w, W, leaf, root, top)
    requires forall i, j :: 0 <= i <= j < |W| ==> W[i] <= W[j]
    requires |W| + 1 < |w| && leaf + root == 2 * |W|
    requires p == Take(w, W, leaf, root) && q == Take(w, W, p.leaf, p.root)
    ensures top <= p.weight <= q.weight
    ensures Fronts(w, W + [p.weight + q.weight], q.leaf, q.root, q.weight)
  {
  }

  lemma PicksStep(w: seq<nat>, W: seq<nat>, R: seq<nat>, leaf: nat, root: nat, p: Pick, q: Pick)
    requires |W| == |R| && root == RC(R, |R|) && leaf == LC(R, |R|)
    requires root < |W| && |W| + 1 < |w| && leaf <= |w|
    requires p == Take(w, W, leaf, root) && q == Take(w, W, p.leaf, p.root)
    ensures MergeStep(w, W + [p.weight + q.weight], R + [q.root], |W|)
  {
  }

  // One merge of the greedy rule keeps every fact about the queues, and its weight fits
  // in a key.
  lemma Advance(w: seq<nat>, W: seq<nat>, R: seq<nat>, leaf: nat, root: nat, top: nat, p: Pick, q: Pick)
    requires Queues(w, W, R, leaf, root, top) && |W| + 1 < |w|
    requires p == Take(w, W, leaf, root) && q == Take(w, W, p.leaf, p.root)
    ensures Queues(w, W + [p.weight + q.weight], R + [q.root], q.leaf, q.root, q.weight)
    ensures p.weight + q.weight <= SumTo(w, |w|)
  {
    hide MergeStep, History, Take;
    var made := p.weight + q.weight;
    var W', R' := W + [made], R + [q.root];
    FrontsAdvance(w, W, leaf, root, top, p, q);
    PicksStep(w, W, R, leaf, root, p, q);
    HistorySnoc(w, W, R, made, q.root);
    assert q.leaf + q.root == 2 * (|R| + 1);
    forall i, j | 0 <= i < q.root && q.leaf <= j < |w|
      ensures W[i] <= w[j]
    {
      assert W[i] == W'[i];
    }
    OrderedSnoc(w, W, R, made, q.root);
    NewWeightBounded(w, W', R');
  }

  // Where the source keeps everything during the first phase: parent links, then weights
  // of unmerged internal nodes, then unmerged leaves.
  ghost predicate Layout(s: seq<SymFreq>, w: seq<nat>, W: seq<nat>, R: seq<nat>)
  {
    && |s| == |w| && |W| == |R| <= |w|
    && (forall i :: 0 <= i < RC(R, |R|) && i < |s| ==> IsParent(R, i, s[i].key))
    && (forall i :: RC(R, |R|) <= i < |W| ==> s[i].key == W[i])
    && (forall j :: 0 <= LC(R, |R|) <= j < |w| ==> s[j].key == w[j])
  }

  lemma ParentSnoc(R: seq<nat>, r: nat, i: nat, t: nat)
    requires IsParent(R, i, t)
    ensures IsParent(R + [r], i, t)
  {
  }

  lemma LayoutSnoc(s: seq<SymFreq>, s': seq<SymFreq>, w: seq<nat>, W: seq<nat>, R: seq<nat>, x: nat, r: nat)
    requires Layout(s, w, W, R) && |s'| == |s| && |W| < |w|
    requires RC(R, |R|) <= r <= RC(R, |R|) + 2 && r <= |W|
    requires |W| < 2 * (|R| + 1) - r
    requires s'[|W|].key == x
    requires forall i :: RC(R, |R|) <= i < r ==> s'[i].key == |W|
    requires forall i :: 0 <= i < |s| && i != |W| && !(RC(R, |R|) <= i < r) ==> s'[i].key == s[i].key
    ensures Layout(s', w, W + [x], R + [r])
  {
    forall i | 0 <= i < RC(R, |R|)
      ensures i < |s| ==> IsParent(R + [r], i, s'[i].key)
    {
      if i < |s| {
        ParentSnoc(R, r, i, s[i].key);
      }
    }
  }

  // The first half of a merge: key `next` receives the first item taken.
  method TakeFirst(A: array<SymFreq>, next: nat, root0: nat, leaf0: nat, ghost w: seq<nat>, ghost W: seq<nat>)
    returns (root: nat, leaf: nat)
    requires next < leaf0 <= A.Length == |w| && A.Length < 0x1_0000
    requires root0 < next == |W|
    requires forall i :: root0 <= i < next ==> A[i].key == W[i]
    requires forall j :: leaf0 <= j < |w| ==> A[j].key == w[j]
    modifies A
    ensures Pick(A[next].key, leaf, root) == Take(w, W, leaf0, root0)
    ensures root0 < root ==> A[root0].key == next
    ensures forall i :: 0 <= i < A.Length ==> A[i].sym == old(A[i].sym)
    ensures forall i :: 0 <= i < A.Length && i != next && !(root0 <= i < root) ==> A[i].key == old(A[i].key)
  {
    root, leaf := root0, leaf0;
    if leaf >= A.Length || A[root].key < A[leaf].key {
      A[next] := A[next].(key := A[root].key);
      A[root] := A[root].(key := next);
      root := root + 1;
    } else {
      A[next] := A[next].(key := A[leaf].key);
      leaf := leaf + 1;
    }
  }

  // The second half: key `next` accumulates the second item taken.
  method TakeSecond(A: array<SymFreq>, next: nat, root1: nat, leaf1: nat, ghost w: seq<nat>, ghost W: seq<nat>,
      ghost q: Pick)
    returns (root: nat, leaf: nat)
    requires leaf1 <= A.Length == |w| && A.Length < 0x1_0000 && next < A.Length
    requires next < leaf1 && root1 <= next == |W| && leaf1 + root1 < |w| + |W|
    requires forall i :: root1 <= i < next ==> A[i].key == W[i]
    requires forall j :: leaf1 <= j < |w| ==> A[j].key == w[j]
    requires q == Take(w, W, leaf1, root1) && A[next].key + q.weight < 0x1_0000
    modifies A
    ensures A[next].key == old(A[next].key) + q.weight
    ensures leaf == q.leaf && root == q.root
    ensures root1 < root ==> A[root1].key == next
    ensures forall i :: 0 <= i < A.Length ==> A[i].sym == old(A[i].sym)
    ensures forall i :: 0 <= i < A.Length && i != next && !(root1 <= i < root) ==> A[i].key == old(A[i].key)
  {
    root, leaf := root1, leaf1;
    if leaf >= A.Length || (root < next && A[root].key < A[leaf].key) {
      A[next] := A[next].(key := A[next].key + A[root].key);
      A[root] := A[root].(key := next);
      root := root + 1;
    } else {
      A[next] := A[next].(key := A[next].key + A[leaf].key);
      leaf := leaf + 1;
    }
  }

  // The body of the merging loop (source lines 779-795).
  method MergeOnce(A: array<SymFreq>, next: nat, root0: nat, leaf0: nat, ghost w: seq<nat>, ghost W: seq<nat>,
      ghost R: seq<nat>)
    returns (root: nat, leaf: nat, ghost made: nat)
    requires leaf0 <= A.Length == |w| && A.Length < 0x1_0000
    requires next == |W| == |R| && next + 1 < |w|
    requires root0 == RC(R, |R|) < next && leaf0 == LC(R, |R|)
    requires Layout(A[..], w, W, R)
    requires var p := Take(w, W, leaf0, root0); p.weight + Take(w, W, p.leaf, p.root).weight < 0x1_0000
    modifies A
    ensures var p := Take(w, W, leaf0, root0);
            var q := Take(w, W, p.leaf, p.root);
            made == p.weight + q.weight && root == q.root && leaf == q.leaf
    ensures Layout(A[..], w, W + [made], R + [root])
    ensures SameSyms(old(A[..]), A[..])
  {
    hide IsParent;
    ghost var s := A[..];
    ghost var p := Take(w, W, leaf0, root0);
    ghost var q := Take(w, W, p.leaf, p.root);
    made := p.weight + q.weight;
    root, leaf := TakeFirst(A, next, root0, leaf0, w, W);
    root, leaf := TakeSecond(A, next, root, leaf, w, W, q);
    LayoutSnoc(s, A[..], w, W, R, made, root);
  }

  // The merge made before the loop takes two leaves.
  lemma FirstMerge(w: seq<nat>)
    requires AscendingPositive(w) && |w| >= 2
    ensures w[0] + w[1] <= SumTo(w, |w|)
    ensures Queues(w, [w[0] + w[1]], [0], 2, 0, w[1])
    ensures SumTo([w[0] + w[1]], 1) + GreedyCost(w, [w[0] + w[1]], 2, 0) == GreedyCost(w, [], 0, 0)
  {
    hide GreedyCost;
    var W: seq<nat> := [w[0] + w[1]];
    SumToMonotone(w, 2, |w|);
    assert SumTo(w, 2) == SumTo(w, 1) + w[1] == SumTo(w, 0) + w[0] + w[1];
    assert SumTo(W, 1) == SumTo(W, 0) + W[0];
    assert MergeStep(w, W, [0], 0);
    FirstCost(w);
  }

  lemma FirstCost(w: seq<nat>)
    requires |w| >= 2
    ensures GreedyCost(w, [], 0, 0) == w[0] + w[1] + GreedyCost(w, [w[0] + w[1]], 2, 0)
  {
    assert Take(w, [], 0, 0) == Pick(w[0], 1, 0) && Take(w, [], 1, 0) == Pick(w[1], 2, 0);
    assert [] + [w[0] + w[1]] == [w[0] + w[1]];
  }

  lemma CostAdvance(w: seq<nat>, W: seq<nat>, leaf: nat, root: nat)
    requires leaf <= |w| && root <= |W| && |w| - leaf + |W| - root >= 2
    ensures var p := Take(w, W, leaf, root);
            var q := Take(w, W, p.leaf, p.root);
            var made := p.weight + q.weight;
            SumTo(W + [made], |W| + 1) + GreedyCost(w, W + [made], q.leaf, q.root)
              == SumTo(W, |W|) + GreedyCost(w, W, leaf, root)
  {
    var p := Take(w, W, leaf, root);
    var q := Take(w, W, p.leaf, p.root);
    SumToPrefix(W, W + [p.weight + q.weight], |W|);
  }

  // First phase (source lines 776-796).
  method MergeLoop(A: array<SymFreq>, ghost w: seq<nat>, ghost W0: seq<nat>, ghost R0: seq<nat>, ghost top0: nat)
    returns (ghost W: seq<nat>, ghost R: seq<nat>, ghost leaf: nat, ghost root: nat, ghost top: nat)
    requires 2 <= A.Length < 0x1_0000 && |w| == A.Length && SumTo(w, A.Length) < 0x1_0000
    requires |W0| == |R0| == 1 && RC(R0, 1) == 0 && LC(R0, 1) == 2
    requires Queues(w, W0, R0, 2, 0, top0) && Layout(A[..], w, W0, R0)
    modifies A
    ensures SameSyms(old(A[..]), A[..])
    ensures |W| == |R| == A.Length - 1
    ensures Queues(w, W, R, leaf, root, top) && Layout(A[..], w, W, R)
    ensures SumTo(W, |W|) + GreedyCost(w, W, leaf, root) == SumTo(W0, 1) + GreedyCost(w, W0, 2, 0)
  {
    hide *;
    SameSymsRefl(A[..]);
    QueuesBounds(w, W0, R0, 2, 0, top0);
    W, R, top := W0, R0, top0;
    var rt, lf := 0, 2;
    var next := 1;
    while next < A.Length - 1
      invariant 1 <= next <= A.Length - 1
      invariant |W| == |R| == next
      invariant rt == RC(R, |R|) < next && lf == LC(R, |R|) <= |w| && lf + rt == 2 * next
      invariant Queues(w, W, R, lf, rt, top) && Layout(A[..], w, W, R)
      invariant SameSyms(old(A[..]), A[..])
      invariant SumTo(W, |W|) + GreedyCost(w, W, lf, rt) == SumTo(W0, 1) + GreedyCost(w, W0, 2, 0)
    {
      ghost var p := Take(w, W, lf, rt);
      ghost var q := Take(w, W, p.leaf, p.root);
      Advance(w, W, R, lf, rt, top, p, q);
      CostAdvance(w, W, lf, rt);
      ghost var s := A[..];
      ghost var made;
      rt, lf, made := MergeOnce(A, next, rt, lf, w, W, R);
      SameSymsTrans(old(A[..]), s, A[..]);
      W, R, top, next := W + [made], R + [rt], q.weight, next + 1;
      QueuesBounds(w, W, R, lf, rt, top);
    }
    leaf, root := lf, rt;
  }

  lemma SameSymsRefl(s: seq<SymFreq>)
    ensures SameSyms(s, s)
  {
  }

  lemma SameSymsTrans(s: seq<SymFreq>, t: seq<SymFreq>, u: seq<SymFreq>)
    requires SameSyms(s, t) && SameSyms(t, u)
    ensures SameSyms(s, u)
  {
  }

  lemma QueuesBounds(w: seq<nat>, W: seq<nat>, R: seq<nat>, leaf: nat, root: nat, top: nat)
    requires Queues(w, W, R, leaf, root, top)
    ensures |W| == |R| && root == RC(R, |R|) < |W| && leaf == LC(R, |R|) <= |w|
    ensures leaf + root == 2 * |W|
  {
  }

  // When every merge has been made, only the last internal node is left.
  lemma QueuesDone(w: seq<nat>, W: seq<nat>, R: seq<nat>, leaf: nat, root: nat, top: nat)
    requires Queues(w, W, R, leaf, root, top) && |W| + 1 == |w|
    ensures root + 1 == |W| && GreedyCost(w, W, leaf, root) == 0
    ensures History(w, W, R) && Ordered(w, W, R)
  {
  }

  method MergePhase(A: array<SymFreq>) returns (ghost W: seq<nat>, ghost R: seq<nat>)
    requires 2 <= A.Length < 0x1_0000
    requires AscendingPositive(Keys(A[..]))
    requires SumTo(Keys(A[..]), A.Length) < 0x1_0000
    modifies A
    ensures SameSyms(old(A[..]), A[..])
    ensures History(old(Keys(A[..])), W, R) && Ordered(old(Keys(A[..])), W, R)
    ensures |W| == |R| == A.Length - 1 && RC(R, A.Length - 1) == A.Length - 2
    ensures forall i :: 0 <= i < A.Length - 2 ==> IsParent(R, i, A[i].key)
    ensures SumTo(W, A.Length - 1) == GreedyCost(old(Keys(A[..])), [], 0, 0)
  {
    hide Queues, History, Ordered, GreedyCost, IsParent;
    ghost var w := Keys(A[..]);
    FirstMerge(w);
    A[0] := A[0].(key := A[0].key + A[1].key);
    ghost var W0: seq<nat>, R0: seq<nat> := [w[0] + w[1]], [0];
    ghost var leaf, root, top;
    W, R, leaf, root, top := MergeLoop(A, w, W0, R0, w[1]);
    QueuesBounds(w, W, R, leaf, root, top);
    QueuesDone(w, W, R, leaf, root, top);
  }

  // ---------------------------------------------------------------------------------
  // Depths.  D gives the depth of every internal node, l that of every leaf.

  ghost predicate FullHistory(R: seq<nat>)
  {
    && |R| >= 1 && RC(R, |R|) == |R| - 1
    && forall t :: 0 <= t < |R| ==> RC(R, t) <= R[t] <= RC(R, t) + 2 && R[t] <= t
  }

  ghost predicate Depths(R: seq<nat>, D: seq<nat>)
  {
    && |D| == |R| >= 1 && D[|R| - 1] == 0
    && forall i: nat, t: nat :: IsParent(R, i, t) && t < |D| && i < |D| ==> D[i] == D[t] + 1
  }

  ghost predicate LeafDepths(R: seq<nat>, D: seq<nat>, l: seq<nat>)
  {
    && |D| == |R|
    && forall i: nat, t: nat :: IsLeafParent(R, i, t) && t < |D| && i < |l| ==> l[i] == D[t] + 1
  }

  lemma {:induction false} FindParent(R: seq<nat>, i: nat, k: nat) returns (t: nat)
    requires FullHistory(R) && k <= |R| && i < RC(R, k)
    ensures t < k && IsParent(R, i, t) && i < t
  {
    if RC(R, k - 1) <= i {
      t := k - 1;
    } else {
      t := FindParent(R, i, k - 1);
    }
  }

  lemma {:induction false} FindLeafParent(R: seq<nat>, i: nat, k: nat) returns (t: nat)
    requires FullHistory(R) && k <= |R| && i < LC(R, k)
    ensures t < k && IsLeafParent(R, i, t)
  {
    if LC(R, k - 1) <= i {
      t := k - 1;
    } else {
      t := FindLeafParent(R, i, k - 1);
    }
  }

  lemma {:induction false} RCMonotone(R: seq<nat>, j: nat, k: nat)
    requires FullHistory(R) && j <= k <= |R|
    ensures RC(R, j) <= RC(R, k) && LC(R, j) <= LC(R, k) && 0 <= LC(R, k)
    decreases k
  {
    if j < k {
      RCMonotone(R, j, k - 1);
    } else if k > 0 {
      RCMonotone(R, 0, k - 1);
    }
  }

  lemma ParentsForward(R: seq<nat>, i: nat, t: nat)
    requires FullHistory(R) && IsParent(R, i, t)
    ensures i < t < |R| && i < |R| - 1
  {
    RCMonotone(R, t + 1, |R|);
  }

  // Following parent links from the root down gives the depths.
  lemma DepthsFromLinks(R: seq<nat>, P: seq<nat>, D: seq<nat>)
    requires FullHistory(R) && |D| == |R| == |P| && D[|R| - 1] == 0
    requires forall i :: 0 <= i < |R| - 1 ==> IsParent(R, i, P[i]) && D[i] == D[P[i]] + 1
    ensures Depths(R, D)
  {
    forall i: nat, t: nat | IsParent(R, i, t) && t < |D| && i < |D|
      ensures D[i] == D[t] + 1
    {
      ParentsForward(R, i, t);
      ParentUnique(R, i, t, P[i]);
    }
  }

  // Up to `next` the keys are parents, after it they are depths.
  predicate Followed(A: seq<SymFreq>, P: seq<nat>, next: int) {
    && |A| == |P| + 1 && 1 <= |P| && -1 <= next < |P| && A[|P| - 1].key == 0
    && (forall i :: 0 <= i <= next && i < |P| - 1 ==> A[i].key == P[i])
    && (forall i :: next < i < |P| ==> A[i].key <= |P| - 1 - i)
    && (forall i :: next < i < |P| - 1 ==> i < P[i] < |P| && A[i].key == A[P[i]].key + 1)
  }

  lemma FollowedStep(A: seq<SymFreq>, P: seq<nat>, next: nat)
    requires Followed(A, P, next) && next < |P| - 1 && next < P[next] < |P| && |A| < 0x1_0000
    ensures A[next].key == P[next] && A[P[next]].key + 1 < 0x1_0000
    ensures Followed(A[next := A[next].(key := A[P[next]].key + 1)], P, next - 1)
  {
    var B := A[next := A[next].(key := A[P[next]].key + 1)];
    forall i | next < i < |P| - 1 ensures i < P[i] < |P| && B[i].key == B[P[i]].key + 1 {
      assert A[i].key == A[P[i]].key + 1;
    }
  }

  // Second phase (source lines 796-798).
  method FollowLinks(A: array<SymFreq>, ghost P: seq<nat>)
    requires 2 <= A.Length < 0x1_0000 && |P| == A.Length - 1
    requires forall i :: 0 <= i < |P| - 1 ==> A[i].key == P[i]
    requires forall i :: 0 <= i < |P| - 1 ==> i < P[i] < |P|
    modifies A
    ensures forall i :: 0 <= i < A.Length ==> A[i].sym == old(A[i].sym)
    ensures A[A.Length - 2].key == 0
    ensures forall i {:trigger P[i]} :: 0 <= i < |P| - 1 ==> A[i].key == A[P[i]].key + 1
  {
    var n := A.Length;
    A[n - 2] := A[n - 2].(key := 0);
    var next := n - 3;
    while next >= 0
      invariant -1 <= next <= n - 3 && Followed(A[..], P, next)
      invariant forall i :: 0 <= i < n ==> A[i].sym == old(A[i].sym)
    {
      FollowedStep(A[..], P, next);
      A[next] := A[next].(key := A[A[next].key].key + 1);
      next := next - 1;
    }
  }

  method DepthPhase(A: array<SymFreq>, ghost R: seq<nat>) returns (ghost D: seq<nat>)
    requires 2 <= A.Length < 0x1_0000 && |R| == A.Length - 1 && FullHistory(R)
    requires forall i :: 0 <= i < A.Length - 2 ==> IsParent(R, i, A[i].key)
    modifies A
    ensures SameSyms(old(A[..]), A[..])
    ensures Depths(R, D) && forall i :: 0 <= i < |D| ==> A[i].key == D[i]
  {
    var n := A.Length;
    ghost var P := Keys(A[..n - 1]);
    forall i | 0 <= i < n - 2
      ensures i < P[i] < n - 1
    {
      ParentsForward(R, i, P[i]);
    }
    FollowLinks(A, P);
    D := Keys(A[..n - 1]);
    DepthsFromLinks(R, P, D);
  }

  lemma ParentUnique(R: seq<nat>, i: nat, t: nat, u: nat)
    requires FullHistory(R) && IsParent(R, i, t) && IsParent(R, i, u)
    ensures t == u
  {
    if t < u {
      RCMonotone(R, t + 1, u);
    } else if u < t {
      RCMonotone(R, u + 1, t);
    }
  }

  // Deeper internal nodes come first.
  lemma {:induction false} DepthsDescend(R: seq<nat>, D: seq<nat>, i: nat, j: nat)
    requires FullHistory(R) && Depths(R, D) && i <= j < |D|
    ensures D[i] >= D[j]
    decreases |D| - i
  {
    if i < j && j < |D| - 1 {
      var t := FindParent(R, i, |R|);
      var u := FindParent(R, j, |R|);
      if u < t {
        RCMonotone(R, u + 1, t);
      }
      DepthsDescend(R, D, t, u);
    }
  }

  // ---------------------------------------------------------------------------------
  // Level-by-level assignment.  When depth dpth is reached, internal nodes above root and
  // leaves above next have shallower depths; avbl nodes lie at depth dpth.

  ghost predicate Level(R: seq<nat>, D: seq<nat>, root: int, next: int, dpth: nat, avbl: nat)
    requires |R| == |D|
  {
    && -1 <= root < |R| && next <= |R| && next - root == avbl
    && RC(R, root + 1) <= root + 1
    && 0 <= LC(R, root + 1) <= next + 1
    && (forall i :: 0 <= i < RC(R, root + 1) ==> D[i] > dpth)
    && (forall i :: RC(R, root + 1) <= i <= root ==> D[i] == dpth)
    && (forall i: nat, t: nat :: IsLeafParent(R, i, t) && t < |D| && LC(R, root + 1) <= i <= next ==> D[t] + 1 == dpth)
  }

  lemma RCBelow(R: seq<nat>, k: nat)
    requires FullHistory(R) && k <= |R|
    ensures RC(R, k) <= k && 0 <= LC(R, k) && (0 < k ==> RC(R, k) < k)
  {
    RCMonotone(R, 0, k);
  }

  lemma LevelInit(R: seq<nat>, D: seq<nat>)
    requires FullHistory(R) && Depths(R, D)
    ensures Level(R, D, |R| - 1, |R|, 0, 1)
  {
    RCBelow(R, |R|);
    forall i | 0 <= i < RC(R, |R|)
      ensures D[i] > 0
    {
      var t := FindParent(R, i, |R|);
    }
  }

  lemma LevelNextInternal(R: seq<nat>, D: seq<nat>, root: nat, dpth: nat, i: nat)
    requires FullHistory(R) && Depths(R, D) && root < |R| && i < RC(R, root + 1)
    requires RC(R, root + 1) <= root + 1
    requires forall j :: 0 <= j < RC(R, root + 1) ==> D[j] > dpth
    requires forall j :: RC(R, root + 1) <= j <= root ==> D[j] == dpth
    ensures D[i] == dpth + 1 <==> RC(R, RC(R, root + 1)) <= i
    ensures D[i] > dpth
  {
    hide Depths;
    var r := RC(R, root + 1);
    var t := FindParent(R, i, root + 1);
    DepthOfChild(R, D, i, t);
    if r <= t {
      RCMonotone(R, r, t);
    } else {
      RCMonotone(R, t + 1, r);
    }
  }

  lemma DepthOfChild(R: seq<nat>, D: seq<nat>, i: nat, t: nat)
    requires FullHistory(R) && Depths(R, D) && IsParent(R, i, t)
    ensures i < |D| && D[i] == D[t] + 1
  {
    ParentsForward(R, i, t);
  }

  lemma LevelNextLeaf(R: seq<nat>, D: seq<nat>, root: nat, dpth: nat, i: nat, t: nat)
    requires FullHistory(R) && |D| == |R| && root < |R|
    requires RC(R, root + 1) <= root + 1
    requires forall j :: RC(R, root + 1) <= j <= root ==> D[j] == dpth
    requires IsLeafParent(R, i, t) && LC(R, RC(R, root + 1)) <= i < LC(R, root + 1)
    ensures D[t] == dpth
  {
    var r := RC(R, root + 1);
    if t < r {
      RCMonotone(R, t + 1, r);
    } else if root < t {
      RCMonotone(R, root + 1, t);
    }
  }

  lemma LevelBounds(R: seq<nat>, D: seq<nat>, root: int, next: int, dpth: nat, avbl: nat)
    requires FullHistory(R) && Depths(R, D) && Level(R, D, root, next, dpth, avbl)
    ensures var root', next' := RC(R, root + 1) - 1, LC(R, root + 1) - 1;
            && |D| == |R| && -1 <= root' <= root && next' <= |R|
            && (0 <= root ==> root' < root)
            && next' - root' == 2 * (root - root')
            && 0 <= RC(R, root' + 1) <= root' + 1
            && 0 <= LC(R, root' + 1) <= next' + 1
  {
    RCBelow(R, root + 1);
    RCBelow(R, RC(R, root + 1));
    RCMonotone(R, RC(R, root + 1), root + 1);
    RCMonotone(R, root + 1, |R|);
  }

  // The children of the nodes found at depth dpth are the nodes at depth dpth + 1.
  lemma LevelNext(R: seq<nat>, D: seq<nat>, root: int, next: int, dpth: nat, avbl: nat)
    requires FullHistory(R) && Depths(R, D) && Level(R, D, root, next, dpth, avbl)
    ensures var root' := RC(R, root + 1) - 1;
            Level(R, D, root', LC(R, root + 1) - 1, dpth + 1, 2 * (root - root')) && (0 <= root ==> root' < root)
  {
    hide FullHistory, Depths, IsLeafParent, RC, LC;
    var root', next' := RC(R, root + 1) - 1, LC(R, root + 1) - 1;
    LevelBounds(R, D, root, next, dpth, avbl);
    forall i | 0 <= i <= root'
      ensures D[i] == dpth + 1 <==> RC(R, root' + 1) <= i
      ensures D[i] > dpth
    {
      LevelNextInternal(R, D, root, dpth, i);
    }
    forall i: nat, t: nat | IsLeafParent(R, i, t) && t < |D| && LC(R, root' + 1) <= i <= next'
      ensures D[t] == dpth
    {
      if root >= 0 {
        LevelNextLeaf(R, D, root, dpth, i, t);
      }
    }
  }

  // One depth of the third phase: count the internal nodes, then label the leaves
  // (source lines 805-814).
  method AssignLevel(A: array<SymFreq>, root0: int, next0: int, dpth: nat, avbl: nat, ghost R: seq<nat>,
      ghost D: seq<nat>)
    returns (root: int, next: int, used: nat)
    requires |R| == |D| == A.Length - 1 && A.Length < 0x1_0000 && dpth < 0x1_0000
    requires Level(R, D, root0, next0, dpth, avbl) && -1 <= RC(R, root0 + 1) - 1 <= root0
    requires forall i :: 0 <= i <= root0 ==> A[i].key == D[i]
    modifies A
    ensures root == RC(R, root0 + 1) - 1 && next == LC(R, root0 + 1) - 1 && used == root0 - root
    ensures forall i :: 0 <= i < A.Length ==> A[i].sym == old(A[i].sym)
    ensures forall i :: next < i <= next0 ==> A[i].key == dpth
    ensures forall i :: 0 <= i < A.Length && !(next < i <= next0) ==> A[i].key == old(A[i].key)
  {
    hide IsLeafParent;
    root, next, used := root0, next0, 0;
    while root >= 0 && A[root].key == dpth
      invariant RC(R, root0 + 1) - 1 <= root <= root0
      invariant used == root0 - root
    {
      used := used + 1;
      root := root - 1;
    }
    var left := avbl;
    while left > used
      invariant used <= left <= avbl && next - root0 == left
      invariant forall i :: 0 <= i < A.Length ==> A[i].sym == old(A[i].sym)
      invariant forall i :: next < i <= next0 ==> A[i].key == dpth
      invariant forall i :: 0 <= i < A.Length && !(next < i <= next0) ==> A[i].key == old(A[i].key)
    {
      A[next] := A[next].(key := dpth);
      next := next - 1;
      left := left - 1;
    }
  }

  // Third phase (source lines 799-818).
  method AssignPhase(A: array<SymFreq>, ghost R: seq<nat>, ghost D: seq<nat>)
    requires 2 <= A.Length < 0x1_0000 && |R| == A.Length - 1
    requires FullHistory(R) && Depths(R, D)
    requires forall i :: 0 <= i < |D| ==> A[i].key == D[i]
    modifies A
    ensures SameSyms(old(A[..]), A[..])
    ensures LeafDepths(R, D, Keys(A[..]))
  {
    hide IsLeafParent, Level, FullHistory;
    var n := A.Length;
    var avbl, used, dpth := 1, 0, 0;
    var root, next := n - 2, n - 1;
    LevelInit(R, D);
    while avbl > 0
      invariant -1 <= root <= n - 2 && -1 <= next <= n - 1 && next - root == avbl
      invariant Level(R, D, root, next, dpth, avbl)
      invariant 0 <= root ==> avbl > 0
      invariant dpth <= n - 1 - root && (avbl > 0 ==> dpth <= n - 2 - root)
      invariant forall i :: 0 <= i < n ==> A[i].sym == old(A[i].sym)
      invariant forall i :: 0 <= i <= root ==> A[i].key == D[i]
      invariant forall i: nat, t: nat :: IsLeafParent(R, i, t) && t < |D| && next < i < n ==> A[i].key == D[t] + 1
      decreases root + 1, avbl
    {
      LevelBounds(R, D, root, next, dpth, avbl);
      LevelNext(R, D, root, next, dpth, avbl);
      LevelLeaves(R, D, root, next, dpth, avbl);
      root, next, used := AssignLevel(A, root, next, dpth, avbl, R, D);
      avbl := 2 * used;
      dpth := dpth + 1;
      used := 0;
    }
  }

  lemma LevelLeaves(R: seq<nat>, D: seq<nat>, root: int, next: int, dpth: nat, avbl: nat)
    requires |R| == |D| && Level(R, D, root, next, dpth, avbl)
    ensures forall i: nat, t: nat :: IsLeafParent(R, i, t) && t < |D| && LC(R, root + 1) <= i <= next ==>
              D[t] + 1 == dpth
  {
  }

  // ---------------------------------------------------------------------------------
  // What the depths mean.

  lemma FullHistoryOf(w: seq<nat>, W: seq<nat>, R: seq<nat>)
    requires History(w, W, R) && |W| >= 1 && RC(R, |R|) == |R| - 1
    ensures FullHistory(R)
  {
    forall t | 0 <= t < |R|
      ensures RC(R, t) <= R[t] <= RC(R, t) + 2 && R[t] <= t
    {
      assert MergeStep(w, W, R, t);
    }
  }

  // The children taken by merge t lie one level below it.
  lemma ChildDepths(R: seq<nat>, D: seq<nat>, l: seq<nat>, t: nat)
    requires FullHistory(R) && Depths(R, D) && LeafDepths(R, D, l) && t < |R| && |l| == |R| + 1
    ensures LC(R, t + 1) <= |l| && RC(R, t + 1) < |D| && 0 <= LC(R, t)
    ensures forall i: nat :: RC(R, t) <= i < RC(R, t + 1) ==> D[i] == D[t] + 1
    ensures forall i: nat :: LC(R, t) <= i < LC(R, t + 1) ==> l[i] == D[t] + 1
  {
    RCMonotone(R, t + 1, |R|);
    RCMonotone(R, 0, t);
    RCBelow(R, t + 1);
    forall i: nat | RC(R, t) <= i < RC(R, t + 1)
      ensures D[i] == D[t] + 1
    {
      assert IsParent(R, i, t);
    }
    forall i: nat | LC(R, t) <= i < LC(R, t + 1)
      ensures l[i] == D[t] + 1
    {
      assert IsLeafParent(R, i, t);
    }
  }

  lemma {:induction false} KraftRun(m: nat, d: seq<nat>, i: nat, j: nat, v: nat)
    requires i <= j <= |d| && v <= m
    requires forall x :: 0 <= x < j ==> d[x] <= m
    requires forall x :: i <= x < j ==> d[x] == v
    ensures KraftTo(m, d, j) == KraftTo(m, d, i) + (j - i) * Pow2(m - v)
    decreases j
  {
    if i < j {
      KraftRun(m, d, i, j - 1, v);
      assert (j - i) * Pow2(m - v) == (j - 1 - i) * Pow2(m - v) + Pow2(m - v);
    }
  }

  lemma {:induction false} DotRun(s: seq<nat>, d: seq<nat>, i: nat, j: nat, v: nat)
    requires i <= j <= |d| && j <= |s|
    requires forall x :: i <= x < j ==> d[x] == v
    ensures DotTo(s, d, j) - DotTo(s, d, i) == (SumTo(s, j) - SumTo(s, i)) * v
    decreases j
  {
    if i < j {
      DotRun(s, d, i, j - 1, v);
      assert (SumTo(s, j) - SumTo(s, i)) * v == (SumTo(s, j - 1) - SumTo(s, i)) * v + s[j - 1] * v;
    }
  }

  // Kraft balance: nodes that have a parent cover exactly what their parents cover.
  lemma {:induction false} KraftBalance(m: nat, R: seq<nat>, D: seq<nat>, l: seq<nat>, k: nat)
    requires FullHistory(R) && Depths(R, D) && LeafDepths(R, D, l) && |l| == |R| + 1 == |D| + 1 && k <= |R|
    requires (forall i :: 0 <= i < |l| ==> l[i] <= m) && (forall i :: 0 <= i < |D| ==> D[i] < m)
    ensures 0 <= LC(R, k) <= |l| && RC(R, k) <= |D|
    ensures KraftTo(m, l, LC(R, k)) + KraftTo(m, D, RC(R, k)) == KraftTo(m, D, k)
  {
    hide FullHistory, Depths, LeafDepths, LC, RC;
    if k == 0 {
      NoneChild(R);
    } else {
      KraftBalance(m, R, D, l, k - 1);
      ChildDepths(R, D, l, k - 1);
      RCStep(R, k - 1);
      var a, a', r, r', v := LC(R, k - 1), LC(R, k), RC(R, k - 1), RC(R, k), D[k - 1] + 1;
      KraftRun(m, l, a, a', v);
      KraftRun(m, D, r, r', v);
      BothChildren(a' - a, r' - r, Pow2(m - v));
    }
  }

  lemma BothChildren(a: int, r: int, u: nat)
    requires a + r == 2
    ensures a * u + r * u == 2 * u
  {
    Distribute(a, r, u);
  }

  lemma RCStep(R: seq<nat>, t: nat)
    requires FullHistory(R) && t < |R|
    ensures RC(R, t) <= RC(R, t + 1) <= RC(R, t) + 2
    ensures LC(R, t) <= LC(R, t + 1)
    ensures LC(R, t + 1) - LC(R, t) + RC(R, t + 1) - RC(R, t) == 2
  {
  }

  lemma DepthProducts(dw: int, dW: int, x: nat, d: nat)
    requires dw + dW == x
    ensures dw * (d + 1) + dW * (d + 1) == x * d + x
  {
    assert dw * (d + 1) + dW * (d + 1) == (dw + dW) * (d + 1);
  }

  lemma NoneChild(R: seq<nat>)
    ensures LC(R, 0) == 0 && RC(R, 0) == 0
  {
  }

  // Cost balance: total weighted leaf depth is the total weight of the merges.
  lemma {:induction false} CostBalance(w: seq<nat>, W: seq<nat>, R: seq<nat>, D: seq<nat>, l: seq<nat>, k: nat)
    requires |l| == |w| == |R| + 1 && |D| == |W| == |R| && k <= |R|
    requires History(w, W, R) && FullHistory(R) && Depths(R, D) && LeafDepths(R, D, l)
    ensures 0 <= LC(R, k) <= |l| && RC(R, k) <= |D|
    ensures DotTo(w, l, LC(R, k)) + DotTo(W, D, RC(R, k)) == DotTo(W, D, k) + SumTo(W, k)
  {
    hide History, FullHistory, Depths, LeafDepths, LC, RC;
    Conservation(w, W, R, k);
    if k == 0 {
      NoneChild(R);
    } else {
      CostBalance(w, W, R, D, l, k - 1);
      Conservation(w, W, R, k - 1);
      ChildDepths(R, D, l, k - 1);
      RCStep(R, k - 1);
      var a, a', r, r', v := LC(R, k - 1), LC(R, k), RC(R, k - 1), RC(R, k), D[k - 1] + 1;
      DotRun(w, l, a, a', v);
      DotRun(W, D, r, r', v);
      DepthProducts(SumTo(w, a') - SumTo(w, a), SumTo(W, r') - SumTo(W, r), W[k - 1], D[k - 1]);
    }
  }

  lemma Roots(R: seq<nat>, D: seq<nat>)
    requires FullHistory(R) && Depths(R, D)
    ensures |D| == |R| > 0 && RC(R, |R|) == |R| - 1 && LC(R, |R|) == |R| + 1 && D[|R| - 1] == 0
  {
  }

  // The root covers everything: the leaf depths form a complete prefix code.
  lemma LeavesComplete(m: nat, R: seq<nat>, D: seq<nat>, l: seq<nat>)
    requires FullHistory(R) && Depths(R, D) && LeafDepths(R, D, l) && |l| == |R| + 1 == |D| + 1
    requires (forall i :: 0 <= i < |l| ==> l[i] <= m) && (forall i :: 0 <= i < |D| ==> D[i] < m)
    ensures KraftTo(m, l, |l|) == Pow2(m)
  {
    hide FullHistory, Depths, LeafDepths;
    KraftBalance(m, R, D, l, |R|);
    Roots(R, D);
    assert KraftTo(m, D, |D|) == KraftTo(m, D, |D| - 1) + Pow2(m - D[|D| - 1]);
  }

  lemma LeavesCost(w: seq<nat>, W: seq<nat>, R: seq<nat>, D: seq<nat>, l: seq<nat>)
    requires |l| == |w| == |R| + 1 && |D| == |W| == |R|
    requires History(w, W, R) && FullHistory(R) && Depths(R, D) && LeafDepths(R, D, l)
    ensures DotTo(w, l, |w|) == SumTo(W, |W|)
  {
    hide FullHistory, Depths, LeafDepths, History;
    CostBalance(w, W, R, D, l, |R|);
    Roots(R, D);
    assert DotTo(W, D, |D|) == DotTo(W, D, |D| - 1) + W[|D| - 1] * D[|D| - 1];
  }

  // ---------------------------------------------------------------------------------
  // Depth bound: weights grow towards the root as the Fibonacci numbers do.

  function Fib(k: nat): (f: nat)
    ensures f >= 1
  {
    if k < 2 then 1 else Fib(k - 1) + Fib(k - 2)
  }

  lemma {:induction false} FibMonotone(j: nat, k: nat)
    requires j <= k
    ensures Fib(j) <= Fib(k)
    decreases k
  {
    if j < k {
      FibMonotone(j, k - 1);
    }
  }

  lemma FibValues()
    ensures Fib(2) == 2 && Fib(3) == 3 && Fib(4) == 5 && Fib(5) == 8 && Fib(6) == 13 && Fib(7) == 21 && Fib(8) == 34
    ensures Fib(9) == 55 && Fib(10) == 89 && Fib(11) == 144 && Fib(12) == 233 && Fib(13) == 377 && Fib(23) == 46368
  {
    assert Fib(2) == 2 && Fib(3) == 3 && Fib(4) == 5 && Fib(5) == 8 && Fib(6) == 13 && Fib(7) == 21 && Fib(8) == 34;
    assert Fib(9) == 55 && Fib(10) == 89 && Fib(11) == 144 && Fib(12) == 233 && Fib(13) == 377 && Fib(14) == 610;
    assert Fib(15) == 987 && Fib(16) == 1597 && Fib(17) == 2584 && Fib(18) == 4181 && Fib(19) == 6765;
    assert Fib(20) == 10946 && Fib(21) == 17711 && Fib(22) == 28657 && Fib(23) == 46368;
  }

  lemma ParentHeavier(w: seq<nat>, W: seq<nat>, R: seq<nat>, i: nat, p: nat)
    requires History(w, W, R) && IsParent(R, i, p) && i < |W|
    ensures W[i] <= W[p]
  {
    assert MergeStep(w, W, R, p);
  }

  // A node's sibling weighs at least as much as the node's children.
  lemma GrandparentAdds(w: seq<nat>, W: seq<nat>, R: seq<nat>, i: nat, p: nat, g: nat)
    requires History(w, W, R) && FullHistory(R) && Ordered(w, W, R)
    requires IsParent(R, i, p) && IsParent(R, p, g) && i < |W| && p < |W|
    ensures W[p] + W[i] <= W[g]
  {
    ParentHeavier(w, W, R, i, p);
    ParentsForward(R, p, g);
    RCMonotone(R, p + 1, g);
    RCMonotone(R, 0, p + 1);
    assert MergeStep(w, W, R, g);
    var r, a := RC(R, g), LC(R, g);
    assert RC(R, p + 1) <= r && LC(R, p + 1) <= a;
    if R[g] == r + 1 {
      assert W[i] <= w[a];
    }
  }

  // The Fibonacci numbers that belong to a node p at depth k and to a child of it.
  ghost predicate Steep(root: nat, k: nat, p: nat, child: nat)
  {
    Fib(k) * p + (if k == 0 then 0 else Fib(k - 1)) * child <= root
  }

  lemma SteepDown(root: nat, k: nat, g: nat, p: nat, child: nat)
    requires Steep(root, k, g, p) && p + child <= g
    ensures Steep(root, k + 1, p, child)
  {
    MulLe(Fib(k), p + child, g);
    assert Fib(k) * (p + child) == Fib(k) * p + Fib(k) * child;
    var f := if k == 0 then 0 else Fib(k - 1);
    assert Fib(k + 1) == Fib(k) + f;
    Distribute(Fib(k), f, p);
  }

  lemma {:induction false} PathSteep(w: seq<nat>, W: seq<nat>, R: seq<nat>, D: seq<nat>, i: nat, p: nat)
    requires History(w, W, R) && FullHistory(R) && Ordered(w, W, R) && Depths(R, D) && |D| == |W| == |R|
    requires i < |W| && p < |W| && IsParent(R, i, p)
    ensures Steep(W[|W| - 1], D[p], W[p], W[i])
    decreases |W| - p
  {
    hide History, Ordered, FullHistory, IsParent, Depths, Steep;
    Roots(R, D);
    if p < |W| - 1 {
      var g := FindParent(R, p, |R|);
      DepthOfChild(R, D, p, g);
      PathSteep(w, W, R, D, p, g);
      GrandparentAdds(w, W, R, i, p, g);
      SteepDown(W[|W| - 1], D[g], W[g], W[p], W[i]);
    } else {
      SteepRoot(W[p], W[i]);
    }
  }

  lemma SteepRoot(root: nat, child: nat)
    ensures Steep(root, 0, root, child)
  {
  }

  // An internal node at depth k weighs at most the k-th part, in Fibonacci numbers, of the whole.
  lemma PathWeight(w: seq<nat>, W: seq<nat>, R: seq<nat>, D: seq<nat>, p: nat)
    requires History(w, W, R) && FullHistory(R) && Ordered(w, W, R) && Depths(R, D) && |D| == |W| == |R|
    requires p < |W|
    ensures Fib(D[p]) * W[p] <= W[|W| - 1]
  {
    hide History, Ordered, FullHistory, IsParent, Depths, Steep;
    Roots(R, D);
    if p < |W| - 1 {
      var g := FindParent(R, p, |R|);
      DepthOfChild(R, D, p, g);
      PathSteep(w, W, R, D, p, g);
      ParentHeavier(w, W, R, p, g);
      SteepDown(W[|W| - 1], D[g], W[g], W[p], 0);
      SteepSelf(W[|W| - 1], D[p], W[p]);
    }
  }

  lemma SteepSelf(root: nat, k: nat, p: nat)
    requires Steep(root, k, p, 0)
    ensures Fib(k) * p <= root
  {
  }

  lemma MulLe(a: nat, x: nat, y: nat)
    requires x <= y
    ensures a * x <= a * y
  {
  }

  lemma {:induction false} InternalAtLeastTwo(w: seq<nat>, W: seq<nat>, R: seq<nat>, t: nat)
    requires History(w, W, R) && AscendingPositive(w) && t < |W|
    ensures W[t] >= 2
    decreases t
  {
    assert MergeStep(w, W, R, t);
    var r := RC(R, t);
    if r < R[t] {
      InternalAtLeastTwo(w, W, R, r);
    }
  }

  lemma InternalDepthBound(w: seq<nat>, W: seq<nat>, R: seq<nat>, D: seq<nat>, i: nat)
    requires |w| == |R| + 1 && |D| == |W| == |R|
    requires AscendingPositive(w) && SumTo(w, |w|) < 0x1_0000
    requires History(w, W, R) && FullHistory(R) && Ordered(w, W, R) && Depths(R, D)
    requires i < |D|
    ensures D[i] <= 29 && Fib(D[i]) * W[i] <= SumTo(w, |w|)
  {
    hide Ordered, History, FullHistory, Depths, AscendingPositive;
    Roots(R, D);
    InternalAtLeastTwo(w, W, R, i);
    NewWeightBounded(w, W, R);
    PathWeight(w, W, R, D, i);
    MulLe(Fib(D[i]), 2, W[i]);
    FibValues();
    if D[i] >= 23 {
      FibMonotone(23, D[i]);
    }
  }

  // A symbol's weight times the Fibonacci number of its parent's depth is at most the whole weight.
  lemma LeafDepthBound(w: seq<nat>, W: seq<nat>, R: seq<nat>, D: seq<nat>, l: seq<nat>, i: nat)
    requires |l| == |w| == |R| + 1 && |D| == |W| == |R|
    requires AscendingPositive(w) && SumTo(w, |w|) < 0x1_0000
    requires History(w, W, R) && FullHistory(R) && Ordered(w, W, R) && Depths(R, D) && LeafDepths(R, D, l)
    requires i < |l|
    ensures 1 <= l[i] <= 30 && Fib(l[i] - 1) * w[i] <= SumTo(w, |w|)
  {
    hide Ordered, History, FullHistory, Depths, AscendingPositive;
    Roots(R, D);
    var t := FindLeafParent(R, i, |R|);
    InternalDepthBound(w, W, R, D, t);
    LeafLighter(w, W, R, i, t);
    MulLe(Fib(D[t]), w[i], W[t]);
  }

  lemma LeafLighter(w: seq<nat>, W: seq<nat>, R: seq<nat>, i: nat, t: nat)
    requires History(w, W, R) && IsLeafParent(R, i, t) && i < |w|
    ensures w[i] <= W[t]
  {
    assert MergeStep(w, W, R, t);
  }

  // Lighter symbols never get shorter codes.
  lemma LeafDepthsDescend(R: seq<nat>, D: seq<nat>, l: seq<nat>, i: nat, j: nat)
    requires FullHistory(R) && Depths(R, D) && LeafDepths(R, D, l) && |l| == |R| + 1
    requires i <= j < |l|
    ensures l[i] >= l[j]
  {
    hide FullHistory, Depths;
    Roots(R, D);
    var t := FindLeafParent(R, i, |R|);
    var u := FindLeafParent(R, j, |R|);
    if u < t {
      RCMonotone(R, u + 1, t);
    }
    DepthsDescend(R, D, t, u);
  }
}
