// No prefix code is cheaper than the one the greedy merges build.
module Optimality {
  import opened Arith
  import opened Huffman

  // Sums written from the front, for proofs that peel off the lightest symbols.
  function Dot(s: seq<nat>, l: seq<nat>): (r: nat)
    requires |s| == |l|
  {
    if s == [] then 0 else s[0] * l[0] + Dot(s[1..], l[1..])
  }

  function Kraft(m: nat, l: seq<nat>): (r: nat)
    requires forall i :: 0 <= i < |l| ==> l[i] <= m
  {
    if l == [] then 0 else Pow2(m - l[0]) + Kraft(m, l[1..])
  }

  ghost predicate Ascending(s: seq<nat>)
  {
    forall i, j :: 0 <= i <= j < |s| ==> s[i] <= s[j]
  }

  ghost predicate Descending(s: seq<nat>)
  {
    forall i, j :: 0 <= i <= j < |s| ==> s[i] >= s[j]
  }

  function Insert(v: nat, s: seq<nat>): (r: seq<nat>)
    ensures |r| == |s| + 1
    ensures forall i :: 0 <= i < |r| ==> r[i] == v || r[i] in s
  {
    if s == [] || v < s[0] then [v] + s else [s[0]] + Insert(v, s[1..])
  }

  lemma {:induction false} InsertAscending(v: nat, s: seq<nat>)
    requires Ascending(s)
    ensures Ascending(Insert(v, s))
  {
    if s != [] && s[0] <= v {
      InsertAscending(v, s[1..]);
      assert forall x :: x in s[1..] ==> s[0] <= x;
    }
  }

  // Weight of all the merges of Huffman's construction on an ascending list of weights.
  function MinCost(s: seq<nat>): (c: nat)
    decreases |s|
  {
    if |s| <= 1 then 0 else s[0] + s[1] + MinCost(Insert(s[0] + s[1], s[2..]))
  }

  // ---------------------------------------------------------------------------------
  // The lower bound.

  function InsertDescending(a: nat, t: seq<nat>): (r: seq<nat>)
    ensures |r| == |t| + 1
    ensures forall i :: 0 <= i < |r| ==> r[i] == a || r[i] in t
  {
    if t == [] || t[0] <= a then [a] + t else [t[0]] + InsertDescending(a, t[1..])
  }

  lemma SwapGain(x: nat, y: nat, a: nat, b: nat)
    requires x <= y && a <= b
    ensures x * b + y * a <= x * a + y * b
  {
    assert (y - x) * (b - a) >= 0;
    assert (y - x) * (b - a) == y * b - y * a - x * b + x * a;
  }

  lemma {:induction false} InsertDescendingCost(s: seq<nat>, a: nat, t: seq<nat>)
    requires Ascending(s) && Descending(t) && |s| == |t| + 1
    ensures Descending(InsertDescending(a, t))
    ensures Dot(s, InsertDescending(a, t)) <= s[0] * a + Dot(s[1..], t)
  {
    if t == [] {
    } else if t[0] <= a {
      assert ([a] + t)[1..] == t;
    } else {
      InsertDescendingCost(s[1..], a, t[1..]);
      var r := InsertDescending(a, t[1..]);
      assert ([t[0]] + r)[1..] == r;
      assert forall x :: x in t[1..] ==> x <= t[0];
      assert s[1..][1..] == s[2..];
      SwapGain(s[0], s[1], a, t[0]);
    }
  }

  lemma {:induction false} InsertDescendingKraft(m: nat, a: nat, t: seq<nat>)
    requires a <= m && forall i :: 0 <= i < |t| ==> t[i] <= m
    ensures Kraft(m, InsertDescending(a, t)) == Pow2(m - a) + Kraft(m, t)
  {
    if t == [] || t[0] <= a {
      assert ([a] + t)[1..] == t;
    } else {
      InsertDescendingKraft(m, a, t[1..]);
      var r := InsertDescending(a, t[1..]);
      assert ([t[0]] + r)[1..] == r;
    }
  }

  // Giving the longest codes to the lightest symbols never costs more.
  lemma {:induction false} SortLengths(m: nat, s: seq<nat>, l: seq<nat>) returns (t: seq<nat>)
    requires Ascending(s) && |s| == |l| && forall i :: 0 <= i < |l| ==> l[i] <= m
    ensures |t| == |l| && Descending(t) && forall i :: 0 <= i < |t| ==> t[i] <= m
    ensures Kraft(m, t) == Kraft(m, l) && Dot(s, t) <= Dot(s, l)
  {
    if l == [] {
      t := [];
    } else {
      var r := SortLengths(m, s[1..], l[1..]);
      InsertDescendingCost(s, l[0], r);
      InsertDescendingKraft(m, l[0], r);
      t := InsertDescending(l[0], r);
    }
  }

  lemma {:induction false} KraftScale(m: nat, m': nat, l: seq<nat>)
    requires m' <= m && forall i :: 0 <= i < |l| ==> l[i] <= m'
    ensures Kraft(m, l) == Pow2(m - m') * Kraft(m', l)
  {
    if l != [] {
      KraftScale(m, m', l[1..]);
      Pow2Add(m - m', m' - l[0]);
      MulDistributes(Pow2(m - m'), Pow2(m' - l[0]), Kraft(m', l[1..]));
    }
  }

  lemma MulDistributes(c: nat, x: nat, y: nat)
    ensures c * (x + y) == c * x + c * y
  {
  }

  lemma MulLt(c: nat, x: nat, y: nat)
    requires c * x < c * y
    ensures x < y
  {
    if y <= x {
      MulLe(c, y, x);
    }
  }

  // The two longest codes leave room for a sibling pair at the second one's length.
  lemma SiblingRoom(m: nat, l: seq<nat>)
    requires |l| >= 2 && Descending(l) && l[0] <= m && Kraft(m, l) <= Pow2(m)
    ensures 1 <= l[1] && 2 + Kraft(l[1], l[2..]) <= Pow2(l[1])
  {
    var p, t := l[1], l[1..];
    assert t[1..] == l[2..];
    KraftScale(m, p, t);
    Pow2Add(m - p, p);
    MulLt(Pow2(m - p), Kraft(p, t), Pow2(p));
  }

  // Insert the merged weight and its length at the same place.
  function InsertBeside(v: nat, s: seq<nat>, x: nat, l: seq<nat>): (r: seq<nat>)
    requires |s| == |l|
    ensures |r| == |l| + 1
    ensures forall i :: 0 <= i < |r| ==> r[i] == x || r[i] in l
  {
    if s == [] || v < s[0] then [x] + l else [l[0]] + InsertBeside(v, s[1..], x, l[1..])
  }

  lemma SumsCons(x: nat, s: seq<nat>, y: nat, l: seq<nat>, m: nat)
    requires |s| == |l| && y <= m && forall i :: 0 <= i < |l| ==> l[i] <= m
    ensures Dot([x] + s, [y] + l) == x * y + Dot(s, l)
    ensures Kraft(m, [y] + l) == Pow2(m - y) + Kraft(m, l)
  {
    assert ([x] + s)[1..] == s && ([y] + l)[1..] == l;
  }

  lemma {:induction false} InsertBesideSums(v: nat, s: seq<nat>, x: nat, l: seq<nat>, m: nat)
    requires |s| == |l| && x <= m && forall i :: 0 <= i < |l| ==> l[i] <= m
    ensures Dot(Insert(v, s), InsertBeside(v, s, x, l)) == v * x + Dot(s, l)
    ensures Kraft(m, InsertBeside(v, s, x, l)) == Pow2(m - x) + Kraft(m, l)
  {
    hide Dot, Kraft, Pow2;
    if s == [] || v < s[0] {
      SumsCons(v, s, x, l, m);
    } else {
      InsertBesideSums(v, s[1..], x, l[1..], m);
      assert s == [s[0]] + s[1..] && l == [l[0]] + l[1..];
      SumsCons(s[0], s[1..], l[0], l[1..], m);
      SumsCons(s[0], Insert(v, s[1..]), l[0], InsertBeside(v, s[1..], x, l[1..]), m);
    }
  }

  // Any lengths satisfying Kraft's inequality cost at least MinCost.
  lemma {:induction false} LowerBound(m: nat, s: seq<nat>, l: seq<nat>)
    requires Ascending(s) && |s| == |l| && forall i :: 0 <= i < |l| ==> l[i] <= m
    requires Kraft(m, l) <= Pow2(m)
    ensures MinCost(s) <= Dot(s, l)
    decreases |s|
  {
    hide Dot, Kraft, Insert, InsertBeside, Descending;
    if |s| >= 2 {
      var t := SortLengths(m, s, l);
      SiblingRoom(m, t);
      var p, v := t[1], s[0] + s[1];
      InsertBesideSums(v, s[2..], p - 1, t[2..], p);
      InsertAscending(v, s[2..]);
      LowerBound(p, Insert(v, s[2..]), InsertBeside(v, s[2..], p - 1, t[2..]));
      TwoLongest(s, t);
    }
  }

  lemma PairCost(x: nat, y: nat, a: nat, p: nat)
    requires a >= p >= 1
    ensures x + y + (x + y) * (p - 1) <= x * a + y * p
  {
    MulLe(x, p, a);
    assert x + y + (x + y) * (p - 1) == x * p + y * p;
  }

  lemma TwoLongest(s: seq<nat>, t: seq<nat>)
    requires |s| == |t| >= 2 && t[0] >= t[1] >= 1
    ensures s[0] + s[1] + (s[0] + s[1]) * (t[1] - 1) + Dot(s[2..], t[2..]) <= Dot(s, t)
  {
    assert s[1..][1..] == s[2..] && t[1..][1..] == t[2..];
    var rest := Dot(s[2..], t[2..]);
    assert Dot(s[1..], t[1..]) == s[1] * t[1] + rest;
    PairCost(s[0], s[1], t[0], t[1]);
  }

  // ---------------------------------------------------------------------------------
  // The two queues of the source implement the ascending list.

  function MergeQueues(ls: seq<nat>, q: seq<nat>): (r: seq<nat>)
    ensures |r| == |ls| + |q|
    ensures forall x :: x in r ==> x in ls || x in q
    decreases |ls| + |q|
  {
    if ls == [] then q
    else if q != [] && q[0] < ls[0] then [q[0]] + MergeQueues(ls, q[1..])
    else [ls[0]] + MergeQueues(ls[1..], q)
  }

  // Appending a node that is no lighter than the queued ones keeps the merge sorted.
  lemma {:induction false} MergeQueuesSnoc(ls: seq<nat>, q: seq<nat>, v: nat)
    requires forall i :: 0 <= i < |q| ==> q[i] <= v
    ensures MergeQueues(ls, q + [v]) == Insert(v, MergeQueues(ls, q))
    decreases |ls| + |q|
  {
    if ls == [] {
      InsertLast(q, v);
    } else if q == [] {
      if ls[0] <= v {
        MergeQueuesSnoc(ls[1..], q, v);
      } else {
        assert ([] + [v])[1..] == [];
        MergeLeavesOnly(ls);
      }
    } else if q[0] < ls[0] {
      MergeQueuesSnoc(ls, q[1..], v);
      assert (q + [v])[1..] == q[1..] + [v];
    } else {
      MergeQueuesSnoc(ls[1..], q, v);
    }
  }

  lemma {:induction false} MergeLeavesOnly(ls: seq<nat>)
    ensures MergeQueues(ls, []) == ls
  {
    if ls != [] {
      MergeLeavesOnly(ls[1..]);
    }
  }

  lemma {:induction false} InsertLast(q: seq<nat>, v: nat)
    requires forall i :: 0 <= i < |q| ==> q[i] <= v
    ensures Insert(v, q) == q + [v]
  {
    if q != [] {
      InsertLast(q[1..], v);
    }
  }

  lemma TakeIsHead(w: seq<nat>, W: seq<nat>, leaf: nat, root: nat)
    requires leaf <= |w| && root <= |W| && leaf + root < |w| + |W|
    ensures var p := Take(w, W, leaf, root);
            MergeQueues(w[leaf..], W[root..]) == [p.weight] + MergeQueues(w[p.leaf..], W[p.root..])
  {
    if leaf == |w| {
      assert W[root..] == [W[root]] + W[root + 1..];
    } else if TakesInternal(w, W, leaf, root) {
      assert W[root..][1..] == W[root + 1..];
    } else {
      assert w[leaf..][1..] == w[leaf + 1..];
    }
  }

  // The queues are ascending, nothing queued is lighter than top, and the newest internal
  // node is not heavier than the next one will be.
  ghost predicate Queued(w: seq<nat>, W: seq<nat>, leaf: nat, root: nat, top: nat)
  {
    && leaf <= |w| && root <= |W|
    && Ascending(w)
    && (forall i, j :: root <= i <= j < |W| ==> W[i] <= W[j])
    && (forall j :: leaf <= j < |w| ==> top <= w[j])
    && (forall j :: root <= j < |W| ==> top <= W[j] <= 2 * top)
  }

  lemma QueuedTake(w: seq<nat>, W: seq<nat>, leaf: nat, root: nat, top: nat)
    requires Queued(w, W, leaf, root, top) && leaf + root < |w| + |W|
    ensures var p := Take(w, W, leaf, root);
            top <= p.weight && Queued(w, W, p.leaf, p.root, p.weight)
            && (forall j :: root <= j < |W| ==> W[j] <= 2 * top)
  {
  }

  lemma QueuedSnoc(w: seq<nat>, W: seq<nat>, leaf: nat, root: nat, top: nat, made: nat)
    requires Queued(w, W, leaf, root, top)
    requires top <= made <= 2 * top
    requires forall j :: root <= j < |W| ==> W[j] <= made
    ensures Queued(w, W + [made], leaf, root, top)
  {
  }

  lemma QueuedStep(w: seq<nat>, W: seq<nat>, leaf: nat, root: nat, top: nat, p: Pick, q: Pick)
    requires Queued(w, W, leaf, root, top) && |w| - leaf + |W| - root >= 2
    requires p == Take(w, W, leaf, root) && q == Take(w, W, p.leaf, p.root)
    ensures Queued(w, W + [p.weight + q.weight], q.leaf, q.root, q.weight)
    ensures forall i :: 0 <= i < |W[q.root..]| ==> W[q.root..][i] <= p.weight + q.weight
  {
    hide Queued;
    QueuedTake(w, W, leaf, root, top);
    QueuedTake(w, W, p.leaf, p.root, p.weight);
    QueuedSnoc(w, W, q.leaf, q.root, q.weight, p.weight + q.weight);
  }

  lemma {:induction false} GreedyIsMin(w: seq<nat>, W: seq<nat>, leaf: nat, root: nat, top: nat)
    requires leaf <= |w| && root <= |W| && Queued(w, W, leaf, root, top)
    ensures GreedyCost(w, W, leaf, root) == MinCost(MergeQueues(w[leaf..], W[root..]))
    decreases |w| - leaf + |W| - root
  {
    hide Queued, Take, MergeQueues, Insert;
    if |w| - leaf + |W| - root >= 2 {
      var p := Take(w, W, leaf, root);
      var q := Take(w, W, p.leaf, p.root);
      var made := p.weight + q.weight;
      QueuedStep(w, W, leaf, root, top, p, q);
      TakeIsHead(w, W, leaf, root);
      TakeIsHead(w, W, p.leaf, p.root);
      var rest := MergeQueues(w[q.leaf..], W[q.root..]);
      assert ([p.weight] + ([q.weight] + rest))[2..] == rest;
      assert (W + [made])[q.root..] == W[q.root..] + [made];
      MergeQueuesSnoc(w[q.leaf..], W[q.root..], made);
      GreedyIsMin(w, W + [made], q.leaf, q.root, q.weight);
    }
  }

  // ---------------------------------------------------------------------------------
  // From sums written from the back to sums written from the front.

  lemma {:induction false} DotToIsDot(s: seq<nat>, l: seq<nat>)
    requires |s| == |l|
    ensures DotTo(s, l, |s|) == Dot(s, l)
  {
    if s != [] {
      DotToShift(s, l, |s|);
      DotToIsDot(s[1..], l[1..]);
    }
  }

  lemma {:induction false} DotToShift(s: seq<nat>, l: seq<nat>, k: nat)
    requires 1 <= k <= |s| == |l|
    ensures DotTo(s, l, k) == s[0] * l[0] + DotTo(s[1..], l[1..], k - 1)
  {
    if k > 1 {
      DotToShift(s, l, k - 1);
    }
  }

  lemma {:induction false} KraftToIsKraft(m: nat, l: seq<nat>)
    requires forall i :: 0 <= i < |l| ==> l[i] <= m
    ensures KraftTo(m, l, |l|) == Kraft(m, l)
  {
    if l != [] {
      KraftToShift(m, l, |l|);
      KraftToIsKraft(m, l[1..]);
    }
  }

  lemma {:induction false} KraftToShift(m: nat, l: seq<nat>, k: nat)
    requires 1 <= k <= |l| && forall i :: 0 <= i < |l| ==> l[i] <= m
    ensures KraftTo(m, l, k) == Pow2(m - l[0]) + KraftTo(m, l[1..], k - 1)
  {
    if k > 1 {
      KraftToShift(m, l, k - 1);
    }
  }

  // The greedy merges are as cheap as any lengths that satisfy Kraft's inequality.
  lemma GreedyLowerBound(w: seq<nat>, l: seq<nat>, m: nat)
    requires AscendingPositive(w) && |w| == |l| && forall i :: 0 <= i < |l| ==> l[i] <= m
    requires KraftTo(m, l, |l|) <= Pow2(m)
    ensures GreedyCost(w, [], 0, 0) <= DotTo(w, l, |w|)
  {
    hide Dot, Kraft, KraftTo, DotTo, GreedyCost, MinCost, MergeQueues;
    GreedyIsMin(w, [], 0, 0, 0);
    MergeLeavesOnly(w);
    assert w[0..] == w;
    KraftToIsKraft(m, l);
    DotToIsDot(w, l);
    LowerBound(m, w, l);
  }

  // ---------------------------------------------------------------------------------
  // The whole of the source function (kernel/miniz/miniz.c:765-819).

  // A complete prefix code for w of least total weighted length, with long codes only for symbols
  // that are rare.
  ghost predicate MinimumRedundancy(w: seq<nat>, l: seq<nat>)
  {
    && |l| == |w|
    && (forall i :: 0 <= i < |l| ==> 1 <= l[i] <= 30)
    && (forall i, j :: 0 <= i <= j < |l| ==> l[i] >= l[j])
    && KraftTo(30, l, |l|) == Pow2(30)
    && (forall i :: 0 <= i < |l| ==> Fib(l[i] - 1) * w[i] <= SumTo(w, |w|))
    && (forall m: nat, k: seq<nat> ::
          |k| == |w| && (forall i :: 0 <= i < |k| ==> k[i] <= m) && KraftTo(m, k, |k|) <= Pow2(m) ==>
            DotTo(w, l, |w|) <= DotTo(w, k, |w|))
  }

  // What the depths of the leaves of any full tree over these weights are.
  lemma TreeFits(w: seq<nat>, W: seq<nat>, R: seq<nat>, D: seq<nat>, l: seq<nat>)
    requires |l| == |w| == |R| + 1 && |D| == |W| == |R|
    requires AscendingPositive(w) && SumTo(w, |w|) < 0x1_0000
    requires History(w, W, R) && FullHistory(R) && Ordered(w, W, R) && Depths(R, D) && LeafDepths(R, D, l)
    ensures forall i :: 0 <= i < |l| ==> 1 <= l[i] <= 30 && Fib(l[i] - 1) * w[i] <= SumTo(w, |w|)
    ensures forall i, j :: 0 <= i <= j < |l| ==> l[i] >= l[j]
    ensures KraftTo(30, l, |l|) == Pow2(30)
  {
    hide AscendingPositive, History, FullHistory, Ordered, Depths, LeafDepths, KraftTo, SumTo, Pow2, Fib;
    forall i | 0 <= i < |l|
      ensures 1 <= l[i] <= 30 && Fib(l[i] - 1) * w[i] <= SumTo(w, |w|)
    {
      LeafDepthBound(w, W, R, D, l, i);
    }
    forall i | 0 <= i < |D|
      ensures D[i] < 30
    {
      InternalDepthBound(w, W, R, D, i);
    }
    forall i, j | 0 <= i <= j < |l|
      ensures l[i] >= l[j]
    {
      LeafDepthsDescend(R, D, l, i, j);
    }
    LeavesComplete(30, R, D, l);
  }

  lemma TreeIsMinimum(w: seq<nat>, W: seq<nat>, R: seq<nat>, D: seq<nat>, l: seq<nat>)
    requires |l| == |w| == |R| + 1 && |D| == |W| == |R|
    requires AscendingPositive(w) && SumTo(w, |w|) < 0x1_0000
    requires History(w, W, R) && FullHistory(R) && Ordered(w, W, R) && Depths(R, D) && LeafDepths(R, D, l)
    requires SumTo(W, |W|) == GreedyCost(w, [], 0, 0)
    ensures MinimumRedundancy(w, l)
  {
    hide AscendingPositive, History, FullHistory, Ordered, Depths, LeafDepths, DotTo, KraftTo, GreedyCost;
    TreeFits(w, W, R, D, l);
    LeavesCost(w, W, R, D, l);
    forall m: nat, k: seq<nat> | |k| == |w| && (forall i :: 0 <= i < |k| ==> k[i] <= m) && KraftTo(m, k, |k|) <= Pow2(m)
      ensures DotTo(w, l, |w|) <= DotTo(w, k, |w|)
    {
      GreedyLowerBound(w, k, m);
    }
  }

  method CalculateMinimumRedundancy(A: array<SymFreq>)
    requires A.Length < 0x1_0000 && AscendingPositive(Keys(A[..])) && SumTo(Keys(A[..]), A.Length) < 0x1_0000
    modifies A
    ensures SameSyms(old(A[..]), A[..])
    ensures A.Length == 1 ==> A[0].key == 1
    ensures A.Length >= 2 ==> MinimumRedundancy(old(Keys(A[..])), Keys(A[..]))
  {
    hide AscendingPositive, History, FullHistory, Ordered, Depths, LeafDepths, MinimumRedundancy, GreedyCost, IsParent;
    if A.Length == 0 {
      return;
    } else if A.Length == 1 {
      A[0] := A[0].(key := 1);
      return;
    }
    ghost var w, s0 := Keys(A[..]), A[..];
    ghost var W, R := MergePhase(A);
    ghost var s1 := A[..];
    FullHistoryOf(w, W, R);
    ghost var D := DepthPhase(A, R);
    ghost var s2 := A[..];
    AssignPhase(A, R, D);
    SameSymsTrans(s0, s1, s2);
    SameSymsTrans(s0, s2, A[..]);
    Roots(R, D);
    TreeIsMinimum(w, W, R, D, Keys(A[..]));
  }
}
