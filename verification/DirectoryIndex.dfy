// The index of names of a ZIP directory: made by a heap sort in place, searched by bisection, and
// what it finds compared with a scan of the directory
// (kernel/miniz/miniz.c:3102, 3413-3491, 4234-4301, 4312-4370).  Names are equal up to case.
module DirectoryIndex {
  import opened Tokens
  import opened Wrappers

  function ToLower(c: Byte): Byte {
    if 'A' as int <= c <= 'Z' as int then c - 'A' as int + 'a' as int else c
  }

  function Lower(s: seq<Byte>): (r: seq<Byte>)
    ensures |r| == |s| && forall i :: 0 <= i < |s| ==> r[i] == ToLower(s[i])
  {
    seq(|s|, i requires 0 <= i < |s| => ToLower(s[i]))
  }

  function Keys(names: seq<seq<Byte>>): (r: seq<seq<Byte>>)
    ensures |r| == |names| && forall i :: 0 <= i < |names| ==> r[i] == Lower(names[i])
  {
    seq(|names|, i requires 0 <= i < |names| => Lower(names[i]))
  }

  // ---------------------------------------------------------------------------------
  // The order of names.

  predicate Less(a: seq<Byte>, b: seq<Byte>)
    decreases |a|
  {
    if a == [] || b == [] then |a| < |b| else a[0] < b[0] || (a[0] == b[0] && Less(a[1..], b[1..]))
  }

  lemma {:induction false} Trichotomy(a: seq<Byte>, b: seq<Byte>)
    ensures Less(a, b) ==> a != b && !Less(b, a)
    ensures Less(a, b) || a == b || Less(b, a)
    decreases |a|
  {
    if a != [] && b != [] {
      Trichotomy(a[1..], b[1..]);
      assert a == [a[0]] + a[1..] && b == [b[0]] + b[1..];
    }
  }

  lemma {:induction false} Transitive(a: seq<Byte>, b: seq<Byte>, c: seq<Byte>)
    requires !Less(b, a) && !Less(c, b)
    ensures !Less(c, a)
    decreases |a|
  {
    if a != [] && b != [] && c != [] {
      if a[0] == b[0] == c[0] {
        Transitive(a[1..], b[1..], c[1..]);
      }
    }
  }

  // ---------------------------------------------------------------------------------
  // Heap sort of a list of indices into the keys.

  predicate Indices(keys: seq<seq<Byte>>, s: seq<nat>) {
    forall i :: 0 <= i < |s| ==> s[i] < |keys|
  }

  // The entry at i in the list is in front of that at j.
  predicate Before(keys: seq<seq<Byte>>, s: seq<nat>, i: nat, j: nat)
    requires Indices(keys, s) && i < |s| && j < |s|
  {
    Less(keys[s[i]], keys[s[j]])
  }

  function Swap(s: seq<nat>, i: nat, j: nat): (r: seq<nat>)
    requires i < |s| && j < |s|
    ensures |r| == |s|
  {
    s[i := s[j]][j := s[i]]
  }

  function Parent(c: nat): nat {
    if c == 0 then 0 else (c - 1) / 2
  }

  function Child(keys: seq<seq<Byte>>, s: seq<nat>, root: nat, size: nat): (c: nat)
    requires Indices(keys, s) && 2 * root + 1 < size <= |s|
    ensures 2 * root + 1 <= c <= 2 * root + 2 && c < size
  {
    2 * root + 1 + if 2 * root + 2 < size && Before(keys, s, 2 * root + 1, 2 * root + 2) then 1 else 0
  }

  function Sift(keys: seq<seq<Byte>>, s: seq<nat>, root: nat, size: nat): (r: seq<nat>)
    requires Indices(keys, s) && size <= |s|
    ensures Indices(keys, r) && |r| == |s|
    ensures forall i :: 0 <= i < |s| && (i < root || size <= i) ==> r[i] == s[i]
    decreases size - root
  {
    if 2 * root + 1 >= size then s
    else
      var c := Child(keys, s, root, size);
      if !Before(keys, s, root, c) then s else Sift(keys, Swap(s, root, c), c, size)
  }

  function Build(keys: seq<seq<Byte>>, s: seq<nat>, start: nat): (r: seq<nat>)
    requires Indices(keys, s)
    ensures Indices(keys, r) && |r| == |s|
    decreases start
  {
    var t := Sift(keys, s, start, |s|);
    if start == 0 then t else Build(keys, t, start - 1)
  }

  function Drain(keys: seq<seq<Byte>>, s: seq<nat>, end: nat): (r: seq<nat>)
    requires Indices(keys, s) && end < |s|
    ensures Indices(keys, r) && |r| == |s|
    decreases end
  {
    if end == 0 then s else Drain(keys, Sift(keys, Swap(s, end, 0), 0, end), end - 1)
  }

  function HeapSort(keys: seq<seq<Byte>>, s: seq<nat>): (r: seq<nat>)
    requires Indices(keys, s)
    ensures Indices(keys, r) && |r| == |s|
  {
    if |s| <= 1 then s else Drain(keys, Build(keys, s, (|s| - 2) / 2), |s| - 1)
  }

  // Sorting only reorders.
  lemma {:induction false} SiftPermutes(keys: seq<seq<Byte>>, s: seq<nat>, root: nat, size: nat)
    requires Indices(keys, s) && size <= |s|
    ensures multiset(Sift(keys, s, root, size)) == multiset(s)
    decreases size - root
  {
    hide Before;
    if 2 * root + 1 < size {
      var c := Child(keys, s, root, size);
      if Before(keys, s, root, c) {
        SiftPermutes(keys, Swap(s, root, c), c, size);
      }
    }
  }

  lemma {:induction false} BuildPermutes(keys: seq<seq<Byte>>, s: seq<nat>, start: nat)
    requires Indices(keys, s)
    ensures multiset(Build(keys, s, start)) == multiset(s)
    decreases start
  {
    hide Sift;
    SiftPermutes(keys, s, start, |s|);
    if start > 0 {
      BuildPermutes(keys, Sift(keys, s, start, |s|), start - 1);
    }
  }

  lemma {:induction false} DrainPermutes(keys: seq<seq<Byte>>, s: seq<nat>, end: nat)
    requires Indices(keys, s) && end < |s|
    ensures multiset(Drain(keys, s, end)) == multiset(s)
    decreases end
  {
    hide Sift;
    if end > 0 {
      SiftPermutes(keys, Swap(s, end, 0), 0, end);
      DrainPermutes(keys, Sift(keys, Swap(s, end, 0), 0, end), end - 1);
    }
  }

  // No entry from lo on has a child in front of which it is.
  predicate Heap(keys: seq<seq<Byte>>, s: seq<nat>, lo: nat, size: nat)
    requires Indices(keys, s) && size <= |s|
  {
    forall c :: 1 <= c < size && lo <= Parent(c) ==> !Before(keys, s, Parent(c), c)
  }

  // The same but for the entry at root, which may have to go further down.
  predicate Nearly(keys: seq<seq<Byte>>, s: seq<nat>, lo: nat, root: nat, size: nat)
    requires Indices(keys, s) && size <= |s|
  {
    && (forall c :: 1 <= c < size && lo <= Parent(c) && Parent(c) != root ==> !Before(keys, s, Parent(c), c))
    && (forall c :: 1 <= c < size && Parent(c) == root && root > 0 && lo <= Parent(root) ==>
          !Before(keys, s, Parent(root), c))
  }

  predicate Sorted(keys: seq<seq<Byte>>, s: seq<nat>, from: nat)
    requires Indices(keys, s)
  {
    forall i, j :: from <= i <= j < |s| ==> !Before(keys, s, j, i)
  }

  lemma {:induction false} SiftHeaps(keys: seq<seq<Byte>>, s: seq<nat>, lo: nat, root: nat, size: nat)
    requires Indices(keys, s) && size <= |s| && lo <= root && Nearly(keys, s, lo, root, size)
    ensures Heap(keys, Sift(keys, s, root, size), lo, size)
    decreases size - root
  {
    if 2 * root + 1 < size {
      var c := Child(keys, s, root, size);
      ChildLargest(keys, s, root, size);
      if Before(keys, s, root, c) {
        SwapNearly(keys, s, lo, root, size);
        SiftHeaps(keys, Swap(s, root, c), lo, c, size);
      } else {
        RootDone(keys, s, lo, root, size);
      }
    }
  }

  lemma ChildLargest(keys: seq<seq<Byte>>, s: seq<nat>, root: nat, size: nat)
    requires Indices(keys, s) && 2 * root + 1 < size <= |s|
    ensures forall c :: 1 <= c < size && Parent(c) == root ==> !Before(keys, s, Child(keys, s, root, size), c)
  {
    forall c | 1 <= c < size && Parent(c) == root ensures !Before(keys, s, Child(keys, s, root, size), c) {
      Trichotomy(keys[s[Child(keys, s, root, size)]], keys[s[c]]);
      assert c == 2 * root + 1 || c == 2 * root + 2;
    }
  }

  lemma RootDone(keys: seq<seq<Byte>>, s: seq<nat>, lo: nat, root: nat, size: nat)
    requires Indices(keys, s) && 2 * root + 1 < size <= |s| && Nearly(keys, s, lo, root, size)
    requires !Before(keys, s, root, Child(keys, s, root, size))
    ensures Heap(keys, s, lo, size)
  {
    ChildLargest(keys, s, root, size);
    forall c | 1 <= c < size && lo <= Parent(c) ensures !Before(keys, s, Parent(c), c) {
      if Parent(c) == root {
        Transitive(keys[s[c]], keys[s[Child(keys, s, root, size)]], keys[s[root]]);
      }
    }
  }

  lemma SwapNearly(keys: seq<seq<Byte>>, s: seq<nat>, lo: nat, root: nat, size: nat)
    requires Indices(keys, s) && 2 * root + 1 < size <= |s| && lo <= root && Nearly(keys, s, lo, root, size)
    requires Before(keys, s, root, Child(keys, s, root, size))
    ensures Indices(keys, Swap(s, root, Child(keys, s, root, size)))
    ensures var c := Child(keys, s, root, size);
            Nearly(keys, Swap(s, root, c), lo, c, size)
  {
    var k := Child(keys, s, root, size);
    var t := Swap(s, root, k);
    ChildLargest(keys, s, root, size);
    Trichotomy(keys[s[root]], keys[s[k]]);
    assert Parent(k) == root;
    forall c | 1 <= c < size && lo <= Parent(c) && Parent(c) != k ensures !Before(keys, t, Parent(c), c) {
      if Parent(c) == root {
        if c != k {
          assert !Before(keys, s, k, c);
        }
      } else if c == root {
        assert !Before(keys, s, Parent(root), k);
      } else {
        assert !Before(keys, s, Parent(c), c);
      }
    }
    forall c | 1 <= c < size && Parent(c) == k && lo <= Parent(k) ensures !Before(keys, t, Parent(k), c) {
      assert !Before(keys, s, Parent(c), c);
    }
  }

  lemma {:induction false} BuildHeaps(keys: seq<seq<Byte>>, s: seq<nat>, start: nat)
    requires Indices(keys, s) && Heap(keys, s, start + 1, |s|)
    ensures Heap(keys, Build(keys, s, start), 0, |s|)
    decreases start
  {
    SiftHeaps(keys, s, start, start, |s|);
    if start > 0 {
      BuildHeaps(keys, Sift(keys, s, start, |s|), start - 1);
    }
  }

  // Nothing in a heap comes after its top.
  lemma {:induction false} TopLast(keys: seq<seq<Byte>>, s: seq<nat>, size: nat, c: nat)
    requires Indices(keys, s) && c < size <= |s| && Heap(keys, s, 0, size)
    ensures !Before(keys, s, 0, c)
    decreases c
  {
    if c == 0 {
      Trichotomy(keys[s[0]], keys[s[0]]);
    } else {
      TopLast(keys, s, size, Parent(c));
      Transitive(keys[s[c]], keys[s[Parent(c)]], keys[s[0]]);
    }
  }

  lemma SamePrefix(s: seq<nat>, t: seq<nat>, n: nat, i: nat) returns (k: nat)
    requires multiset(s) == multiset(t) && |s| == |t| && i < n <= |s|
    requires forall j :: n <= j < |s| ==> s[j] == t[j]
    ensures k < n && s[i] == t[k]
  {
    assert s[n..] == t[n..];
    SplitParts(s, n);
    SplitParts(t, n);
    k := FindPart(t[..n], s[..n][i], multiset(s[..n]));
  }

  lemma SplitParts(s: seq<nat>, n: nat)
    requires n <= |s|
    ensures multiset(s[..n]) == multiset(s) - multiset(s[n..])
  {
    assert s == s[..n] + s[n..];
    assert multiset(s) == multiset(s[..n]) + multiset(s[n..]);
  }

  lemma FindPart(t: seq<nat>, x: nat, all: multiset<nat>) returns (k: nat)
    requires x in all && all == multiset(t)
    ensures k < |t| && t[k] == x
  {
    assert x in t;
    k :| 0 <= k < |t| && t[k] == x;
  }

  // The part from end on is sorted, and nothing in front of it comes after anything in it.
  predicate Drained(keys: seq<seq<Byte>>, s: seq<nat>, end: nat)
    requires Indices(keys, s)
  {
    Sorted(keys, s, end) && forall i, j :: 0 <= i < end <= j < |s| ==> !Before(keys, s, j, i)
  }

  lemma DrainStep(keys: seq<seq<Byte>>, s: seq<nat>, end: nat)
    requires Indices(keys, s) && 0 < end < |s| && Heap(keys, s, 0, end + 1) && Drained(keys, s, end + 1)
    ensures var u := Sift(keys, Swap(s, end, 0), 0, end);
            Heap(keys, u, 0, end) && Drained(keys, u, end)
  {
    hide Sift, Less;
    var t := Swap(s, end, 0);
    TopSwapped(keys, s, end);
    SiftHeaps(keys, t, 0, 0, end);
    SiftPermutes(keys, t, 0, end);
    var u := Sift(keys, t, 0, end);
    forall i, j | 0 <= i < end <= j < |s| ensures !Before(keys, u, j, i) {
      var k := SamePrefix(u, t, end, i);
      var c := if k == 0 then end else k;
      TopLast(keys, s, end + 1, c);
      assert u[i] == s[c] && u[j] == if j == end then s[0] else s[j];
      assert j > end ==> !Before(keys, s, j, c);
    }
    TailSorted(keys, s, u, end);
  }

  lemma TopSwapped(keys: seq<seq<Byte>>, s: seq<nat>, end: nat)
    requires Indices(keys, s) && 0 < end < |s| && Heap(keys, s, 0, end + 1)
    ensures Nearly(keys, Swap(s, end, 0), 0, 0, end)
  {
    hide Less;
    var t := Swap(s, end, 0);
    forall c | 1 <= c < end && 0 <= Parent(c) && Parent(c) != 0 ensures !Before(keys, t, Parent(c), c) {
      assert !Before(keys, s, Parent(c), c);
    }
  }

  lemma TailSorted(keys: seq<seq<Byte>>, s: seq<nat>, u: seq<nat>, end: nat)
    requires Indices(keys, s) && Indices(keys, u) && |u| == |s| && 0 < end < |s| && Drained(keys, s, end + 1)
    requires u[end] == s[0] && forall i :: end < i < |s| ==> u[i] == s[i]
    ensures Sorted(keys, u, end)
  {
    hide Less;
    forall i, j | end <= i <= j < |u| ensures !Before(keys, u, j, i) {
      Trichotomy(keys[u[end]], keys[u[end]]);
      if i > end {
        assert !Before(keys, s, j, i);
      } else if j > end {
        assert !Before(keys, s, j, 0);
      }
    }
  }

  lemma {:induction false} DrainSorts(keys: seq<seq<Byte>>, s: seq<nat>, end: nat)
    requires Indices(keys, s) && end < |s| && Heap(keys, s, 0, end + 1) && Drained(keys, s, end + 1)
    ensures Sorted(keys, Drain(keys, s, end), 0)
    decreases end
  {
    if end == 0 {
      Trichotomy(keys[s[0]], keys[s[0]]);
    } else {
      DrainStep(keys, s, end);
      DrainSorts(keys, Sift(keys, Swap(s, end, 0), 0, end), end - 1);
    }
  }

  // Heap sort puts any list of indices in the order of their keys.
  lemma HeapSortSorts(keys: seq<seq<Byte>>, s: seq<nat>)
    requires Indices(keys, s)
    ensures Sorted(keys, HeapSort(keys, s), 0) && multiset(HeapSort(keys, s)) == multiset(s)
  {
    hide Sift, Build, Drain, Less;
    if |s| <= 1 {
      if |s| == 1 {
        Trichotomy(keys[s[0]], keys[s[0]]);
      }
    } else {
      BuildHeaps(keys, s, (|s| - 2) / 2);
      BuildPermutes(keys, s, (|s| - 2) / 2);
      DrainPermutes(keys, Build(keys, s, (|s| - 2) / 2), |s| - 1);
      DrainSorts(keys, Build(keys, s, (|s| - 2) / 2), |s| - 1);
    }
  }

  // ---------------------------------------------------------------------------------
  // Looking for a name.

  function Search(keys: seq<seq<Byte>>, s: seq<nat>, key: seq<Byte>, l: nat, h: nat): (r: Option<nat>)
    requires Indices(keys, s) && l <= h <= |s|
    decreases h - l
  {
    if l == h then None
    else
      var m := l + (h - 1 - l) / 2;
      if keys[s[m]] == key then Some(s[m])
      else if Less(keys[s[m]], key) then Search(keys, s, key, m + 1, h)
      else Search(keys, s, key, l, m)
  }

  function Scan(keys: seq<seq<Byte>>, key: seq<Byte>, from: nat): (r: Option<nat>)
    requires from <= |keys|
    ensures r.Some? ==> from <= r.value < |keys| && keys[r.value] == key
    ensures forall i :: from <= i < (if r.Some? then r.value else |keys|) ==> keys[i] != key
    decreases |keys| - from
  {
    if from == |keys| then None else if keys[from] == key then Some(from) else Scan(keys, key, from + 1)
  }

  lemma {:induction false} SearchFinds(keys: seq<seq<Byte>>, s: seq<nat>, key: seq<Byte>, l: nat, h: nat)
    requires Indices(keys, s) && l <= h <= |s| && Sorted(keys, s, 0)
    requires forall i :: 0 <= i < |s| && (i < l || h <= i) ==> keys[s[i]] != key
    ensures var r := Search(keys, s, key, l, h);
            && (r.Some? ==> r.value < |keys| && keys[r.value] == key)
            && (r.None? ==> forall i :: 0 <= i < |s| ==> keys[s[i]] != key)
    decreases h - l
  {
    if l < h {
      var m := l + (h - 1 - l) / 2;
      Trichotomy(keys[s[m]], key);
      if Less(keys[s[m]], key) {
        forall i | 0 <= i <= m ensures keys[s[i]] != key {
          assert !Before(keys, s, m, i);
        }
        SearchFinds(keys, s, key, m + 1, h);
      } else if keys[s[m]] != key {
        forall i | m <= i < |s| ensures keys[s[i]] != key {
          assert !Before(keys, s, i, m);
        }
        SearchFinds(keys, s, key, l, m);
      }
    }
  }

  // The list the index is made from.
  function Upto(n: nat): (s: seq<nat>)
    ensures |s| == n && forall i :: 0 <= i < n ==> s[i] == i
  {
    seq(n, i => i)
  }

  function Index(names: seq<seq<Byte>>): (s: seq<nat>)
    ensures Indices(Keys(names), s) && |s| == |names|
  {
    HeapSort(Keys(names), Upto(|names|))
  }

  function Find(names: seq<seq<Byte>>, name: seq<Byte>): (r: Option<nat>) {
    Search(Keys(names), Index(names), Lower(name), 0, |names|)
  }

  // The index finds an entry exactly when the scan does, and one with the same name: the first one
  // with that name or one after it.
  lemma IndexAgrees(names: seq<seq<Byte>>, name: seq<Byte>)
    ensures var found, scanned := Find(names, name), Scan(Keys(names), Lower(name), 0);
            && found.Some? == scanned.Some?
            && (found.Some? ==> found.value < |names| && Lower(names[found.value]) == Lower(name) &&
                                scanned.value <= found.value)
  {
    var keys, s, key := Keys(names), Index(names), Lower(name);
    HeapSortSorts(keys, Upto(|names|));
    SearchFinds(keys, s, key, 0, |names|);
    var scanned := Scan(keys, key, 0);
    if scanned.Some? {
      assert Upto(|names|)[scanned.value] in multiset(Upto(|names|));
      assert scanned.value in multiset(s);
    }
  }

  // How many entries have a name, up to case.
  function Copies(names: seq<seq<Byte>>, name: seq<Byte>): (n: nat)
    decreases |names|
  {
    if names == [] then 0
    else Copies(names[..|names| - 1], name) + if Lower(names[|names| - 1]) == Lower(name) then 1 else 0
  }

  lemma {:induction false} CopiesTwo(names: seq<seq<Byte>>, name: seq<Byte>, i: nat, j: nat)
    requires i <= j < |names| && Lower(names[i]) == Lower(names[j]) == Lower(name)
    ensures Copies(names, name) >= if i == j then 1 else 2
    decreases |names|
  {
    var last := |names| - 1;
    if j < last {
      CopiesTwo(names[..last], name, i, j);
    } else if i < j {
      CopiesTwo(names[..last], name, i, i);
    }
  }

  // It is the same entry for a name that at most one entry has.
  lemma OnceAgrees(names: seq<seq<Byte>>, name: seq<Byte>)
    requires Copies(names, name) <= 1
    ensures Find(names, name) == Scan(Keys(names), Lower(name), 0)
  {
    hide Search, Index, Less, Copies;
    IndexAgrees(names, name);
    var found, scanned := Find(names, name), Scan(Keys(names), Lower(name), 0);
    if found.Some? {
      CopiesTwo(names, name, scanned.value, found.value);
    }
  }

  predicate Same(keys: seq<seq<Byte>>) {
    forall i, j :: 0 <= i < |keys| && 0 <= j < |keys| ==> keys[i] == keys[j]
  }

  // Equal keys are not moved while the heap is made, and go round by one place while it is drained.
  lemma SiftSame(keys: seq<seq<Byte>>, s: seq<nat>, root: nat, size: nat)
    requires Indices(keys, s) && size <= |s| && Same(keys)
    ensures Sift(keys, s, root, size) == s
  {
    if 2 * root + 1 < size {
      var c := Child(keys, s, root, size);
      Trichotomy(keys[s[root]], keys[s[c]]);
    }
  }

  lemma {:induction false} BuildSame(keys: seq<seq<Byte>>, s: seq<nat>, start: nat)
    requires Indices(keys, s) && Same(keys)
    ensures Build(keys, s, start) == s
    decreases start
  {
    SiftSame(keys, s, start, |s|);
    if start > 0 {
      BuildSame(keys, s, start - 1);
    }
  }

  lemma {:induction false} DrainSame(keys: seq<seq<Byte>>, s: seq<nat>, end: nat)
    requires Indices(keys, s) && end < |s| && Same(keys) && forall i :: 1 <= i <= end ==> s[i] == i
    ensures var r := Drain(keys, s, end);
            r[end] == s[0] && (forall i :: 0 <= i < end ==> r[i] == i + 1) && forall i :: end < i < |s| ==> r[i] == s[i]
    decreases end
  {
    hide Less, Sift, Same;
    if end > 0 {
      var t := Swap(s, end, 0);
      SiftSame(keys, t, 0, end);
      DrainSame(keys, t, end - 1);
    }
  }

  function Repeated(name: seq<Byte>, k: nat): (names: seq<seq<Byte>>)
    ensures |names| == k && forall i :: 0 <= i < k ==> names[i] == name
  {
    seq(k, _ => name)
  }

  lemma {:induction false} CopiesAll(name: seq<Byte>, k: nat)
    ensures Copies(Repeated(name, k), name) == k
  {
    if k > 0 {
      CopiesAll(name, k - 1);
      assert Repeated(name, k)[..k - 1] == Repeated(name, k - 1);
    }
  }

  // With two copies or more it need not be: the scan finds the first one, the index one from the middle.
  lemma CopiesDiffer(name: seq<Byte>, k: nat)
    requires k >= 2
    ensures var names := Repeated(name, k);
            && Copies(names, name) == k && Find(names, name) == Some((k - 1) / 2 + 1)
            && Scan(Keys(names), Lower(name), 0) == Some(0)
  {
    hide Less, Index;
    var names := Repeated(name, k);
    CopiesAll(name, k);
    RepeatedIndex(name, k, (k - 1) / 2);
    assert Keys(names)[Index(names)[(k - 1) / 2]] == Lower(name);
  }

  lemma RepeatedIndex(name: seq<Byte>, k: nat, i: nat)
    requires i + 1 < k
    ensures Index(Repeated(name, k))[i] == i + 1
  {
    hide Less, Drain, Build;
    var keys := Keys(Repeated(name, k));
    BuildSame(keys, Upto(k), (k - 2) / 2);
    DrainSame(keys, Upto(k), k - 1);
  }

  // Whatever else is in the directory, the index finds the scan's entry exactly for names that at most
  // one entry has.
  lemma SameIfUnique(name: seq<Byte>, k: nat)
    ensures (forall names :: Copies(names, name) == k ==> Find(names, name) == Scan(Keys(names), Lower(name), 0))
            <==> k <= 1
  {
    hide Search, Index, Less, Copies, Find, Scan;
    if k <= 1 {
      forall names | Copies(names, name) == k ensures Find(names, name) == Scan(Keys(names), Lower(name), 0) {
        OnceAgrees(names, name);
      }
    } else {
      CopiesDiffer(name, k);
    }
  }

  // ---------------------------------------------------------------------------------
  // The source's loops.

  method FilenameLess(left: seq<Byte>, right: seq<Byte>) returns (less: bool)
    ensures less == Less(Lower(left), Lower(right))
  {
    ghost var a, b := Lower(left), Lower(right);
    var k, end := 0, if |left| < |right| then |left| else |right|;
    while k < end && ToLower(left[k]) == ToLower(right[k])
      invariant 0 <= k <= end && Less(a[k..], b[k..]) == Less(a, b)
    {
      assert a[k..][1..] == a[k + 1..] && b[k..][1..] == b[k + 1..];
      k := k + 1;
    }
    less := if k == end then |left| < |right| else ToLower(left[k]) < ToLower(right[k]);
  }

  method FilenameCompare(left: seq<Byte>, right: seq<Byte>) returns (c: int)
    ensures (c < 0) == Less(Lower(left), Lower(right)) && (c == 0) == (Lower(left) == Lower(right))
  {
    ghost var a, b := Lower(left), Lower(right);
    var k, end := 0, if |left| < |right| then |left| else |right|;
    while k < end && ToLower(left[k]) == ToLower(right[k])
      invariant 0 <= k <= end && Less(a[k..], b[k..]) == Less(a, b) && a[..k] == b[..k]
    {
      assert a[k..][1..] == a[k + 1..] && b[k..][1..] == b[k + 1..];
      k := k + 1;
    }
    c := if k == end then |left| - |right| else ToLower(left[k]) - ToLower(right[k]);
    assert k < end ==> a[k] != b[k];
    assert k == |a| == |b| ==> a == b;
  }

  method IsBefore(names: seq<seq<Byte>>, indices: array<nat>, i: nat, j: nat) returns (before: bool)
    requires Indices(Keys(names), indices[..]) && i < indices.Length && j < indices.Length
    ensures before == Before(Keys(names), indices[..], i, j)
  {
    before := FilenameLess(names[indices[i]], names[indices[j]]);
  }

  // An entry goes down the heap as long as a child comes after it.
  method SiftDown(names: seq<seq<Byte>>, indices: array<nat>, start: nat, size: nat)
    requires Indices(Keys(names), indices[..]) && size <= indices.Length
    modifies indices
    ensures indices[..] == Sift(Keys(names), old(indices[..]), start, size)
  {
    hide Before, Indices;
    ghost var keys := Keys(names);
    var root := start;
    while 2 * root + 1 < size
      invariant root >= 0 && Indices(keys, indices[..])
      invariant Sift(keys, indices[..], root, size) == Sift(keys, old(indices[..]), start, size)
      decreases size - root
    {
      var child := 2 * root + 1;
      if child + 1 < size {
        var right := IsBefore(names, indices, child, child + 1);
        child := child + if right then 1 else 0;
      }
      var down := IsBefore(names, indices, root, child);
      if !down {
        return;
      }
      ghost var s := indices[..];
      SwapKeeps(keys, s, root, child);
      indices[root], indices[child] := indices[child], indices[root];
      assert indices[..] == Swap(s, root, child);
      root := child;
    }
  }

  lemma SwapKeeps(keys: seq<seq<Byte>>, s: seq<nat>, i: nat, j: nat)
    requires Indices(keys, s) && i < |s| && j < |s|
    ensures Indices(keys, Swap(s, i, j))
  {
  }

  method BuildHeap(names: seq<seq<Byte>>, indices: array<nat>)
    requires Indices(Keys(names), indices[..]) && indices.Length >= 2
    modifies indices
    ensures indices[..] == Build(Keys(names), old(indices[..]), (indices.Length - 2) / 2)
  {
    hide Sift, Indices;
    ghost var keys := Keys(names);
    var start := (indices.Length - 2) / 2;
    while start > 0
      invariant start >= 0 && Indices(keys, indices[..])
      invariant Build(keys, indices[..], start) == Build(keys, old(indices[..]), (indices.Length - 2) / 2)
    {
      SiftDown(names, indices, start, indices.Length);
      start := start - 1;
    }
    SiftDown(names, indices, 0, indices.Length);
  }

  // The last of the heap goes to the end of the list, again and again.
  method DrainHeap(names: seq<seq<Byte>>, indices: array<nat>)
    requires Indices(Keys(names), indices[..]) && indices.Length >= 2
    modifies indices
    ensures indices[..] == Drain(Keys(names), old(indices[..]), indices.Length - 1)
  {
    hide Sift, Indices;
    ghost var keys := Keys(names);
    var end := indices.Length - 1;
    while end > 0
      invariant 0 <= end < indices.Length && Indices(keys, indices[..])
      invariant Drain(keys, indices[..], end) == Drain(keys, old(indices[..]), indices.Length - 1)
    {
      ghost var s := indices[..];
      SwapKeeps(keys, s, end, 0);
      indices[end], indices[0] := indices[0], indices[end];
      assert indices[..] == Swap(s, end, 0);
      SiftDown(names, indices, 0, end);
      end := end - 1;
    }
  }

  method SortByFilename(names: seq<seq<Byte>>, indices: array<nat>)
    requires Indices(Keys(names), indices[..])
    modifies indices
    ensures indices[..] == HeapSort(Keys(names), old(indices[..]))
  {
    hide Build, Drain, Indices;
    if indices.Length > 1 {
      BuildHeap(names, indices);
      DrainHeap(names, indices);
    }
  }

  method MakeIndex(names: seq<seq<Byte>>) returns (indices: array<nat>)
    ensures fresh(indices) && indices[..] == Index(names)
  {
    indices := new nat[|names|](_ => 0);
    for i := 0 to |names|
      invariant forall j :: 0 <= j < i ==> indices[j] == j
    {
      indices[i] := i;
    }
    assert indices[..] == Upto(|names|);
    SortByFilename(names, indices);
  }

  method BinarySearch(names: seq<seq<Byte>>, indices: array<nat>, name: seq<Byte>) returns (r: Option<nat>)
    requires Indices(Keys(names), indices[..])
    ensures r == Search(Keys(names), indices[..], Lower(name), 0, indices.Length)
  {
    hide Less;
    ghost var keys, key := Keys(names), Lower(name);
    var l, h := 0, indices.Length - 1;
    while l <= h
      invariant 0 <= l <= h + 1 <= indices.Length
      invariant Search(keys, indices[..], key, l, h + 1) == Search(keys, indices[..], key, 0, indices.Length)
    {
      var m := l + (h - l) / 2;
      var c := FilenameCompare(names[indices[m]], name);
      if c == 0 {
        return Some(indices[m]);
      } else if c < 0 {
        l := m + 1;
      } else {
        h := m - 1;
      }
    }
    r := None;
  }

  // ---------------------------------------------------------------------------------
  // Locating a file.

  datatype Entry = Entry(name: seq<Byte>, comment: seq<Byte>)

  // What a search ends with.
  datatype Location = Located(index: nat) | NotFound | InvalidParameter

  datatype Options = Options(ignorePath: bool, caseSensitive: bool)

  function Names(entries: seq<Entry>): (r: seq<seq<Byte>>)
    ensures |r| == |entries| && forall i :: 0 <= i < |entries| ==> r[i] == entries[i].name
  {
    seq(|entries|, i requires 0 <= i < |entries| => entries[i].name)
  }

  predicate Separator(c: Byte) {
    c == '/' as int || c == '\\' as int || c == ':' as int
  }

  // Where the part of a name after its path begins.
  function NameStart(s: seq<Byte>, n: nat): (k: nat)
    requires n <= |s|
    ensures k <= n && (k > 0 ==> Separator(s[k - 1])) && forall i :: k <= i < n ==> !Separator(s[i])
  {
    if n == 0 || Separator(s[n - 1]) then n else NameStart(s, n - 1)
  }

  predicate Equal(a: seq<Byte>, b: seq<Byte>, o: Options) {
    if o.caseSensitive then a == b else Lower(a) == Lower(b)
  }

  // No comment and an empty one ask for the same.
  function Text(comment: Option<seq<Byte>>): seq<Byte> {
    if comment.Some? then comment.value else []
  }

  // Whether an entry is one of those looked for.
  predicate Wanted(e: Entry, name: seq<Byte>, comment: Option<seq<Byte>>, o: Options) {
    && (Text(comment) == [] || Equal(Text(comment), e.comment, o))
    && Equal(name, if o.ignorePath then e.name[NameStart(e.name, |e.name|)..] else e.name, o)
  }

  // The index knows names up to case only.
  predicate UsesIndex(entries: seq<Entry>, index: Option<array<nat>>, comment: Option<seq<Byte>>, o: Options) {
    index.Some? && !o.ignorePath && !o.caseSensitive && comment.None? && entries != []
  }

  lemma FoundWanted(entries: seq<Entry>, name: seq<Byte>)
    ensures var r, o := Find(Names(entries), name), Options(false, false);
            && (r.Some? ==> r.value < |entries| && Wanted(entries[r.value], name, None, o))
            && (r.None? ==> forall i :: 0 <= i < |entries| ==> !Wanted(entries[i], name, None, o))
  {
    hide Find, Lower;
    var keys := Keys(Names(entries));
    IndexAgrees(Names(entries), name);
    assert forall i :: 0 <= i < |entries| ==> keys[i] == Lower(entries[i].name);
  }

  method StringEqual(a: seq<Byte>, b: seq<Byte>, o: Options) returns (equal: bool)
    requires |a| == |b|
    ensures equal == Equal(a, b, o)
  {
    if o.caseSensitive {
      return a == b;
    }
    for i := 0 to |a|
      invariant Lower(a)[..i] == Lower(b)[..i]
    {
      if ToLower(a[i]) != ToLower(b[i]) {
        assert Lower(a)[i] != Lower(b)[i];
        return false;
      }
    }
    assert Lower(a)[..|a|] == Lower(a) && Lower(b)[..|a|] == Lower(b);
    equal := true;
  }

  // The body of the scan's loop: names that are too short are passed over, path or not.
  method IsWanted(e: Entry, name: seq<Byte>, comment: seq<Byte>, o: Options) returns (wanted: bool)
    ensures wanted == Wanted(e, name, Some(comment), o)
  {
    var ofs := 0;
    if |e.name| < |name| {
      return false;
    }
    if |comment| > 0 {
      var same := false;
      if |e.comment| == |comment| {
        same := StringEqual(comment, e.comment, o);
      }
      if !same {
        return false;
      }
    }
    if o.ignorePath && |e.name| > 0 {
      ofs := |e.name|;
      while ofs > 0 && !Separator(e.name[ofs - 1])
        invariant 0 <= ofs <= |e.name| && NameStart(e.name, ofs) == NameStart(e.name, |e.name|)
      {
        ofs := ofs - 1;
      }
    }
    wanted := false;
    if |e.name| - ofs == |name| {
      wanted := StringEqual(name, e.name[ofs..], o);
    }
  }

  // Whatever the options and whether or not the index is used, an entry that is located is one of those
  // looked for, and none is only if there is none; the scan locates the first one.
  method LocateFile(entries: seq<Entry>, index: Option<array<nat>>, name: seq<Byte>, comment: Option<seq<Byte>>,
      o: Options)
    returns (r: Location)
    requires forall i :: 0 <= i < |entries| ==> |entries[i].name| < 0x1_0000 && |entries[i].comment| < 0x1_0000
    requires index.Some? ==> index.value[..] == Index(Names(entries))
    ensures r.InvalidParameter? ==
            (!UsesIndex(entries, index, comment, o) && (|name| >= 0x1_0000 || |Text(comment)| >= 0x1_0000))
    ensures r.Located? ==> r.index < |entries| && Wanted(entries[r.index], name, comment, o)
    ensures !r.Located? ==> forall i :: 0 <= i < |entries| ==> !Wanted(entries[i], name, comment, o)
    ensures r.Located? && UsesIndex(entries, index, comment, o) ==> Find(Names(entries), name) == Some(r.index)
    ensures r.Located? && !UsesIndex(entries, index, comment, o) ==>
              forall i :: 0 <= i < r.index ==> !Wanted(entries[i], name, comment, o)
  {
    hide Search, Index, Less;
    if index.Some? && !o.ignorePath && !o.caseSensitive && comment.None? && |entries| > 0 {
      var found := BinarySearch(Names(entries), index.value, name);
      FoundWanted(entries, name);
      assert index.value.Length == |index.value[..]| == |Names(entries)|;
      return if found.Some? then Located(found.value) else NotFound;
    }
    if |name| >= 0x1_0000 || |Text(comment)| >= 0x1_0000 {
      return InvalidParameter;
    }
    for i := 0 to |entries|
      invariant forall j :: 0 <= j < i ==> !Wanted(entries[j], name, comment, o)
    {
      var wanted := IsWanted(entries[i], name, Text(comment), o);
      if wanted {
        return Located(i);
      }
    }
    r := NotFound;
  }
}
