/**
  getValues()'s merge: name-sorted runs, one a shard, held in a binary heap by their first
  name.  Each turn invokes the least entry's callback, advances or drops its run, and sifts
  the new top down.
 */
module KWayMerge {
  import opened Options

  /** A callback entry; `value` is what its callback gives when it is invoked, none once it has been cleared. */
  datatype Entry<V> = Entry(name: string, value: Option<V>)

  // ----- the order of names -----

  /** Strictly before, comparing character by character. */
  predicate Below(a: string, b: string) {
    if b == "" then false
    else if a == "" then true
    else a[0] < b[0] || (a[0] == b[0] && Below(a[1..], b[1..]))
  }

  /** The order is that of std::string_view: a proper prefix comes first, else the first difference decides. */
  lemma {:induction false} BelowIff(a: string, b: string)
    ensures Below(a, b)
       <==> (|a| < |b| && a == b[..|a|])
            || exists i :: 0 <= i < |a| && i < |b| && a[..i] == b[..i] && a[i] < b[i]
  {
    if a != "" && b != "" {
      BelowIff(a[1..], b[1..]);
      assert a == [a[0]] + a[1..] && b == [b[0]] + b[1..];
      if a[0] == b[0] {
        if |a| < |b| {
          assert a == b[..|a|] <==> a[1..] == b[1..][..|a| - 1] by { SamePrefix(a, b, |a|); }
        }
        forall i | 0 < i < |a| && i < |b| ensures a[..i] == b[..i] <==> a[1..][..i - 1] == b[1..][..i - 1] {
          SamePrefix(a, b, i);
        }
        if Below(a, b) && !(|a| < |b| && a == b[..|a|]) {
          var i :| 0 <= i < |a[1..]| && i < |b[1..]| && a[1..][..i] == b[1..][..i] && a[1..][i] < b[1..][i];
          assert a[..i + 1] == b[..i + 1] && a[i + 1] < b[i + 1];
        }
        if i :| 0 <= i < |a| && i < |b| && a[..i] == b[..i] && a[i] < b[i] {
          assert a[1..][..i - 1] == b[1..][..i - 1] && a[1..][i - 1] < b[1..][i - 1];
        }
      } else {
        assert a[..0] == b[..0];
        forall i | 0 < i < |a| && i < |b| ensures a[..i] != b[..i] {
          assert a[..i][0] == a[0] && b[..i][0] == b[0];
        }
      }
    }
  }

  lemma SamePrefix(a: string, b: string, i: nat)
    requires 0 < i <= |a| && i <= |b| && a[0] == b[0]
    ensures a[..i] == b[..i] <==> a[1..][..i - 1] == b[1..][..i - 1]
  {
    assert a[..i] == [a[0]] + a[1..][..i - 1] && b[..i] == [b[0]] + b[1..][..i - 1];
  }

  predicate AtMost(a: string, b: string) { !Below(b, a) }

  lemma {:induction false} BelowTransitive(a: string, b: string, c: string)
    ensures Below(a, b) && Below(b, c) ==> Below(a, c)
    ensures AtMost(a, b) && AtMost(b, c) ==> AtMost(a, c)
    ensures !(Below(a, b) && Below(b, a))
    decreases |a| + |b| + |c|
  {
    if a != "" && b != "" && c != "" {
      BelowTransitive(a[1..], b[1..], c[1..]);
    } else if a != "" && b != "" {
      BelowTransitive(a[1..], b[1..], c);
    }
  }

  // ----- runs -----

  predicate Ascending<V>(run: seq<Entry<V>>) {
    forall i, j :: 0 <= i < j < |run| ==> AtMost(run[i].name, run[j].name)
  }

  /** Runs that are still in the heap. */
  predicate Runs<V>(rs: seq<seq<Entry<V>>>) {
    forall i :: 0 <= i < |rs| ==> rs[i] != [] && Ascending(rs[i])
  }

  ghost function Flat<V>(rs: seq<seq<Entry<V>>>): multiset<Entry<V>> {
    if rs == [] then multiset{} else Flat(rs[..|rs| - 1]) + multiset(rs[|rs| - 1])
  }

  lemma {:induction false} FlatUpdate<V>(rs: seq<seq<Entry<V>>>, i: nat, run: seq<Entry<V>>)
    requires i < |rs|
    ensures Flat(rs[i := run]) + multiset(rs[i]) == Flat(rs) + multiset(run)
  {
    var n := |rs| - 1;
    if i == n {
      assert rs[i := run][..n] == rs[..n];
    } else {
      assert rs[i := run][..n] == rs[..n][i := run];
      FlatUpdate(rs[..n], i, run);
      assert rs[i := run][n] == rs[n] && rs[..n][i] == rs[i];
      AddToBoth(Flat(rs[..n][i := run]), multiset(rs[i]), Flat(rs[..n]), multiset(run), multiset(rs[n]));
    }
  }

  lemma AddToBoth<T>(a: multiset<T>, b: multiset<T>, c: multiset<T>, d: multiset<T>, e: multiset<T>)
    requires a + b == c + d
    ensures (a + e) + b == (c + e) + d
  {
    assert (a + e) + b == (a + b) + e && (c + e) + d == (c + d) + e;
  }

  lemma Cancel<T>(a: multiset<T>, b: multiset<T>, c: multiset<T>)
    requires a + c == b + c
    ensures a == b
  {
    assert forall e :: a[e] + c[e] == (a + c)[e] && b[e] + c[e] == (b + c)[e];
  }

  function Swapped<T>(s: seq<T>, i: nat, j: nat): seq<T>
    requires i < |s| && j < |s|
  {
    s[i := s[j]][j := s[i]]
  }

  lemma FlatSwap<V>(rs: seq<seq<Entry<V>>>, i: nat, j: nat)
    requires i < |rs| && j < |rs|
    ensures Flat(Swapped(rs, i, j)) == Flat(rs)
  {
    FlatUpdate(rs, i, rs[j]);
    FlatUpdate(rs[i := rs[j]], j, rs[i]);
    assert rs[i := rs[j]][j] == rs[j];
    assert Flat(Swapped(rs, i, j)) + multiset(rs[j]) == Flat(rs) + multiset(rs[j]);
    Cancel(Flat(Swapped(rs, i, j)), Flat(rs), multiset(rs[j]));
  }

  // ----- the heap -----

  predicate InOrder<V>(rs: seq<seq<Entry<V>>>, parent: nat, child: nat)
    requires Runs(rs) && parent < |rs| && child < |rs|
  {
    AtMost(rs[parent][0].name, rs[child][0].name)
  }

  predicate IsChild(parent: int, child: int) { child == 2 * parent + 1 || child == 2 * parent + 2 }

  /** Every parent from `lo` on, other than `gap`, is in order with its children. */
  predicate HeapBut<V>(rs: seq<seq<Entry<V>>>, lo: int, gap: int) {
    Runs(rs) && forall p, c :: 0 <= p < |rs| && 0 <= c < |rs| && IsChild(p, c) && lo <= p != gap ==> InOrder(rs, p, c)
  }

  predicate IsHeap<V>(rs: seq<seq<Entry<V>>>) { HeapBut(rs, 0, -1) }

  lemma {:induction false} RootIsLeast<V>(rs: seq<seq<Entry<V>>>, k: nat)
    requires IsHeap(rs) && k < |rs|
    ensures InOrder(rs, 0, k)
  {
    if k > 0 {
      var p := (k - 1) / 2;
      RootIsLeast(rs, p);
      assert IsChild(p, k) && InOrder(rs, p, k);
      BelowTransitive(rs[0][0].name, rs[p][0].name, rs[k][0].name);
    } else {
      BelowTransitive(rs[0][0].name, rs[0][0].name, rs[0][0].name);
    }
  }

  /** The gap's parent is in order with the gap's children, so that the gap may move down. */
  predicate Bridged<V>(rs: seq<seq<Entry<V>>>, lo: nat, gap: nat)
    requires Runs(rs)
  {
    forall p, c :: 0 <= p < |rs| && 0 <= c < |rs| && IsChild(p, gap) && IsChild(gap, c) && lo <= p ==> InOrder(rs, p, c)
  }

  predicate LeastChild<V>(rs: seq<seq<Entry<V>>>, gap: nat, child: nat)
    requires Runs(rs) && child < |rs|
  {
    forall c :: 0 <= c < |rs| && IsChild(gap, c) ==> InOrder(rs, child, c)
  }

  lemma SwapKeepsRuns<V>(rs: seq<seq<Entry<V>>>, i: nat, j: nat)
    requires Runs(rs) && i < |rs| && j < |rs|
    ensures Runs(Swapped(rs, i, j)) && forall r :: r in Swapped(rs, i, j) <==> r in rs
  {
    var s := Swapped(rs, i, j);
    forall r | r in rs ensures r in s {
      var k :| 0 <= k < |rs| && rs[k] == r;
      assert s[if k == i then j else if k == j then i else k] == r;
    }
  }

  /** The right child where its name is below the left one's, else the left one. */
  lemma ChosenChild<V>(rs: seq<seq<Entry<V>>>, gap: nat)
    requires Runs(rs) && 2 * gap + 1 < |rs|
    ensures var l := 2 * gap + 1;
      LeastChild(rs, gap, if l + 1 < |rs| && Below(rs[l + 1][0].name, rs[l][0].name) then l + 1 else l)
  {
    hide Below;
    var l := 2 * gap + 1;
    BelowTransitive(rs[l][0].name, rs[l][0].name, rs[l][0].name);
    if l + 1 < |rs| {
      BelowTransitive(rs[l][0].name, rs[l + 1][0].name, rs[l][0].name);
      BelowTransitive(rs[l + 1][0].name, rs[l + 1][0].name, rs[l + 1][0].name);
    }
  }

  /** One turn of the sift: the least child comes up and the gap moves down to it. */
  lemma SiftStep<V>(rs: seq<seq<Entry<V>>>, lo: nat, gap: nat, child: nat)
    requires HeapBut(rs, lo, gap) && Bridged(rs, lo, gap) && lo <= gap < child < |rs| && IsChild(gap, child)
    requires LeastChild(rs, gap, child) && !InOrder(rs, gap, child)
    ensures HeapBut(Swapped(rs, gap, child), lo, child) && Bridged(Swapped(rs, gap, child), lo, child)
  {
    hide Ascending, Below;
    var s := Swapped(rs, gap, child);
    SwapKeepsRuns(rs, gap, child);
    BelowTransitive(rs[child][0].name, rs[gap][0].name, rs[child][0].name);
    forall p, c | 0 <= p < |s| && 0 <= c < |s| && IsChild(p, c) && lo <= p != child ensures InOrder(s, p, c) {
      if p == gap {
        assert InOrder(rs, child, c);
      } else if c == gap {
        assert InOrder(rs, p, child);
      } else {
        assert InOrder(rs, p, c);
      }
    }
    forall p, c | 0 <= p < |s| && 0 <= c < |s| && IsChild(p, child) && IsChild(child, c) && lo <= p
      ensures InOrder(s, p, c)
    {
      assert InOrder(rs, child, c);
    }
  }

  /** The sift may stop where the gap is in order with its least child. */
  lemma SiftDone<V>(rs: seq<seq<Entry<V>>>, lo: nat, gap: nat, child: nat)
    requires HeapBut(rs, lo, gap) && child < |rs| && LeastChild(rs, gap, child) && gap < |rs| && InOrder(rs, gap, child)
    ensures HeapBut(rs, lo, -1)
  {
    hide Ascending, Below;
    forall p, c | 0 <= p < |rs| && 0 <= c < |rs| && IsChild(p, c) && lo <= p ensures InOrder(rs, p, c) {
      if p == gap {
        assert InOrder(rs, child, c);
        BelowTransitive(rs[gap][0].name, rs[child][0].name, rs[c][0].name);
      }
    }
  }

  /** down_heap(), from `top` in the first n cells. */
  method DownHeap<V>(heap: array<seq<Entry<V>>>, n: nat, top: nat)
    requires n <= heap.Length && HeapBut(heap[..n], top, top)
    modifies heap
    ensures HeapBut(heap[..n], top, -1) && Flat(heap[..n]) == old(Flat(heap[..n])) && heap[n..] == old(heap[n..])
    ensures forall r :: r in heap[..n] <==> r in old(heap[..n])
  {
    hide Ascending, Below, Flat;
    var gap := top;
    ghost var rs: seq<seq<Entry<V>>> := heap[..n];
    while 2 * gap + 1 < n
      invariant top <= gap && rs == heap[..n] && HeapBut(rs, top, gap) && Bridged(rs, top, gap)
      invariant Flat(rs) == old(Flat(heap[..n])) && heap[n..] == old(heap[n..])
      invariant forall r :: r in rs <==> r in old(heap[..n])
      decreases n - gap
    {
      var child := 2 * gap + 1;
      if child + 1 < n && Below(heap[child + 1][0].name, heap[child][0].name) {
        child := child + 1;
      }
      ChosenChild(rs, gap);
      if !Below(heap[child][0].name, heap[gap][0].name) {
        SiftDone(rs, top, gap, child);
        return;
      }
      SiftStep(rs, top, gap, child);
      FlatSwap(rs, gap, child);
      SwapKeepsRuns(rs, gap, child);
      heap[gap], heap[child] := heap[child], heap[gap];
      assert heap[..n] == Swapped(rs, gap, child);
      rs := heap[..n];
      gap := child;
    }
  }

  /** make_heap(): sifts every parent down, from the last one up. */
  method MakeHeap<V>(heap: array<seq<Entry<V>>>, n: nat)
    requires n <= heap.Length && Runs(heap[..n])
    modifies heap
    ensures IsHeap(heap[..n]) && Flat(heap[..n]) == old(Flat(heap[..n])) && heap[n..] == old(heap[n..])
  {
    hide Ascending, Below, Flat;
    var top: nat := n / 2;
    while top > 0
      invariant top <= n && HeapBut(heap[..n], top, -1)
      invariant Flat(heap[..n]) == old(Flat(heap[..n])) && heap[n..] == old(heap[n..])
    {
      top := top - 1;
      DownHeap(heap, n, top);
    }
  }

  // ----- the merge -----

  /** The output map once the visited entries' callbacks have been invoked in turn. */
  function Applied<V>(output: map<string, V>, visited: seq<Entry<V>>): map<string, V> {
    if visited == [] then output
    else
      var before, e := Applied(output, visited[..|visited| - 1]), visited[|visited| - 1];
      if e.value.Some? then before[e.name := e.value.value] else before
  }

  /** Everything left comes at or after what was visited last. */
  ghost predicate Behind<V>(visited: seq<Entry<V>>, rs: seq<seq<Entry<V>>>) {
    visited != [] ==> forall r: seq<Entry<V>> :: r in rs && r != [] ==> AtMost(visited[|visited| - 1].name, r[0].name)
  }

  lemma VisitAscends<V>(visited: seq<Entry<V>>, rs: seq<seq<Entry<V>>>)
    requires Ascending(visited) && IsHeap(rs) && rs != [] && Behind(visited, rs)
    ensures Ascending(visited + [rs[0][0]])
  {
    hide Below, HeapBut;
    HeapRuns(rs);
    var v := visited + [rs[0][0]];
    forall i, j | 0 <= i < j < |v| ensures AtMost(v[i].name, v[j].name) {
      if j == |visited| {
        assert rs[0] in rs;
        if i < |visited| - 1 {
          BelowTransitive(v[i].name, v[|visited| - 1].name, v[j].name);
        }
      }
    }
  }

  lemma HeapRuns<V>(rs: seq<seq<Entry<V>>>)
    requires IsHeap(rs)
    ensures Runs(rs)
  {}

  /** After a visit to the top run's first entry, all that is left comes at or after it. */
  lemma VisitBehind<V>(visited: seq<Entry<V>>, rs: seq<seq<Entry<V>>>, left: seq<seq<Entry<V>>>)
    requires IsHeap(rs) && rs != []
    requires forall r :: r in left ==> r in rs || r == rs[0][1..]
    ensures Behind(visited + [rs[0][0]], left)
  {
    hide Below;
    forall r: seq<Entry<V>> | r in left && r != [] ensures AtMost(rs[0][0].name, r[0].name) {
      if r in rs {
        var k :| 0 <= k < |rs| && rs[k] == r;
        RootIsLeast(rs, k);
      } else {
        assert AtMost(rs[0][0].name, rs[0][1].name);
      }
    }
  }

  /** What a turn does to the runs before the sift. */
  function Advanced<V>(rs: seq<seq<Entry<V>>>): seq<seq<Entry<V>>>
    requires rs != [] && rs[0] != []
  {
    if rs[0][1..] != [] then rs[0 := rs[0][1..]]
    else rs[0 := rs[|rs| - 1]][..|rs| - 1]
  }

  /** The first entry leaves its run. */
  lemma AdvanceFlat<V>(rs: seq<seq<Entry<V>>>)
    requires rs != [] && rs[0] != []
    ensures Flat(rs) == Flat(rs[0 := rs[0][1..]]) + multiset{rs[0][0]}
  {
    hide Flat;
    var rest := rs[0][1..];
    assert rs[0] == [rs[0][0]] + rest;
    FlatUpdate(rs, 0, rest);
    Cancel(Flat(rs[0 := rest]) + multiset{rs[0][0]}, Flat(rs), multiset(rest));
  }

  /** An empty run leaves the heap. */
  lemma DropFlat<V>(rs: seq<seq<Entry<V>>>)
    requires rs != [] && rs[0] == []
    ensures Flat(rs[0 := rs[|rs| - 1]][..|rs| - 1]) == Flat(rs)
  {
    var n := |rs| - 1;
    FlatSwap(rs, 0, n);
    assert rs[0 := rs[n]][..n] == Swapped(rs, 0, n)[..n];
    assert Swapped(rs, 0, n)[n] == [];
  }

  lemma AdvancedFlat<V>(rs: seq<seq<Entry<V>>>)
    requires rs != [] && rs[0] != []
    ensures Flat(rs) == Flat(Advanced(rs)) + multiset{rs[0][0]}
  {
    hide Flat;
    AdvanceFlat(rs);
    if rs[0][1..] == [] {
      var a, n := rs[0 := rs[0][1..]], |rs| - 1;
      DropFlat(a);
      assert a[0 := a[n]][..n] == Advanced(rs);
    }
  }

  lemma AdvancedHeap<V>(rs: seq<seq<Entry<V>>>)
    requires IsHeap(rs) && rs != []
    ensures HeapBut(Advanced(rs), 0, 0) && forall r :: r in Advanced(rs) ==> r in rs || r == rs[0][1..]
  {
    hide Below;
    var a := Advanced(rs);
    assert Ascending(rs[0][1..]);
    forall i | 0 <= i < |a| ensures a[i] != [] && Ascending(a[i]) {
      assert a[i] == rs[0][1..] || a[i] in rs;
    }
    forall p, c | 0 <= p < |a| && 0 <= c < |a| && IsChild(p, c) && p != 0 ensures InOrder(a, p, c) {
      assert InOrder(rs, p, c);
    }
  }

  /** One turn: visit the top, advance its run or put the last run in its place, and sift. */
  method Turn<V>(heap: array<seq<Entry<V>>>, n: nat) returns (e: Entry<V>, left: nat)
    requires 0 < n <= heap.Length && IsHeap(heap[..n])
    modifies heap
    ensures e == old(heap[0][0]) && left <= n && IsHeap(heap[..left])
    ensures old(Flat(heap[..n])) == Flat(heap[..left]) + multiset{e}
    ensures forall r :: r in heap[..left] ==> r in old(heap[..n]) || r == old(heap[0][1..])
  {
    hide Below, HeapBut, Flat;
    ghost var rs := heap[..n];
    HeapRuns(rs);
    AdvancedHeap(rs);
    AdvancedFlat(rs);
    e := heap[0][0];
    left := n;
    heap[0] := heap[0][1..];
    if heap[0] == [] {
      heap[0], heap[n - 1] := heap[n - 1], heap[0];
      left := n - 1;
    }
    assert heap[..left] == Advanced(rs);
    DownHeap(heap, left, 0);
  }

  lemma FlatAppend<V>(rs: seq<seq<Entry<V>>>, run: seq<Entry<V>>)
    ensures Flat(rs + [run]) == Flat(rs) + multiset(run)
  {
    assert (rs + [run])[..|rs|] == rs;
  }

  lemma FlatUpTo<V>(rs: seq<seq<Entry<V>>>, i: nat)
    requires i < |rs|
    ensures Flat(rs[..i + 1]) == Flat(rs[..i]) + multiset(rs[i])
  {
    assert rs[..i + 1] == rs[..i] + [rs[i]];
    FlatAppend(rs[..i], rs[i]);
  }

  /** The runs of the non-empty shards. */
  method FillHeap<V>(shards: seq<seq<Entry<V>>>) returns (heap: array<seq<Entry<V>>>, n: nat)
    requires forall i :: 0 <= i < |shards| ==> Ascending(shards[i])
    ensures fresh(heap) && n <= heap.Length && Runs(heap[..n]) && Flat(heap[..n]) == Flat(shards)
  {
    hide Ascending, Flat;
    heap := new seq<Entry<V>>[|shards|](_ => []);
    n := 0;
    var i := 0;
    assert heap[..0] == shards[..0];
    while i < |shards|
      invariant n <= i <= |shards| && Runs(heap[..n]) && Flat(heap[..n]) == Flat(shards[..i])
    {
      FlatUpTo(shards, i);
      if shards[i] != [] {
        ghost var filled := heap[..n];
        heap[n] := shards[i];
        n := n + 1;
        assert heap[..n] == filled + [shards[i]];
        FlatAppend(filled, shards[i]);
      }
      i := i + 1;
    }
    assert shards[..i] == shards;
  }

  // ----- what the output holds -----

  ghost predicate DistinctNames<V>(entries: multiset<Entry<V>>) {
    forall a, b :: a in entries && b in entries && a.name == b.name ==> a == b
  }

  /** The old map overridden, at one name, by the entry of that name if its callback returned a value. */
  ghost predicate OverriddenAt<V>(output: map<string, V>, merged: map<string, V>, entries: multiset<Entry<V>>,
      name: string) {
    && (forall e :: e in entries && e.name == name && e.value.Some? ==> name in merged && merged[name] == e.value.value)
    && ((forall e :: e in entries && e.name == name ==> e.value == None) ==>
          (name in merged <==> name in output) && (name in output ==> merged[name] == output[name]))
  }

  lemma {:induction false} AppliedAt<V>(output: map<string, V>, visited: seq<Entry<V>>, name: string)
    requires DistinctNames(multiset(visited))
    ensures OverriddenAt(output, Applied(output, visited), multiset(visited), name)
  {
    if visited != [] {
      var n := |visited| - 1;
      assert visited == visited[..n] + [visited[n]];
      assert multiset(visited) == multiset(visited[..n]) + multiset{visited[n]};
      AppliedAt(output, visited[..n], name);
    }
  }

  /**
    With distinct names, whatever the order of the shards and their sizes, the output is the
    old map overridden by every callback that returned a value, and nothing else.
   */
  lemma MergeOverrides<V>(output: map<string, V>, visited: seq<Entry<V>>, entries: multiset<Entry<V>>)
    requires multiset(visited) == entries && DistinctNames(entries)
    ensures forall name :: OverriddenAt(output, Applied(output, visited), entries, name)
  {
    forall name ensures OverriddenAt(output, Applied(output, visited), entries, name) {
      AppliedAt(output, visited, name);
    }
  }

  /**
    invokeAndMergeInto(): visits every entry exactly once, in ascending order of name, and
    leaves the output as those visits in that order make it.
   */
  method InvokeAndMergeInto<V>(output: map<string, V>, shards: seq<seq<Entry<V>>>)
    returns (merged: map<string, V>, ghost visited: seq<Entry<V>>)
    requires forall i :: 0 <= i < |shards| ==> Ascending(shards[i])
    ensures Ascending(visited) && multiset(visited) == Flat(shards)
    ensures merged == Applied(output, visited)
    ensures DistinctNames(Flat(shards)) ==> forall name :: OverriddenAt(output, merged, Flat(shards), name)
  {
    hide Below, HeapBut, Flat, Ascending, OverriddenAt;
    var heap: array<seq<Entry<V>>>;
    var n: nat;
    heap, n := FillHeap(shards);
    MakeHeap(heap, n);
    merged, visited := output, [];
    NothingAscends<V>();
    while n > 0
      invariant n <= heap.Length && IsHeap(heap[..n]) && Behind(visited, heap[..n]) && Ascending(visited)
      invariant multiset(visited) + Flat(heap[..n]) == Flat(shards)
      invariant merged == Applied(output, visited)
      decreases |Flat(heap[..n])|
    {
      ghost var rs := heap[..n];
      VisitAscends(visited, rs);
      var e: Entry<V>;
      e, n := Turn(heap, n);
      VisitBehind(visited, rs, heap[..n]);
      if e.value.Some? {
        merged := merged[e.name := e.value.value];
      }
      assert (visited + [e])[..|visited|] == visited;
      visited := visited + [e];
    }
    EmptyFlat(heap[..n]);
    if DistinctNames(Flat(shards)) {
      MergeOverrides(output, visited, Flat(shards));
    }
  }

  lemma NothingAscends<V>()
    ensures Ascending<V>([])
  {}

  lemma EmptyFlat<V>(rs: seq<seq<Entry<V>>>)
    requires rs == []
    ensures Flat(rs) == multiset{}
  {}
}
