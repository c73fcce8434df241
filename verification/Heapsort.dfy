/** array.sort(): a heap sort on an unusual heap.  The children of node i are nodes 2i and 2i + 1
    although the root is node 0, so node 0 is its own left child. */
module Heapsort {
  /** What a compare function reports; it may fail. */
  datatype Verdict = Error | Result(ret: int)

  /** The compare function.  It is told how many calls came before, so it may answer the same
      question differently each time. */
  type Compare<!T> = (nat, T, T) -> Verdict

  ghost predicate TotalPreorder<T(!new)>(le: (T, T) -> bool) {
    && (forall x, y :: le(x, y) || le(y, x))
    && (forall x, y, z :: le(x, y) && le(y, z) ==> le(x, z))
  }

  /** A call that was made: the array as it was then, the two nodes compared, and the verdict. */
  datatype Call<T> = Call(s: seq<T>, i: nat, j: nat, verdict: Verdict)
  {
    /** Sorting gives up: the compare function failed, or found an element smaller than itself. */
    predicate Ends() { verdict.Error? || (i == j && verdict.ret < 0) }
  }

  /** These calls were made in this order, the first of them after `calls` others, on rearrangements of `was`,
      and none but the last made sorting give up. */
  ghost predicate Made<T>(log: seq<Call<T>>, cmp: Compare<T>, calls: nat, was: seq<T>) {
    && (forall k :: 0 <= k < |log| ==> CallMade(log[k], cmp, calls + k, was))
    && (forall k :: 0 <= k < |log| - 1 ==> !log[k].Ends())
  }

  ghost predicate CallMade<T>(c: Call<T>, cmp: Compare<T>, n: nat, was: seq<T>) {
    multiset(c.s) == multiset(was) && c.i < |c.s| && c.j < |c.s| && c.verdict == cmp(n, c.s[c.i], c.s[c.j])
  }

  /** No call made sorting give up. */
  ghost predicate AllPassed<T>(log: seq<Call<T>>) { forall k :: 0 <= k < |log| ==> !log[k].Ends() }

  lemma MadeMore<T>(log: seq<Call<T>>, more: seq<Call<T>>, cmp: Compare<T>, calls: nat, was: seq<T>, now: seq<T>)
    requires Made(log, cmp, calls, was) && AllPassed(log) && multiset(now) == multiset(was)
    requires Made(more, cmp, calls + |log|, now)
    ensures Made(log + more, cmp, calls, was) && (AllPassed(log + more) <==> AllPassed(more))
  {
    forall k | 0 <= k < |log + more| ensures CallMade((log + more)[k], cmp, calls + k, was) {
      if k >= |log| { assert CallMade(more[k - |log|], cmp, calls + |log| + (k - |log|), now); }
    }
    forall k | 0 <= k < |more| ensures (log + more)[|log| + k] == more[k] {}
    forall k | 0 <= k < |log + more| - 1 ensures !(log + more)[k].Ends() {
      if k >= |log| { assert !more[k - |log|].Ends(); }
    }
  }

  lemma MadeOne<T>(c: Call<T>, cmp: Compare<T>, calls: nat, was: seq<T>)
    requires CallMade(c, cmp, calls, was)
    ensures Made([c], cmp, calls, was) && (AllPassed([c]) <==> !c.Ends())
  {
    if AllPassed([c]) { assert ![c][0].Ends(); }
  }

  /** Sorting may go on: all calls so far have passed, and the array has only been rearranged. */
  ghost predicate GoesOn<T>(log: seq<Call<T>>, cmp: Compare<T>, calls: nat, was: seq<T>, now: seq<T>) {
    Made(log, cmp, calls, was) && AllPassed(log) && UpTo(now, was, |was| - 1)
  }

  /** What follows is logged as well; sorting goes on unless something there made it give up. */
  lemma GoneOn<T>(log: seq<Call<T>>, more: seq<Call<T>>, cmp: Compare<T>, calls: nat, was: seq<T>, s: seq<T>,
                  now: seq<T>, bottom: int)
    requires GoesOn(log, cmp, calls, was, s) && Made(more, cmp, calls + |log|, s) && UpTo(now, s, bottom)
    ensures Made(log + more, cmp, calls, was) && (AllPassed(log + more) <==> AllPassed(more))
    ensures AllPassed(more) ==> GoesOn(log + more, cmp, calls, was, now)
    ensures UpTo(now, was, |was| - 1)
  {
    hide Made, AllPassed;
    MadeMore(log, more, cmp, calls, was, s);
  }

  lemma GoesOnSwapped<T>(log: seq<Call<T>>, cmp: Compare<T>, calls: nat, was: seq<T>, s: seq<T>, i: nat, j: nat)
    requires GoesOn(log, cmp, calls, was, s) && i < |s| && j < |s|
    ensures GoesOn(log, cmp, calls, was, Swapped(s, i, j))
  {}

  lemma GoesOnPassed<T>(log: seq<Call<T>>, cmp: Compare<T>, calls: nat, was: seq<T>, now: seq<T>)
    requires GoesOn(log, cmp, calls, was, now)
    ensures Made(log, cmp, calls, was) && AllPassed(log) && UpTo(now, was, |was| - 1)
  {}

  lemma GoesOnFirst<T>(cmp: Compare<T>, calls: nat, was: seq<T>)
    ensures GoesOn([], cmp, calls, was, was)
  {}

  lemma MadeNone<T>(cmp: Compare<T>, calls: nat, was: seq<T>)
    ensures Made([], cmp, calls, was) && AllPassed<T>([])
  {}

  /** The compare function always reports the order `le`. */
  ghost predicate Reports<T(!new)>(cmp: Compare<T>, le: (T, T) -> bool) {
    forall n: nat, x, y :: cmp(n, x, y).Result? && (cmp(n, x, y).ret > 0 <==> !le(x, y)) && (cmp(n, x, y).ret < 0
        <==> !le(y, x))
  }

  // ---------- Heaps ----------

  /** Below `lo` nothing is claimed; from there on, up to `bottom`, no child exceeds its parent. */
  ghost predicate Heap<T(!new)>(s: seq<T>, le: (T, T) -> bool, lo: nat, bottom: int) {
    bottom < |s| && forall j :: 1 <= j <= bottom && lo <= j / 2 ==> le(s[j], s[j / 2])
  }

  /** A heap but for node `r`, whose children may exceed it, though not its parent. */
  ghost predicate HeapBut<T(!new)>(s: seq<T>, le: (T, T) -> bool, lo: nat, bottom: int, r: nat) {
    && bottom < |s|
    && (forall j :: 1 <= j <= bottom && lo <= j / 2 != r ==> le(s[j], s[j / 2]))
    && (forall j :: 1 <= j <= bottom && j / 2 == r && lo <= r / 2 && r != lo ==> le(s[j], s[r / 2]))
  }

  lemma {:induction false} RootIsMax<T(!new)>(s: seq<T>, le: (T, T) -> bool, bottom: int, j: nat)
    requires TotalPreorder(le) && Heap(s, le, 0, bottom) && j <= bottom
    ensures le(s[j], s[0])
    decreases j
  {
    if j > 0 {
      RootIsMax(s, le, bottom, j / 2);
      assert le(s[j], s[j / 2]);
    }
  }

  /** One step down: the larger child `c` of `r` goes up. */
  lemma {:induction false} SwapKeeps<T(!new)>(s: seq<T>, le: (T, T) -> bool, lo: nat, bottom: int, r: nat, c: nat)
    requires TotalPreorder(le) && HeapBut(s, le, lo, bottom, r) && lo <= r < c <= bottom && c / 2 == r
    requires forall j :: 1 <= j <= bottom && j / 2 == r ==> le(s[j], s[c])
    requires le(s[r], s[c])
    ensures HeapBut(Swapped(s, r, c), le, lo, bottom, c)
  {
    var s' := Swapped(s, r, c);
    forall j | 1 <= j <= bottom && lo <= j / 2 != c ensures le(s'[j], s'[j / 2]) {
      if j == r { assert le(s[c], s[r / 2]); }
    }
    forall j | 1 <= j <= bottom && j / 2 == c && lo <= c / 2 && c != lo ensures le(s'[j], s'[c / 2]) {
      assert le(s[j], s[j / 2]);
    }
  }

  function Swapped<T>(s: seq<T>, i: int, j: int): (r: seq<T>)
    requires 0 <= i < |s| && 0 <= j < |s|
    ensures |r| == |s| && multiset(r) == multiset(s)
  {
    s[i := s[j]][j := s[i]]
  }

  method Swap<T>(a: array<T>, i: int, j: int)
    requires 0 <= i < a.Length && 0 <= j < a.Length
    modifies a
    ensures a[..] == Swapped(old(a[..]), i, j)
  {
    a[i], a[j] := a[j], a[i];
  }

  lemma HeapButTop<T(!new)>(s: seq<T>, le: (T, T) -> bool, lo: nat, bottom: int)
    requires Heap(s, le, lo + 1, bottom)
    ensures HeapBut(s, le, lo, bottom, lo)
  {}

  /** Node `r` has settled: it has no children, or its larger child `c` does not exceed it. */
  lemma Settles<T(!new)>(s: seq<T>, le: (T, T) -> bool, lo: nat, bottom: int, r: nat, c: nat)
    requires TotalPreorder(le) && HeapBut(s, le, lo, bottom, r)
    requires r * 2 > bottom || (r < |s| && c < |s| && le(s[c], s[r]) && forall j :: 1 <= j <= bottom && j / 2 == r ==>
             le(s[j], s[c]))
    ensures Heap(s, le, lo, bottom)
  {}

  lemma Told<T(!new)>(cmp: Compare<T>, le: (T, T) -> bool, n: nat, x: T, y: T)
    requires Reports(cmp, le)
    ensures var v := cmp(n, x, y); v.Result? && (v.ret > 0 <==> !le(x, y)) && (v.ret < 0 <==> !le(y, x))
  {}

  lemma Preorder<T(!new)>(le: (T, T) -> bool, x: T, y: T)
    requires TotalPreorder(le)
    ensures le(x, x) && (le(x, y) || le(y, x))
  {}

  /** The larger child of `root`, as the compare function sees it. */
  method LargerChild<T(!new)>(a: array<T>, cmp: Compare<T>, calls: nat, root: nat, bottom: int,
                              ghost le: (T, T) -> bool)
    returns (ok: bool, calls': nat, maxChild: nat, ghost log: seq<Call<T>>)
    requires root * 2 <= bottom < a.Length
    ensures Made(log, cmp, calls, a[..]) && calls' == calls + |log| && (ok <==> AllPassed(log))
    ensures root * 2 <= maxChild <= bottom && maxChild / 2 == root
    ensures Reports(cmp, le) && TotalPreorder(le) ==> ok && forall j :: 1 <= j <= bottom && j / 2 == root ==>
            le(a[j], a[maxChild])
  {
    hide TotalPreorder, Reports, Made, AllPassed;
    ok, calls', log := true, calls, [];
    MadeNone(cmp, calls, a[..]);
    var root2 := root * 2;
    if Reports(cmp, le) && TotalPreorder(le) { Preorder(le, a[root2], a[root2]); }
    if root2 == bottom {
      maxChild := root2;
    } else {
      var v := cmp(calls', a[root2], a[root2 + 1]);
      if Reports(cmp, le) && TotalPreorder(le) {
        Told(cmp, le, calls', a[root2], a[root2 + 1]);
        Preorder(le, a[root2 + 1], a[root2]);
      }
      calls' := calls' + 1;
      maxChild := if v.Error? || v.ret > 0 then root2 else root2 + 1;
      ok := !v.Error?;
      log := [Call(a[..], root2, root2 + 1, v)];
      MadeOne(log[0], cmp, calls, a[..]);
    }
    assert forall j :: 1 <= j <= bottom && j / 2 == root ==> j == root2 || j == root2 + 1;
  }

  /** Only what is up to `bottom` has been rearranged. */
  ghost predicate UpTo<T>(s: seq<T>, was: seq<T>, bottom: int) {
    |s| == |was| && multiset(s) == multiset(was) && forall i :: 0 <= i < |s| && bottom < i ==> s[i] == was[i]
  }

  lemma SwapUpTo<T>(s: seq<T>, was: seq<T>, bottom: int, i: nat, j: nat)
    requires UpTo(s, was, bottom) && i <= bottom && j <= bottom < |s|
    ensures UpTo(Swapped(s, i, j), was, bottom)
  {}

  /** _hsort_sift_down.  `calls` counts calls of the compare function. */
  method SiftDown<T(!new, ==)>(a: array<T>, cmp: Compare<T>, calls: nat, top: nat, bottom: int,
                               ghost le: (T, T) -> bool)
    returns (ok: bool, calls': nat, ghost log: seq<Call<T>>)
    requires bottom < a.Length
    modifies a
    ensures Made(log, cmp, calls, old(a[..])) && calls' == calls + |log| && (ok <==> AllPassed(log))
    ensures top * 2 <= bottom ==> log != []
    ensures UpTo(a[..], old(a[..]), bottom)
    ensures Reports(cmp, le) && TotalPreorder(le) ==> ok
    ensures Reports(cmp, le) && TotalPreorder(le) && old(Heap(a[..], le, top + 1, bottom)) ==>
            Heap(a[..], le, top, bottom)
  {
    hide Heap, HeapBut, TotalPreorder, Reports, UpTo, Made, AllPassed, CallMade, Swapped;
    ghost var sane := Reports(cmp, le) && TotalPreorder(le);
    ghost var heap := sane && Heap(a[..], le, top + 1, bottom);
    var root, done, maxChild := top, false, 0;
    ok, calls', log := true, calls, [];
    MadeNone(cmp, calls, a[..]);
    if heap { HeapButTop(a[..], le, top, bottom); }
    SelfUpTo(a[..], bottom);
    while root * 2 <= bottom && !done
      invariant top <= root && UpTo(a[..], old(a[..]), bottom)
      invariant Made(log, cmp, calls, old(a[..])) && calls' == calls + |log| && AllPassed(log) && ok
      invariant (root == top && !done) || log != []
      invariant heap ==> HeapBut(a[..], le, top, bottom, root)
      invariant heap && done ==> Heap(a[..], le, top, bottom)
      decreases bottom - root, !done
    {
      ghost var asked;
      UpToSame(a[..], old(a[..]), bottom);
      ok, calls', maxChild, asked := LargerChild(a, cmp, calls', root, bottom, le);
      MadeMore(log, asked, cmp, calls, old(a[..]), a[..]);
      log := log + asked;
      if !ok { return; }
      var v := cmp(calls', a[root], a[maxChild]);
      ghost var c := Call(a[..], root, maxChild, v);
      CallIs(c, cmp, calls', a[..]);
      MadeOne(c, cmp, calls', a[..]);
      MadeMore(log, [c], cmp, calls, old(a[..]), a[..]);
      log := log + [c];
      if sane {
        Told(cmp, le, calls', a[root], a[maxChild]);
        Preorder(le, a[root], a[maxChild]);
      }
      calls' := calls' + 1;
      if v.Error? { return false, calls', log; }
      if v.ret < 0 {
        if root == maxChild { return false, calls', log; }
        if heap { SwapKeeps(a[..], le, top, bottom, root, maxChild); }
        ghost var s := a[..];
        Swap(a, root, maxChild);
        SwapUpTo(s, old(a[..]), bottom, root, maxChild);
        root := maxChild;
      } else {
        if heap { Settles(a[..], le, top, bottom, root, maxChild); }
        done := true;
      }
    }
    if heap && !done { Settles(a[..], le, top, bottom, root, 0); }
  }

  lemma UpToSame<T>(s: seq<T>, was: seq<T>, bottom: int)
    requires UpTo(s, was, bottom)
    ensures multiset(s) == multiset(was) && |s| == |was|
  {}

  lemma CallIs<T>(c: Call<T>, cmp: Compare<T>, n: nat, was: seq<T>)
    requires c.s == was && c.i < |was| && c.j < |was| && c.verdict == cmp(n, was[c.i], was[c.j])
    ensures CallMade(c, cmp, n, was)
  {}

  lemma SelfUpTo<T>(s: seq<T>, bottom: int)
    ensures UpTo(s, s, bottom)
  {}

  // ---------- Sorting ----------

  /** From `k` on the sequence is sorted, and nothing before `k` exceeds anything from there on. */
  ghost predicate SortedFrom<T(!new)>(s: seq<T>, le: (T, T) -> bool, k: int) {
    && 0 <= k <= |s|
    && (forall i, j :: k <= i <= j < |s| ==> le(s[i], s[j]))
    && (forall i, j :: 0 <= i < k <= j < |s| ==> le(s[i], s[j]))
  }

  /** If the rest is the same, what comes before `k` is the same but for order. */
  lemma {:induction false} SameBefore<T>(s: seq<T>, s': seq<T>, k: nat)
    requires k <= |s| == |s'| && multiset(s') == multiset(s) && s'[k..] == s[k..]
    ensures multiset(s'[..k]) == multiset(s[..k])
  {
    assert s == s[..k] + s[k..] && s' == s'[..k] + s'[k..];
    assert multiset(s[..k]) == multiset(s) - multiset(s[k..]);
    assert multiset(s'[..k]) == multiset(s') - multiset(s'[k..]);
  }

  /** Rearranging what comes before `k` keeps everything from `k` on in place. */
  lemma {:induction false} RearrangedBefore<T(!new)>(s: seq<T>, s': seq<T>, le: (T, T) -> bool, k: nat)
    requires SortedFrom(s, le, k) && |s'| == |s| && multiset(s') == multiset(s) && s'[k..] == s[k..]
    ensures SortedFrom(s', le, k)
  {
    SameBefore(s, s', k);
    forall j | k <= j < |s| ensures s'[j] == s[j] { assert s'[j] == s'[k..][j - k] && s[j] == s[k..][j - k]; }
    forall i, j | 0 <= i < k <= j < |s| ensures le(s'[i], s'[j]) {
      var h := Found(s'[..k], s[..k], i);
      assert s'[i] == s[h];
    }
  }

  lemma RearrangedUpTo<T(!new)>(s: seq<T>, s': seq<T>, le: (T, T) -> bool, k: nat)
    requires k > 0 && SortedFrom(s, le, k) && UpTo(s', s, k - 1)
    ensures SortedFrom(s', le, k)
  {
    assert s'[k..] == s[k..];
    RearrangedBefore(s, s', le, k);
  }

  /** Where an element of a rearrangement was. */
  lemma {:induction false} Found<T>(s': seq<T>, s: seq<T>, i: nat) returns (h: nat)
    requires multiset(s') == multiset(s) && i < |s'|
    ensures h < |s| && s[h] == s'[i]
  {
    assert s'[i] in multiset(s);
    h :| 0 <= h < |s| && s[h] == s'[i];
  }

  /** The root of a heap goes to its place at `k`. */
  lemma {:induction false} RootToPlace<T(!new)>(s: seq<T>, le: (T, T) -> bool, k: nat)
    requires TotalPreorder(le) && k < |s| && Heap(s, le, 0, k) && SortedFrom(s, le, k + 1)
    ensures var s' := Swapped(s, 0, k);
            SortedFrom(s', le, k) && Heap(s', le, 1, k - 1)
  {
    var s' := Swapped(s, 0, k);
    forall j | 0 <= j <= k ensures le(s[j], s[0]) { RootIsMax(s, le, k, j); }
  }

  /** _hsort.  Whatever the compare function does, the array ends up rearranged.  Sorting succeeds exactly if
      no call of the function failed and none found an element smaller than itself, and stops at the first
      that did.  If the function reports a total preorder, the array ends up in that order. */
  method Hsort<T(!new, ==)>(a: array<T>, cmp: Compare<T>, ghost le: (T, T) -> bool)
    returns (ok: bool, ghost log: seq<Call<T>>)
    modifies a
    ensures Made(log, cmp, 0, old(a[..])) && (ok <==> AllPassed(log)) && (a.Length > 0 ==> log != [])
    ensures multiset(a[..]) == multiset(old(a[..]))
    ensures Reports(cmp, le) && TotalPreorder(le) ==> ok && SortedFrom(a[..], le, 0)
  {
    hide Heap, SortedFrom, TotalPreorder, Reports, Made, AllPassed, UpTo, GoesOn, Swapped;
    ghost var sane := Reports(cmp, le) && TotalPreorder(le);
    ghost var was, more := a[..], [];
    var size, calls := a.Length, 0;
    log := [];
    GoesOnFirst(cmp, 0, was);
    var i := size / 2;
    NoHeap(a[..], le, i + 1, size - 1);
    while i >= 0
      invariant -1 <= i <= size / 2 && (i < 0 < size ==> log != [])
      invariant GoesOn(log, cmp, 0, was, a[..]) && calls == |log|
      invariant sane ==> Heap(a[..], le, i + 1, size - 1)
    {
      ghost var s := a[..];
      ok, calls, more := SiftDown(a, cmp, calls, i, size - 1, le);
      GoneOn(log, more, cmp, 0, was, s, a[..], size - 1);
      UpToSame(a[..], was, size - 1);
      log := log + more;
      if !ok { return; }
      i := i - 1;
    }
    NothingPlaced(a[..], le);
    i := size - 1;
    while i >= 1
      invariant if size == 0 then i == -1 else 0 <= i < size && log != []
      invariant GoesOn(log, cmp, 0, was, a[..]) && calls == |log|
      invariant sane ==> Heap(a[..], le, 0, i) && SortedFrom(a[..], le, i + 1)
    {
      ghost var now := a[..];
      if sane { RootToPlace(now, le, i); }
      Swap(a, 0, i);
      ghost var s := a[..];
      GoesOnSwapped(log, cmp, 0, was, now, 0, i);
      ok, calls, more := SiftDown(a, cmp, calls, 0, i - 1, le);
      GoneOn(log, more, cmp, 0, was, s, a[..], i - 1);
      UpToSame(a[..], was, size - 1);
      log := log + more;
      if sane { RearrangedUpTo(s, a[..], le, i); }
      if !ok { return; }
      i := i - 1;
    }
    ok := true;
    GoesOnPassed(log, cmp, 0, was, a[..]);
    UpToSame(a[..], was, size - 1);
    if sane { LastPlace(a[..], le, i); }
  }

  lemma NoHeap<T(!new)>(s: seq<T>, le: (T, T) -> bool, lo: nat, bottom: int)
    requires bottom < |s| && bottom < 2 * lo
    ensures Heap(s, le, lo, bottom)
  {}

  lemma NothingPlaced<T(!new)>(s: seq<T>, le: (T, T) -> bool)
    ensures SortedFrom(s, le, |s|)
  {}

  lemma LastPlace<T(!new)>(s: seq<T>, le: (T, T) -> bool, i: int)
    requires i <= 0 && -1 <= i && SortedFrom(s, le, i + 1) && TotalPreorder(le)
    ensures SortedFrom(s, le, 0)
  {}
}
