/** The mark phase of the collector.  Every collectable object is on a doubly linked chain;
    marking moves what can be reached from the roots over to a second chain. */
module Mark {
  class Collectable {
    var marked: bool
    var prev: Collectable?
    var next: Collectable?
    /** What Mark visits, in order; null stands for a value that is not collectable. */
    var refs: seq<Collectable?>
  }

  // ---------- Chains ----------

  /** `xs`, in order, is the chain that starts at `head`. */
  ghost predicate IsChain(head: Collectable?, xs: seq<Collectable>)
    reads xs`prev, xs`next
  {
    && head == (if xs == [] then null else xs[0])
    && (forall i, j :: 0 <= i < j < |xs| ==> xs[i] != xs[j])
    && (forall i {:trigger xs[i].prev} {:trigger xs[i].next} :: 0 <= i < |xs| ==>
         xs[i].prev == Nth(xs, i - 1) && xs[i].next == Nth(xs, i + 1))
  }

  ghost function Nth(xs: seq<Collectable>, i: int): Collectable? { if 0 <= i < |xs| then xs[i] else null }

  method AddToChain(head: Collectable?, c: Collectable, ghost xs: seq<Collectable>) returns (head': Collectable)
    requires IsChain(head, xs) && c !in xs
    modifies c`prev, c`next, xs`prev
    ensures head' == c && IsChain(head', [c] + xs)
  {
    c.prev := null;
    c.next := head;
    if head != null { head.prev := c; }
    head' := c;
    ghost var ys := [c] + xs;
    forall i | 0 <= i < |ys| ensures ys[i].prev == Nth(ys, i - 1) && ys[i].next == Nth(ys, i + 1) {
      assert Nth(xs, i - 1) == Nth(ys, i) || i == 0;
      assert Nth(xs, i) == Nth(ys, i + 1);
    }
  }

  method RemoveFromChain(head: Collectable?, c: Collectable, ghost xs: seq<Collectable>, ghost at: nat)
    returns (head': Collectable?)
    requires IsChain(head, xs) && at < |xs| && xs[at] == c
    modifies xs`prev, xs`next
    ensures IsChain(head', xs[..at] + xs[at + 1..])
  {
    hide Nth;
    var next := c.next;
    head' := BypassNext(head, c, xs, at);
    BypassPrev(c, next, xs, at);
    ghost var ys := xs[..at] + xs[at + 1..];
    assert forall i :: 0 <= i < |ys| ==> ys[i] == xs[Skipping(at, i)];
  }

  /** The pointers forward skip c. */
  method BypassNext(head: Collectable?, c: Collectable, ghost xs: seq<Collectable>, ghost at: nat)
    returns (head': Collectable?)
    requires IsChain(head, xs) && at < |xs| && xs[at] == c
    modifies xs`next
    ensures var ys := xs[..at] + xs[at + 1..];
      head' == (if ys == [] then null else ys[0]) && forall i {:trigger ys[i].next} :: 0 <= i < |ys| ==>
          ys[i].next == Nth(ys, i + 1)
  {
    head' := head;
    if c.prev != null { c.prev.next := c.next; } else { head' := c.next; }
    c.next := null;
    ghost var ys := xs[..at] + xs[at + 1..];
    NthWithout(xs, at, 0);
    forall i | 0 <= i < |ys| ensures ys[i].next == Nth(ys, i + 1) {
      NthWithout(xs, at, i);
      NthWithout(xs, at, i + 1);
    }
  }

  /** The pointers back skip c. */
  method BypassPrev(c: Collectable, next: Collectable?, ghost xs: seq<Collectable>, ghost at: nat)
    requires at < |xs| && xs[at] == c && next == Nth(xs, at + 1)
             && (forall i, j :: 0 <= i < j < |xs| ==> xs[i] != xs[j])
    requires forall i {:trigger xs[i].prev} :: 0 <= i < |xs| ==> xs[i].prev == Nth(xs, i - 1)
    modifies xs`prev
    ensures var ys := xs[..at] + xs[at + 1..]; forall i {:trigger ys[i].prev} :: 0 <= i < |ys| ==>
            ys[i].prev == Nth(ys, i - 1)
  {
    if next != null { next.prev := c.prev; }
    c.prev := null;
    ghost var ys := xs[..at] + xs[at + 1..];
    forall i | 0 <= i < |ys| ensures ys[i].prev == Nth(ys, i - 1) {
      NthWithout(xs, at, i - 1);
      NthWithout(xs, at, i);
    }
  }

  function Skipping(at: int, i: int): int { if i < at then i else i + 1 }

  lemma NthWithout(xs: seq<Collectable>, at: nat, i: int)
    requires at < |xs|
    ensures var ys := xs[..at] + xs[at + 1..];
            Nth(ys, i) == Nth(xs, Skipping(at, i)) && (0 <= i < |ys| ==> ys[i] == Nth(ys, i))
  {}

  lemma Without(xs: seq<Collectable>, at: nat)
    requires at < |xs| && forall i, j :: 0 <= i < j < |xs| ==> xs[i] != xs[j]
    ensures var ys := xs[..at] + xs[at + 1..];
            (forall x :: x in ys ==> x in xs && x != xs[at]) && (forall x :: x in xs && x != xs[at] ==> x in ys)
  {
    var ys := xs[..at] + xs[at + 1..];
    forall x | x in xs && x != xs[at] ensures x in ys {
      var i :| 0 <= i < |xs| && xs[i] == x;
      assert ys[if i < at then i else i - 1] == x;
    }
  }

  // ---------- Reachability ----------

  type Graph = map<Collectable, seq<Collectable?>>

  ghost predicate Path(g: Graph, a: Collectable, b: Collectable, n: nat) {
    a in g && if n == 0 then a == b else exists c: Collectable :: c in g && c in g[a] && Path(g, c, b, n - 1)
  }

  ghost predicate Reachable(g: Graph, a: Collectable, b: Collectable) { exists n: nat :: Path(g, a, b, n) }

  lemma ReachSelf(g: Graph, a: Collectable)
    requires a in g
    ensures Reachable(g, a, a)
  {
    assert Path(g, a, a, 0);
  }

  lemma ReachStep(g: Graph, a: Collectable, c: Collectable, b: Collectable)
    requires a in g && c in g && c in g[a] && Reachable(g, c, b)
    ensures Reachable(g, a, b)
  {
    var n: nat :| Path(g, c, b, n);
    assert Path(g, a, b, n + 1);
  }

  /** A set that contains `a` and whatever its members refer to contains all that `a` reaches. */
  lemma {:induction false} ClosedContains(g: Graph, s: set<Collectable>, a: Collectable, b: Collectable, n: nat)
    requires a in s && Path(g, a, b, n)
    requires forall x, y :: x in s && x in g && y in g[x] && y != null ==> y in s
    ensures b in s
    decreases n
  {
    if n > 0 {
      var c: Collectable :| c in g && c in g[a] && Path(g, c, b, n - 1);
      ClosedContains(g, s, c, b, n - 1);
    }
  }

  // ---------- The collector ----------

  class Collector {
    var gcChain: Collectable?
    var tChain: Collectable?
    ghost var gcList: seq<Collectable>
    ghost var tList: seq<Collectable>
    ghost const objs: set<Collectable>
    ghost const graph: Graph

    /** Every object is on exactly one of the two chains, and refers to objects only. */
    ghost predicate Valid()
      reads this, objs`prev, objs`next, objs`refs
    {
      && (forall x :: x in gcList ==> x in objs) && (forall x :: x in tList ==> x in objs)
      && (forall x :: x in objs ==> x in gcList || x in tList)
      && (forall x :: x in gcList ==> x !in tList)
      && IsChain(gcChain, gcList) && IsChain(tChain, tList)
      && graph.Keys == objs
      && (forall x :: x in objs ==> x.refs == graph[x])
      && (forall x, y :: x in objs && y in graph[x] && y != null ==> y in objs)
    }

    /** The objects in `active` are being visited; what has been visited is on the second chain,
        and refers to marked objects only. */
    ghost predicate Marking(active: set<Collectable>)
      requires Valid()
      reads this, objs`prev, objs`next, objs`refs, objs`marked
    {
      && (forall x :: x in active ==> x in gcList)
      && (forall x :: x in objs ==> (x.marked <==> x in active || x in tList))
      && (forall x, y :: x in tList && y in graph[x] && y != null ==> y.marked)
    }

    ghost function Unmarked(): set<Collectable>
      reads this, objs`marked
    {
      set x | x in objs && !x.marked
    }

    /** START_MARK .. END_MARK, for any kind of object. */
    method MarkFrom(o: Collectable, ghost active: set<Collectable>)
      requires Valid() && Marking(active) && o in objs
      modifies this, objs`marked, objs`prev, objs`next
      ensures Valid() && Marking(active) && o.marked
      ensures forall x :: x in old(tList) ==> x in tList
      ensures forall x :: x in tList && x !in old(tList) ==> Reachable(graph, o, x)
      ensures Unmarked() <= old(Unmarked())
      decreases Unmarked(), 0
    {
      hide IsChain, Reachable, Path;
      if !o.marked {
        ghost var before := Unmarked();
        o.marked := true;
        assert o in before && o !in Unmarked();
        ghost var now := active + {o};
        assert Marking(now);
        var n := |o.refs|;
        for i := 0 to n
          invariant Valid() && Marking(now) && |o.refs| == n
          invariant forall j :: 0 <= j < i && o.refs[j] != null ==> o.refs[j].marked
          invariant forall x :: x in old(tList) ==> x in tList
          invariant forall x :: x in tList && x !in old(tList) ==> Reachable(graph, o, x)
          invariant Unmarked() <= before - {o}
        {
          label Before:
          MarkObject(o.refs[i], now);
          forall x | x in tList && x !in old(tList) ensures Reachable(graph, o, x) {
            if x !in old@Before(tList) { ReachStep(graph, o, o.refs[i], x); }
          }
        }
        MoveAcross(o);
        ReachSelf(graph, o);
      }
    }

    method MarkObject(o: Collectable?, ghost active: set<Collectable>)
      requires Valid() && Marking(active) && (o != null ==> o in objs)
      modifies this, objs`marked, objs`prev, objs`next
      ensures Valid() && Marking(active) && (o != null ==> o.marked)
      ensures forall x :: x in old(tList) ==> x in tList
      ensures forall x :: x in tList && x !in old(tList) ==> o != null && Reachable(graph, o, x)
      ensures Unmarked() <= old(Unmarked())
      ensures forall x :: x in objs && old(x.marked) ==> x.marked
      decreases Unmarked(), 1
    {
      if o != null { MarkFrom(o, active); }
    }

    /** END_MARK: off the collector's chain, to the front of the other one. */
    method MoveAcross(o: Collectable)
      requires Valid() && o in gcList
      modifies this, objs`prev, objs`next
      ensures Valid() && tList == [o] + old(tList) && o !in gcList
      ensures forall x :: x in old(gcList) && x != o ==> x in gcList
      ensures forall x :: x in gcList ==> x in old(gcList)
    {
      TakeOff(o);
      PutOn(o);
    }

    method TakeOff(o: Collectable)
      requires Valid() && o in gcList
      modifies this`gcChain, this`gcList, objs`prev, objs`next
      ensures IsChain(gcChain, gcList) && IsChain(tChain, tList) && o !in gcList
      ensures forall x :: x in old(gcList) && x != o ==> x in gcList
      ensures forall x :: x in gcList ==> x in old(gcList)
    {
      ghost var at :| 0 <= at < |gcList| && gcList[at] == o;
      Without(gcList, at);
      gcChain := RemoveFromChain(gcChain, o, gcList, at);
      gcList := gcList[..at] + gcList[at + 1..];
      forall i | 0 <= i < |tList| ensures tList[i].prev == Nth(tList, i - 1) && tList[i].next == Nth(tList, i + 1) {
        assert Nth(tList, i) == tList[i];
        assert tList[i] in tList;
      }
    }

    method PutOn(o: Collectable)
      requires IsChain(gcChain, gcList) && IsChain(tChain, tList) && o !in gcList && o !in tList
      requires forall x :: x in gcList ==> x !in tList
      modifies this`tChain, this`tList, o`prev, o`next, tList`prev
      ensures IsChain(gcChain, gcList) && IsChain(tChain, tList) && tList == [o] + old(tList)
    {
      tChain := AddToChain(tChain, o, tList);
      tList := [o] + tList;
      forall i | 0 <= i < |gcList| ensures gcList[i].prev == Nth(gcList, i - 1)
          && gcList[i].next == Nth(gcList, i + 1) {
        assert Nth(gcList, i) == gcList[i];
        assert gcList[i] in gcList;
      }
    }

    /** Mark from all roots, starting from an unmarked heap: what the roots reach ends up on the
        second chain, each object once, and the rest stays on the collector's chain. */
    method RunMark(roots: seq<Collectable?>)
      requires Valid() && tList == [] && (forall x :: x in objs ==> !x.marked)
      requires forall r :: r in roots && r != null ==> r in objs
      modifies this, objs`marked, objs`prev, objs`next
      ensures Valid()
      ensures forall x :: x in objs ==> (x in tList <==> FromRoots(graph, roots, |roots|, x))
      ensures forall x :: x in objs ==> (x in gcList <==> x !in tList) && (x.marked <==> x in tList)
    {
      hide IsChain, FromRoots, Reachable, Path;
      for i := 0 to |roots|
        invariant Valid() && Marking({})
        invariant forall j :: 0 <= j < i && roots[j] != null ==> roots[j] in tList
        invariant forall x :: x in tList ==> FromRoots(graph, roots, i, x)
      {
        assert roots[i] in roots;
        ghost var before := tList;
        MarkObject(roots[i], {});
        forall x | x in tList ensures FromRoots(graph, roots, i + 1, x) { OneRootMore(graph, roots, i, x); }
      }
      ghost var visited := set x | x in tList;
      forall x | x in objs && FromRoots(graph, roots, |roots|, x) ensures x in tList {
        AllVisited(graph, visited, roots, x);
      }
    }
  }

  /** One of the first `n` roots reaches `x`. */
  ghost predicate FromRoots(g: Graph, roots: seq<Collectable?>, n: nat, x: Collectable) {
    exists r: Collectable, i: nat :: i < n && i < |roots| && roots[i] == r && Reachable(g, r, x)
  }

  lemma OneRootMore(g: Graph, roots: seq<Collectable?>, i: nat, x: Collectable)
    requires i < |roots|
    requires FromRoots(g, roots, i, x) || (roots[i] != null && Reachable(g, roots[i], x))
    ensures FromRoots(g, roots, i + 1, x)
  {
    if !FromRoots(g, roots, i, x) {
      var r: Collectable := roots[i];
      assert roots[i] == r && Reachable(g, r, x);
    }
  }

  lemma AllVisited(g: Graph, visited: set<Collectable>, roots: seq<Collectable?>, x: Collectable)
    requires FromRoots(g, roots, |roots|, x)
    requires forall i :: 0 <= i < |roots| && roots[i] != null ==> roots[i] in visited
    requires forall x, y :: x in visited && x in g && y in g[x] && y != null ==> y in visited
    ensures x in visited
  {
    var r: Collectable, i: nat :| i < |roots| && roots[i] == r && Reachable(g, r, x);
    var n: nat :| Path(g, r, x, n);
    ClosedContains(g, visited, r, x, n);
  }
}
