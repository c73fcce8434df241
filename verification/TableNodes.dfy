/** The node array of a chained scatter table: which arrays are well formed, and that the three
    ways of planting a new key keep them so.  Everything here is about values; the table itself
    is in module `Table`. */
module TableNodes {
  import opened Masks

  /** A script object: null, or a type tag with the raw value that identity is decided by. */
  datatype Obj = Null | Obj(tag: int, raw: int)

  /** `next` is the index of the next node of the chain, or -1. */
  datatype Node = Node(key: Obj, val: Obj, next: int)

  type Nodes = seq<Node>

  function Home(hash: Obj -> nat, key: Obj, size: nat): (h: nat)
    requires size > 0
    ensures h < size
  {
    hash(key) % size
  }

  /** Sizes are powers of two, and then the main position is the hash masked with the size less one. */
  lemma HomeMasks(hash: Obj -> nat, key: Obj, size: nat)
    requires PowerOfTwo(size)
    ensures Home(hash, key, size) == And(hash(key), size - 1)
  {
    MaskIsMod(hash(key), size);
  }

  // ---------- Invariant ----------

  /** Chains end: ranks grow along them.  Nodes below `lim` are not linked to. */
  ghost predicate Linked(ns: Nodes, rank: seq<nat>, top: nat, lim: int) {
    && |rank| == |ns|
    && (forall i :: 0 <= i < |ns| ==> rank[i] <= top)
    && (forall i :: 0 <= i < |ns| ==>
          ns[i].next == -1 || (lim <= ns[i].next && 0 <= ns[i].next < |ns| && rank[i] < rank[ns[i].next]))
  }

  /** At most one node links to any node. */
  ghost predicate Unshared(ns: Nodes) {
    forall i, j :: 0 <= i < |ns| && 0 <= j < |ns| && ns[i].next == ns[j].next != -1 ==> i == j
  }

  /** `slot` says where each live key is; every live key is in one place only. */
  ghost predicate Indexed(ns: Nodes, slot: map<Obj, int>) {
    && Null !in slot
    && (forall k :: k in slot ==> 0 <= slot[k] < |ns| && ns[slot[k]].key == k)
    && (forall i :: 0 <= i < |ns| && ns[i].key != Null ==> ns[i].key in slot && slot[ns[i].key] == i)
  }

  ghost predicate Path(ns: Nodes, a: int, b: int, d: nat)
    decreases d
  {
    0 <= a < |ns| && if d == 0 then a == b else ns[a].next != -1 && Path(ns, ns[a].next, b, d - 1)
  }

  ghost predicate Reach(ns: Nodes, a: int, b: int) { exists d: nat :: Path(ns, a, b, d) }

  /** The main position of the key in node `i`. */
  ghost function HomeOf(ns: Nodes, hash: Obj -> nat, i: int): nat
    requires 0 <= i < |ns|
  {
    Home(hash, ns[i].key, |ns|)
  }

  /** Every live key can be reached from its main position. */
  ghost predicate Reachable(ns: Nodes, hash: Obj -> nat) {
    forall i :: 0 <= i < |ns| && ns[i].key != Null ==> Reach(ns, HomeOf(ns, hash, i), i)
  }

  /** A node holds a key that belongs elsewhere only if no live key belongs there. */
  ghost predicate Settled(ns: Nodes, hash: Obj -> nat) {
    forall h, i :: 0 <= h < |ns| && 0 <= i < |ns| && ns[h].key != Null && ns[i].key != Null && HomeOf(ns, hash, h) != h
      ==> HomeOf(ns, hash, i) != h
  }

  ghost predicate WellFormed(ns: Nodes, hash: Obj -> nat, slot: map<Obj, int>, rank: seq<nat>, top: nat, lim: int) {
    |ns| > 0 && Linked(ns, rank, top, lim) && Unshared(ns) && Indexed(ns, slot) && Reachable(ns, hash)
        && Settled(ns, hash)
  }

  /** A node nothing is stored in and that starts no chain. */
  predicate IsFree(n: Node) { n.key == Null && n.next == -1 }

  // ---------- Paths ----------

  lemma {:induction false} PathFollows(ns: Nodes, a: int, b: int)
    requires Reach(ns, a, b) && a != b
    ensures 0 <= a < |ns| && ns[a].next != -1 && Reach(ns, ns[a].next, b)
  {
    var d: nat :| Path(ns, a, b, d);
    assert d > 0;
    assert Path(ns, ns[a].next, b, d - 1);
  }

  /** Paths survive a change that leaves all links alone. */
  lemma {:induction false} PathSameLinks(ns: Nodes, ns': Nodes, a: int, b: int, d: nat)
    requires |ns| == |ns'| && forall i :: 0 <= i < |ns| ==> ns[i].next == ns'[i].next
    requires Path(ns, a, b, d)
    ensures Path(ns', a, b, d)
    decreases d
  {
    if d > 0 { PathSameLinks(ns, ns', ns[a].next, b, d - 1); }
  }

  lemma {:induction false} RankGrows(ns: Nodes, rank: seq<nat>, top: nat, lim: int, a: int, b: int, d: nat)
    requires Linked(ns, rank, top, lim) && Path(ns, a, b, d)
    ensures 0 <= b < |ns| && rank[a] <= rank[b] && (d > 0 ==> rank[a] < rank[b])
    decreases d
  {
    if d > 0 { RankGrows(ns, rank, top, lim, ns[a].next, b, d - 1); }
  }

  /** A node at the end of a path of some length is linked to. */
  lemma {:induction false} PathEndLinked(ns: Nodes, rank: seq<nat>, top: nat, lim: int, a: int, b: int, d: nat)
    requires Linked(ns, rank, top, lim) && Path(ns, a, b, d) && a != b
    ensures lim <= b
    decreases d
  {
    if ns[a].next != b { PathEndLinked(ns, rank, top, lim, ns[a].next, b, d - 1); }
  }

  /** Keys stay reachable when links stay as they are and new keys sit in their main position. */
  lemma {:induction false} SameLinksReachable(ns: Nodes, ns': Nodes, hash: Obj -> nat)
    requires |ns| == |ns'| && Reachable(ns, hash) && forall i :: 0 <= i < |ns| ==> ns[i].next == ns'[i].next
    requires forall i :: 0 <= i < |ns| && ns'[i].key != Null ==> ns'[i].key == ns[i].key || HomeOf(ns', hash, i) == i
    ensures Reachable(ns', hash)
  {
    forall i | 0 <= i < |ns'| && ns'[i].key != Null ensures Reach(ns', HomeOf(ns', hash, i), i) {
      if ns'[i].key == ns[i].key {
        var d: nat :| Path(ns, HomeOf(ns, hash, i), i, d);
        PathSameLinks(ns, ns', HomeOf(ns, hash, i), i, d);
      } else {
        assert Path(ns', i, i, 0);
      }
    }
  }

  // ---------- Planting a key in its own main position ----------

  function PlantHome(ns: Nodes, h: nat, key: Obj): Nodes
    requires h < |ns|
  {
    ns[h := ns[h].(key := key)]
  }

  lemma {:induction false} PlantHomeOk(ns: Nodes, hash: Obj -> nat, slot: map<Obj, int>, rank: seq<nat>, top: nat,
                                       lim: int, key: Obj)
    requires WellFormed(ns, hash, slot, rank, top, lim) && key != Null && key !in slot
    requires ns[Home(hash, key, |ns|)].key == Null
    ensures var h := Home(hash, key, |ns|);
            WellFormed(PlantHome(ns, h, key), hash, slot[key := h], rank, top, lim)
                && Indexed(PlantHome(ns, h, key), slot[key := h])
  {
    var h := Home(hash, key, |ns|);
    SameLinksReachable(ns, PlantHome(ns, h, key), hash);
    HomeLinked(ns, rank, top, lim, h, key);
    HomeIndexed(ns, slot, h, key);
    HomeSettled(ns, hash, h, key);
    hide Reachable, Reach, Linked, Unshared, Indexed, Settled, Home;
  }

  lemma HomeLinked(ns: Nodes, rank: seq<nat>, top: nat, lim: int, h: nat, key: Obj)
    requires h < |ns| && Linked(ns, rank, top, lim) && Unshared(ns)
    ensures Linked(PlantHome(ns, h, key), rank, top, lim) && Unshared(PlantHome(ns, h, key))
  {}

  lemma HomeIndexed(ns: Nodes, slot: map<Obj, int>, h: nat, key: Obj)
    requires h < |ns| && ns[h].key == Null && Indexed(ns, slot) && key != Null && key !in slot
    ensures Indexed(PlantHome(ns, h, key), slot[key := h])
  {}

  lemma HomeSettled(ns: Nodes, hash: Obj -> nat, h: nat, key: Obj)
    requires h < |ns| && h == Home(hash, key, |ns|) && Settled(ns, hash)
    ensures Settled(PlantHome(ns, h, key), hash)
  {
    hide Home;
    var ns' := PlantHome(ns, h, key);
    forall i | 0 <= i < |ns| ensures HomeOf(ns', hash, i) == if i == h then h else HomeOf(ns, hash, i) {}
  }

  // ---------- Chaining a key behind its main position ----------

  function PlantBehind(ns: Nodes, h: nat, n: nat, key: Obj): Nodes
    requires h < |ns| && n < |ns|
  {
    ns[n := ns[n].(next := ns[h].next, key := key)][h := ns[h].(next := n)]
  }

  function RankBehind(rank: seq<nat>, h: nat, n: nat): seq<nat>
    requires h < |rank|
  {
    seq(|rank|, i requires 0 <= i < |rank| => if i == n then rank[h] + 1 else if rank[i] > rank[h] then rank[i] + 1
        else rank[i])
  }

  lemma {:induction false} PathBehind(ns: Nodes, h: nat, n: nat, key: Obj, a: int, b: int, d: nat)
    requires h < |ns| && n < |ns| && h != n && IsFree(ns[n])
    requires forall i :: 0 <= i < |ns| ==> ns[i].next != n
    requires Path(ns, a, b, d) && a != n && b != n
    ensures Reach(PlantBehind(ns, h, n, key), a, b)
    decreases d
  {
    var ns' := PlantBehind(ns, h, n, key);
    if d == 0 {
      assert Path(ns', a, b, 0);
    } else {
      PathBehind(ns, h, n, key, ns[a].next, b, d - 1);
      var e: nat :| Path(ns', ns[a].next, b, e);
      if a == h {
        assert Path(ns', n, b, e + 1);
        assert Path(ns', a, b, e + 2);
      } else {
        assert Path(ns', a, b, e + 1);
      }
    }
  }

  lemma {:induction false} PlantBehindOk(ns: Nodes, hash: Obj -> nat, slot: map<Obj, int>, rank: seq<nat>, top: nat,
                                         n: nat, key: Obj)
    requires WellFormed(ns, hash, slot, rank, top, n + 1) && key != Null && key !in slot
    requires n < |ns| && IsFree(ns[n])
    requires var h := Home(hash, key, |ns|); ns[h].key != Null && Home(hash, ns[h].key, |ns|) == h
    ensures var h := Home(hash, key, |ns|);
            && WellFormed(PlantBehind(ns, h, n, key), hash, slot[key := n as int], RankBehind(rank, h, n), top + 1, n)
            && Indexed(PlantBehind(ns, h, n, key), slot[key := n as int]) && |rank| == |ns|
  {
    var h := Home(hash, key, |ns|);
    NoneBelongs(ns, hash, n);
    BehindLinked(ns, rank, top, h, n, key);
    BehindReachable(ns, hash, h, n, key);
    BehindIndexed(ns, slot, h, n, key);
    hide Reach, Linked, Unshared, Reachable;
    assert Settled(PlantBehind(ns, h, n, key), hash);
  }

  lemma {:induction false} BehindLinked(ns: Nodes, rank: seq<nat>, top: nat, h: nat, n: nat, key: Obj)
    requires h < |ns| && n < |ns| && h != n && IsFree(ns[n]) && Linked(ns, rank, top, n + 1) && Unshared(ns)
    ensures Linked(PlantBehind(ns, h, n, key), RankBehind(rank, h, n), top + 1, n)
            && Unshared(PlantBehind(ns, h, n, key))
  {}

  lemma {:induction false} BehindIndexed(ns: Nodes, slot: map<Obj, int>, h: nat, n: nat, key: Obj)
    requires h < |ns| && n < |ns| && h != n && IsFree(ns[n]) && Indexed(ns, slot) && key != Null && key !in slot
    ensures Indexed(PlantBehind(ns, h, n, key), slot[key := n as int])
  {}

  lemma {:induction false} BehindReachable(ns: Nodes, hash: Obj -> nat, h: nat, n: nat, key: Obj)
    requires h < |ns| && n < |ns| && h != n && IsFree(ns[n]) && h == Home(hash, key, |ns|) && Reachable(ns, hash)
    requires forall i :: 0 <= i < |ns| ==> ns[i].next != n
    requires forall i :: 0 <= i < |ns| && ns[i].key != Null ==> HomeOf(ns, hash, i) != n
    ensures Reachable(PlantBehind(ns, h, n, key), hash)
  {
    var ns' := PlantBehind(ns, h, n, key);
    forall i | 0 <= i < |ns'| && ns'[i].key != Null ensures Reach(ns', HomeOf(ns', hash, i), i) {
      if i == n {
        assert Path(ns', n, n, 0);
        assert Path(ns', h, n, 1);
      } else {
        var d: nat :| Path(ns, HomeOf(ns, hash, i), i, d);
        PathBehind(ns, h, n, key, HomeOf(ns, hash, i), i, d);
      }
    }
  }

  /** No live key belongs in a free node. */
  lemma {:induction false} NoneBelongs(ns: Nodes, hash: Obj -> nat, n: nat)
    requires Reachable(ns, hash) && n < |ns| && IsFree(ns[n])
    ensures forall i :: 0 <= i < |ns| && ns[i].key != Null ==> HomeOf(ns, hash, i) != n
  {
    forall i | 0 <= i < |ns| && ns[i].key != Null ensures HomeOf(ns, hash, i) != n {
      if HomeOf(ns, hash, i) == n {
        PathFollows(ns, n, i);
      }
    }
  }

  // ---------- Moving a foreign key out of the main position ----------

  function PlantMoving(ns: Nodes, h: nat, n: nat, prev: nat, key: Obj): Nodes
    requires h < |ns| && n < |ns| && prev < |ns|
  {
    ns[prev := ns[prev].(next := n)][n := ns[h]][h := Node(key, Null, -1)]
  }

  lemma {:induction false} PathMoving(ns: Nodes, h: nat, n: nat, prev: nat, key: Obj, a: int, b: int, d: nat)
    requires h < |ns| && n < |ns| && prev < |ns| && h != n && prev != n && prev != h && IsFree(ns[n])
    requires Unshared(ns) && ns[prev].next == h
    requires Path(ns, a, b, d) && a != n && b != n && a != h
    ensures Reach(PlantMoving(ns, h, n, prev, key), a, if b == h then n else b)
    decreases d, 0
  {
    var ns', b' := PlantMoving(ns, h, n, prev, key), if b == h then n as int else b;
    if d == 0 {
      assert Path(ns', a, b', 0);
    } else if a == prev {
      if d == 1 {
        assert b == h;
        assert Path(ns', n, n, 0);
        assert Path(ns', a, n, 1);
      } else {
        var c := ns[h].next;
        assert Path(ns, h, b, d - 1) && Path(ns, c, b, d - 2);
        MovingStart(ns, h, n, prev, key, c, b, d - 2);
        var e: nat :| Path(ns', c, b', e);
        assert Path(ns', n, b', e + 1);
        assert Path(ns', a, b', e + 2);
      }
    } else {
      var c := ns[a].next;
      MovingStart(ns, h, n, prev, key, c, b, d - 1);
      var e: nat :| Path(ns', c, b', e);
      assert Path(ns', a, b', e + 1);
    }
  }

  /** The successor of a node is neither the free node nor, unless the node is `prev`, the moved one. */
  lemma {:induction false} MovingStart(ns: Nodes, h: nat, n: nat, prev: nat, key: Obj, c: int, b: int, d: nat)
    requires h < |ns| && n < |ns| && prev < |ns| && h != n && prev != n && prev != h && IsFree(ns[n])
    requires Unshared(ns) && ns[prev].next == h
    requires Path(ns, c, b, d) && b != n && c != h
    ensures Reach(PlantMoving(ns, h, n, prev, key), c, if b == h then n else b)
    decreases d, 1
  {
    assert c != n;
    PathMoving(ns, h, n, prev, key, c, b, d);
  }

  lemma {:induction false} PlantMovingOk(ns: Nodes, hash: Obj -> nat, slot: map<Obj, int>, rank: seq<nat>, top: nat,
                                         n: nat, prev: nat, key: Obj)
    requires WellFormed(ns, hash, slot, rank, top, n + 1) && key != Null && key !in slot
    requires n < |ns| && IsFree(ns[n]) && prev < |ns| && ns[prev].next == Home(hash, key, |ns|)
    requires var h := Home(hash, key, |ns|); ns[h].key != Null && HomeOf(ns, hash, h) != h
    ensures var h := Home(hash, key, |ns|);
            var slot' := slot[ns[h].key := n as int][key := h as int];
            && WellFormed(PlantMoving(ns, h, n, prev, key), hash, slot', rank[n := rank[h]], top, n)
            && Indexed(PlantMoving(ns, h, n, prev, key), slot')
  {
    var h := Home(hash, key, |ns|);
    NoneBelongs(ns, hash, n);
    MovingLinked(ns, rank, top, h, n, prev, key);
    MovingIndexed(ns, slot, h, n, prev, key);
    MovingReachable(ns, hash, h, n, prev, key);
    hide Reach, Linked, Unshared, Reachable;
    assert Settled(PlantMoving(ns, h, n, prev, key), hash);
  }

  lemma {:induction false} MovingLinked(ns: Nodes, rank: seq<nat>, top: nat, h: nat, n: nat, prev: nat, key: Obj)
    requires h < |ns| && n < |ns| && prev < |ns| && h != n && IsFree(ns[n]) && ns[prev].next == h
    requires Linked(ns, rank, top, n + 1) && Unshared(ns)
    ensures prev != h && prev != n
    ensures Linked(PlantMoving(ns, h, n, prev, key), rank[n := rank[h]], top, n)
            && Unshared(PlantMoving(ns, h, n, prev, key))
  {}

  lemma {:induction false} MovingIndexed(ns: Nodes, slot: map<Obj, int>, h: nat, n: nat, prev: nat, key: Obj)
    requires h < |ns| && n < |ns| && prev < |ns| && h != n && prev != h && prev != n && IsFree(ns[n])
    requires Indexed(ns, slot) && key != Null && key !in slot && ns[h].key != Null
    ensures Indexed(PlantMoving(ns, h, n, prev, key), slot[ns[h].key := n as int][key := h as int])
  {}

  lemma {:induction false} MovingReachable(ns: Nodes, hash: Obj -> nat, h: nat, n: nat, prev: nat, key: Obj)
    requires h < |ns| && n < |ns| && prev < |ns| && h != n && prev != h && prev != n && IsFree(ns[n])
    requires h == Home(hash, key, |ns|) && ns[h].key != Null && ns[prev].next == h && Unshared(ns)
             && Reachable(ns, hash)
    requires forall i :: 0 <= i < |ns| && ns[i].key != Null ==> HomeOf(ns, hash, i) != n && HomeOf(ns, hash, i) != h
    ensures Reachable(PlantMoving(ns, h, n, prev, key), hash)
  {
    var ns' := PlantMoving(ns, h, n, prev, key);
    forall i | 0 <= i < |ns'| && ns'[i].key != Null ensures Reach(ns', HomeOf(ns', hash, i), i) {
      if i == h {
        assert Path(ns', h, h, 0);
      } else {
        var was := if i == n then h as int else i;
        var d: nat :| Path(ns, HomeOf(ns, hash, was), was, d);
        PathMoving(ns, h, n, prev, key, HomeOf(ns, hash, was), was, d);
      }
    }
  }

  // ---------- Forgetting a key ----------

  /** A removed node stays in its chain. */
  lemma {:induction false} ForgetOk(ns: Nodes, hash: Obj -> nat, slot: map<Obj, int>, rank: seq<nat>, top: nat,
                                    lim: int, key: Obj)
    requires WellFormed(ns, hash, slot, rank, top, lim) && key in slot
    ensures var ns' := ns[slot[key] := Node(Null, Null, ns[slot[key]].next)];
            WellFormed(ns', hash, slot - {key}, rank, top, lim) && Indexed(ns', slot - {key})
  {
    hide Reachable, Reach;
    SameLinksReachable(ns, ns[slot[key] := Node(Null, Null, ns[slot[key]].next)], hash);
  }

  /** Values do not matter for well-formedness. */
  lemma {:induction false} SetValueOk(ns: Nodes, hash: Obj -> nat, slot: map<Obj, int>, rank: seq<nat>, top: nat,
                                      lim: int, i: int, val: Obj)
    requires WellFormed(ns, hash, slot, rank, top, lim) && 0 <= i < |ns|
    ensures WellFormed(ns[i := ns[i].(val := val)], hash, slot, rank, top, lim)
            && Indexed(ns[i := ns[i].(val := val)], slot)
  {
    hide Reachable, Reach, Linked, Unshared, Indexed, Settled;
    var ns' := ns[i := ns[i].(val := val)];
    SameLinksReachable(ns, ns', hash);
    SameLinked(ns, ns', rank, top, lim);
    SameSettled(ns, ns', hash, slot);
  }

  lemma {:induction false} SameLinked(ns: Nodes, ns': Nodes, rank: seq<nat>, top: nat, lim: int)
    requires |ns| == |ns'| && Linked(ns, rank, top, lim) && Unshared(ns) && forall i :: 0 <= i < |ns| ==>
             ns[i].next == ns'[i].next
    ensures Linked(ns', rank, top, lim) && Unshared(ns')
  {}

  lemma {:induction false} SameSettled(ns: Nodes, ns': Nodes, hash: Obj -> nat, slot: map<Obj, int>)
    requires |ns| == |ns'| && Indexed(ns, slot) && Settled(ns, hash) && forall i :: 0 <= i < |ns| ==>
             ns[i].key == ns'[i].key
    ensures Indexed(ns', slot) && Settled(ns', hash)
  {
    hide Home;
  }

  // ---------- What planting leaves alone ----------

  /** Nothing has been removed: nodes above `free` are all in use, and unused nodes are unlinked. */
  ghost predicate Compact(ns: Nodes, free: int) {
    && (forall i :: 0 <= i < |ns| && free < i ==> ns[i].key != Null)
    && (forall i :: 0 <= i < |ns| && ns[i].key == Null ==> ns[i].next == -1)
  }

  /** Values stay with their keys. */
  ghost predicate SameValues(ns: Nodes, slot: map<Obj, int>, ns': Nodes, slot': map<Obj, int>) {
    forall k :: k in slot ==>
        k in slot' && 0 <= slot[k] < |ns| && 0 <= slot'[k] < |ns'| && ns'[slot'[k]].val == ns[slot[k]].val
  }

  lemma HomeKeeps(ns: Nodes, slot: map<Obj, int>, h: nat, free: int, key: Obj)
    requires Indexed(ns, slot) && h < |ns| && key != Null && key !in slot && ns[h].key == Null
    ensures SameValues(ns, slot, PlantHome(ns, h, key), slot[key := h as int])
    ensures Compact(ns, free) ==> Compact(PlantHome(ns, h, key), free)
  {}

  lemma BehindKeeps(ns: Nodes, slot: map<Obj, int>, h: nat, n: nat, key: Obj)
    requires Indexed(ns, slot) && h < |ns| && n < |ns| && IsFree(ns[n]) && ns[h].key != Null && key != Null
             && key !in slot
    ensures SameValues(ns, slot, PlantBehind(ns, h, n, key), slot[key := n as int])
    ensures Compact(ns, n) ==> Compact(PlantBehind(ns, h, n, key), n)
  {}

  lemma MovingKeeps(ns: Nodes, slot: map<Obj, int>, h: nat, n: nat, prev: nat, key: Obj)
    requires Indexed(ns, slot) && h < |ns| && n < |ns| && prev < |ns| && prev != n && prev != h && IsFree(ns[n])
    requires ns[h].key != Null && key != Null && key !in slot && ns[prev].next != -1
    ensures ns[h].key in slot && ns[h].key != key
    ensures SameValues(ns, slot, PlantMoving(ns, h, n, prev, key), slot[ns[h].key := n as int][key := h as int])
    ensures Compact(ns, n) ==> Compact(PlantMoving(ns, h, n, prev, key), n)
  {}

  // ---------- The map that nodes stand for ----------

  /** The part of the map that is stored in the first `n` nodes. */
  ghost function ValuesBelow(ns: Nodes, slot: map<Obj, int>, n: int): map<Obj, Obj> {
    map k | k in slot && 0 <= slot[k] < n && slot[k] < |ns| :: ns[slot[k]].val
  }

  ghost function Values(ns: Nodes, slot: map<Obj, int>): map<Obj, Obj> { ValuesBelow(ns, slot, |ns|) }

  lemma ValuesKeys(ns: Nodes, slot: map<Obj, int>)
    requires Indexed(ns, slot)
    ensures Values(ns, slot).Keys == slot.Keys && |Values(ns, slot)| == |slot|
  {
    assert Values(ns, slot).Keys == slot.Keys;
  }

  lemma ValuesPlanted(ns: Nodes, slot: map<Obj, int>, ns': Nodes, slot': map<Obj, int>, key: Obj)
    requires Indexed(ns, slot) && Indexed(ns', slot') && SameValues(ns, slot, ns', slot')
    requires key !in slot && slot'.Keys == slot.Keys + {key}
    ensures Values(ns', slot') == Values(ns, slot)[key := ns'[slot'[key]].val] && |slot'| == |slot| + 1
  {
    var m, m' := Values(ns, slot), Values(ns', slot');
    ValuesKeys(ns, slot);
    ValuesKeys(ns', slot');
    assert |slot'.Keys| == |slot.Keys| + 1;
    forall k | k in m' ensures m'[k] == m[key := ns'[slot'[key]].val][k] {}
  }

  lemma ValuesStored(ns: Nodes, slot: map<Obj, int>, i: int, val: Obj)
    requires Indexed(ns, slot) && 0 <= i < |ns| && ns[i].key != Null
    ensures Values(ns[i := ns[i].(val := val)], slot) == Values(ns, slot)[ns[i].key := val]
  {}

  lemma ValuesForgotten(ns: Nodes, slot: map<Obj, int>, key: Obj)
    requires Indexed(ns, slot) && key in slot
    ensures Values(ns[slot[key] := Node(Null, Null, ns[slot[key]].next)], slot - {key}) == Values(ns, slot) - {key}
    ensures |slot - {key}| == |slot| - 1
  {
    assert (slot - {key}).Keys == slot.Keys - {key};
  }

  /** One node more. */
  lemma ValuesNext(ns: Nodes, slot: map<Obj, int>, i: nat)
    requires Indexed(ns, slot) && i < |ns|
    ensures if ns[i].key == Null then ValuesBelow(ns, slot, i + 1) == ValuesBelow(ns, slot, i)
            else ValuesBelow(ns, slot, i + 1) == ValuesBelow(ns, slot, i)[ns[i].key := ns[i].val]
                 && ns[i].key !in ValuesBelow(ns, slot, i) && |ValuesBelow(ns, slot, i)| < |slot|
  {
    var key, m, m' := ns[i].key, ValuesBelow(ns, slot, i), ValuesBelow(ns, slot, i + 1);
    if key == Null {
      assert forall k :: k in slot ==> slot[k] != i;
      assert m' == m;
    } else {
      assert forall k :: k in slot && slot[k] == i ==> k == key;
      assert m'.Keys == m.Keys + {key};
      assert m' == m[key := ns[i].val];
      ProperPart(m.Keys, slot.Keys, key);
    }
  }

  lemma ProperPart(part: set<Obj>, whole: set<Obj>, x: Obj)
    requires part <= whole && x in whole && x !in part
    ensures |part| < |whole|
  {
    assert whole == part + (whole - part) && x in whole - part;
  }
}
