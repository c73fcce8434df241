/** SQTable: a hash table whose nodes live in one array.  Colliding keys are chained through free
    nodes taken from the top of the array downwards, and removed nodes stay in their chains until
    the next rehash.  To its users it is a finite map. */
module Table {
  import opened Masks
  import opened TableNodes

  const MINPOWER2 := 4

  lemma {:induction false} AllLive(ns: Nodes, slot: map<Obj, int>, n: nat) returns (keys: set<Obj>)
    requires Indexed(ns, slot) && n <= |ns| && forall i :: 0 <= i < n ==> ns[i].key != Null
    ensures keys <= slot.Keys && |keys| == n && forall k :: k in keys ==> slot[k] < n
    decreases n
  {
    keys := {};
    if n > 0 {
      keys := AllLive(ns, slot, n - 1);
      keys := keys + {ns[n - 1].key};
    }
  }

  lemma SubsetSize<T>(a: set<T>, b: set<T>)
    requires a <= b
    ensures |a| <= |b| && (a != b ==> |a| < |b|)
  {
    assert |b| == |a| + |b - a| by { assert b == a + (b - a); }
  }

  /** There are no more live keys than nodes. */
  lemma {:induction false} LiveBound(ns: Nodes, slot: map<Obj, int>)
    requires Indexed(ns, slot)
    ensures |slot| <= |ns|
  {
    var keys := BelowBound(ns, slot, |ns|);
    assert keys == slot.Keys;
  }

  lemma {:induction false} BelowBound(ns: Nodes, slot: map<Obj, int>, n: nat) returns (keys: set<Obj>)
    requires Indexed(ns, slot) && n <= |ns|
    ensures |keys| <= n && keys <= slot.Keys && forall k :: k in slot && slot[k] < n ==> k in keys
    decreases n
  {
    keys := {};
    if n > 0 {
      keys := BelowBound(ns, slot, n - 1);
      if ns[n - 1].key != Null { keys := keys + {ns[n - 1].key}; }
    }
  }

  class SQTable {
    const hash: Obj -> nat
    var nodes: array<Node>
    var firstFree: int
    var usedNodes: int
    ghost var slot: map<Obj, int>
    ghost var rank: seq<nat>
    ghost var top: nat

    /** The live keys are known, whatever state the chains are in. */
    ghost predicate Shaped()
      reads this, nodes
    {
      nodes.Length >= MINPOWER2 && PowerOfTwo(nodes.Length) && Indexed(nodes[..], slot)
    }

    ghost predicate Valid()
      reads this, nodes
    {
      && Shaped() && usedNodes == |slot|
      && 0 <= firstFree < nodes.Length && IsFree(nodes[firstFree])
      && WellFormed(nodes[..], hash, slot, rank, top, firstFree + 1)
    }

    /** Nothing has been removed since the last rehash. */
    ghost predicate Fresh()
      reads this, nodes
    {
      Compact(nodes[..], firstFree)
    }

    /** The key can be stored without a rehash. */
    ghost predicate Roomy(key: Obj)
      reads this, nodes
    {
      Fresh() && (key in slot || |slot| + 1 < nodes.Length)
    }

    /** The finite map that the table stands for. */
    ghost function Contents(): map<Obj, Obj>
      reads this, nodes
    {
      Values(nodes[..], slot)
    }

    /** _Get: walk the chain that starts at the key's main position. */
    method Lookup(key: Obj, h: nat) returns (n: int)
      requires Valid() && key != Null && h == Home(hash, key, nodes.Length)
      ensures if key in slot then n == slot[key] && 0 <= n < nodes.Length && nodes[n].key == key else n == -1
      ensures (key in Contents()) == (n != -1) && (n != -1 ==> Contents()[key] == nodes[n].val)
    {
      n := h;
      ghost var ns := nodes[..];
      ValuesKeys(ns, slot);
      if key in slot { assert Reach(ns, HomeOf(ns, hash, slot[key]), slot[key]); }
      while true
        invariant 0 <= n < nodes.Length && nodes[..] == ns
        invariant key in slot ==> Reach(ns, n, slot[key])
        decreases top - rank[n]
      {
        if nodes[n].key == key {
          return;
        }
        if key in slot { PathFollows(ns, n, slot[key]); }
        if nodes[n].next == -1 {
          return -1;
        }
        n := nodes[n].next;
      }
    }

    method Get(key: Obj) returns (found: bool, val: Obj)
      requires Valid()
      ensures found == (key in Contents()) && (found ==> val == Contents()[key])
    {
      if key == Null {
        return false, Null;
      }
      var n := Lookup(key, Home(hash, key, nodes.Length));
      if n != -1 {
        return true, nodes[n].val;
      }
      return false, Null;
    }

    method StoreValue(i: int, val: Obj)
      requires Valid() && 0 <= i < nodes.Length && nodes[i].key != Null
      modifies nodes
      ensures Valid() && Contents() == old(Contents())[old(nodes[i].key) := val]
      ensures old(Fresh()) ==> Fresh()
    {
      hide WellFormed, PowerOfTwo, Values, Indexed;
      ValuesStored(nodes[..], slot, i, val);
      SetValueOk(nodes[..], hash, slot, rank, top, firstFree + 1, i, val);
      ghost var ns := nodes[..];
      nodes[i] := nodes[i].(val := val);
      assert nodes[..] == ns[i := ns[i].(val := val)];
    }

    method Set(key: Obj, val: Obj) returns (found: bool)
      requires Valid() && key != Null
      modifies nodes
      ensures Valid() && found == (key in old(Contents()))
      ensures Contents() == if found then old(Contents())[key := val] else old(Contents())
    {
      hide WellFormed, PowerOfTwo, Home, Values, Indexed, Compact;
      var n := Lookup(key, Home(hash, key, nodes.Length));
      found := n != -1;
      if found {
        StoreValue(n, val);
      }
    }

    // ---------- Inserting ----------

    /** Put a new key into a node: its main position if that is empty, else a free node.  A key
        that does not belong in the main position makes room.  Values move with their keys. */
    method Plant(key: Obj) returns (mp: int)
      requires Valid() && key != Null && key !in slot
      modifies nodes, this`slot, this`rank, this`top
      ensures Shaped() && WellFormed(nodes[..], hash, slot, rank, top, firstFree)
      ensures forall i :: 0 <= i < nodes.Length && nodes[i].next == firstFree ==> nodes[firstFree].key != Null
      ensures slot.Keys == old(slot.Keys) + {key} && slot[key] == mp
      ensures SameValues(old(nodes[..]), old(slot), nodes[..], slot)
      ensures old(Fresh()) ==> Fresh()
    {
      hide WellFormed, PowerOfTwo, Home, Reach, Indexed, SameValues, Compact;
      var h := Home(hash, key, nodes.Length);
      ghost var ns := nodes[..];
      if nodes[h].key == Null {
        HomeKeeps(ns, slot, h, firstFree, key);
        PlantHomeOk(ns, hash, slot, rank, top, firstFree + 1, key);
        Loosen(ns, PlantHome(ns, h, key), hash, slot[key := h as int], rank, top, firstFree);
        nodes[h] := nodes[h].(key := key);
        assert nodes[..] == PlantHome(ns, h, key);
        slot := slot[key := h as int];
        return h;
      }
      var mph := Home(hash, nodes[h].key, nodes.Length);
      BelongsOrLinked(ns, hash, slot, rank, top, firstFree + 1, h);
      if h > firstFree && mph != h {
        PlantMoved(key, h, mph);
        mp := h;
      } else {
        PlantBehindIt(key, h);
        mp := firstFree;
      }
    }

    static lemma {:induction false} BelongsOrLinked(ns: Nodes, hash: Obj -> nat, slot: map<Obj, int>, rank: seq<nat>,
                                                    top: nat, lim: int, h: nat)
      requires WellFormed(ns, hash, slot, rank, top, lim) && h < |ns| && ns[h].key != Null
      ensures HomeOf(ns, hash, h) == h || (lim <= h && Reach(ns, HomeOf(ns, hash, h), h))
    {
      if HomeOf(ns, hash, h) != h {
        var d: nat :| Path(ns, HomeOf(ns, hash, h), h, d);
        PathEndLinked(ns, rank, top, lim, HomeOf(ns, hash, h), h, d);
      }
    }

    static lemma {:induction false} Loosen(ns: Nodes, ns': Nodes, hash: Obj -> nat, slot: map<Obj, int>, rank: seq<nat>,
                                           top: nat, lim: int)
      requires WellFormed(ns', hash, slot, rank, top, lim + 1)
      ensures WellFormed(ns', hash, slot, rank, top, lim)
      ensures forall i :: 0 <= i < |ns'| ==> ns'[i].next != lim || lim == -1
    {}

    /** Chain the key behind the one in its main position, in the free node. */
    method PlantBehindIt(key: Obj, h: nat)
      requires Valid() && key != Null && key !in slot && h == Home(hash, key, nodes.Length)
      requires nodes[h].key != Null && Home(hash, nodes[h].key, nodes.Length) == h
      modifies nodes, this`slot, this`rank, this`top
      ensures Shaped() && WellFormed(nodes[..], hash, slot, rank, top, firstFree)
      ensures nodes[firstFree].key != Null && slot == old(slot)[key := firstFree]
      ensures SameValues(old(nodes[..]), old(slot), nodes[..], slot)
      ensures old(Fresh()) ==> Fresh()
    {
      hide WellFormed, PowerOfTwo, Home, RankBehind, Indexed, SameValues, Compact;
      ghost var ns := nodes[..];
      BehindKeeps(ns, slot, h, firstFree, key);
      PlantBehindOk(ns, hash, slot, rank, top, firstFree, key);
      var n := firstFree;
      nodes[n] := nodes[n].(next := nodes[h].next);
      nodes[h] := nodes[h].(next := n);
      nodes[n] := nodes[n].(key := key);
      assert nodes[..] == PlantBehind(ns, h, n, key);
      slot, rank, top := slot[key := n], RankBehind(rank, h, n), top + 1;
    }

    /** The key in the main position belongs elsewhere: move it to the free node. */
    method PlantMoved(key: Obj, h: nat, mph: nat)
      requires Valid() && key != Null && key !in slot && h == Home(hash, key, nodes.Length)
      requires nodes[h].key != Null && mph == Home(hash, nodes[h].key, nodes.Length) && mph != h
               && Reach(nodes[..], mph, h)
      modifies nodes, this`slot, this`rank, this`top
      ensures Shaped() && WellFormed(nodes[..], hash, slot, rank, top, firstFree)
      ensures nodes[firstFree].key != Null && slot.Keys == old(slot.Keys) + {key} && slot[key] == h
      ensures SameValues(old(nodes[..]), old(slot), nodes[..], slot)
      ensures old(Fresh()) ==> Fresh()
    {
      hide WellFormed, PowerOfTwo, Home, Indexed, SameValues, Compact;
      ghost var ns, f := nodes[..], nodes[h].key;
      var prev := FindPrevious(mph, h);
      var n := firstFree;
      MovingKeeps(ns, slot, h, n, prev, key);
      PlantMovingOk(ns, hash, slot, rank, top, n, prev, key);
      nodes[prev] := nodes[prev].(next := n);
      nodes[n] := nodes[h];
      nodes[h] := Node(Null, Null, -1);
      nodes[h] := nodes[h].(key := key);
      assert nodes[..] == PlantMoving(ns, h, n, prev, key);
      slot, rank := slot[f := n][key := h as int], rank[n := rank[h]];
    }

    method FindPrevious(start: nat, target: nat) returns (prev: nat)
      requires Valid() && start < nodes.Length && start != target && Reach(nodes[..], start, target)
      ensures prev < nodes.Length && nodes[prev].next == target
      ensures |rank| == nodes.Length && target < nodes.Length && prev != target && prev != firstFree
    {
      ghost var ns := nodes[..];
      prev := start;
      while nodes[prev].next != target
        invariant prev < nodes.Length && prev != target && Reach(ns, prev, target) && nodes[..] == ns
        decreases top - rank[prev]
      {
        PathFollows(ns, prev, target);
        prev := nodes[prev].next;
      }
      PathFollows(ns, prev, target);
      ghost var d: nat :| Path(ns, nodes[prev].next, target, d);
    }

    /** Move the free pointer down to a free node; `ok` is false when there is none left. */
    method CorrectFirstFree() returns (ok: bool)
      requires Shaped() && 0 <= firstFree < nodes.Length && WellFormed(nodes[..], hash, slot, rank, top, firstFree)
      requires forall i :: 0 <= i < nodes.Length && nodes[i].next == firstFree ==> nodes[firstFree].key != Null
      modifies this`firstFree
      ensures 0 <= firstFree <= old(firstFree)
      ensures ok ==> IsFree(nodes[firstFree]) && WellFormed(nodes[..], hash, slot, rank, top, firstFree + 1)
      ensures !ok ==> forall i :: 0 <= i <= old(firstFree) ==> !IsFree(nodes[i])
      ensures ok && old(Fresh()) ==> Fresh()
    {
      hide Indexed, Reachable, Settled, Unshared;
      while true
        invariant 0 <= firstFree <= old(firstFree)
        invariant Linked(nodes[..], rank, top, firstFree)
        invariant forall i :: 0 <= i < nodes.Length && nodes[i].next == firstFree ==> nodes[firstFree].key != Null
        invariant forall i :: firstFree < i <= old(firstFree) ==> !IsFree(nodes[i])
        decreases firstFree
      {
        if nodes[firstFree].key == Null && nodes[firstFree].next == -1 {
          return true;
        } else if firstFree == 0 {
          return false;
        } else {
          firstFree := firstFree - 1;
        }
      }
    }

    /** Plant a new key and look for the next free node.  If there is none, the key stays planted
        and the caller has to rehash. */
    method Insert(key: Obj, val: Obj) returns (ok: bool)
      requires Valid() && key != Null && key !in slot
      modifies this, nodes
      ensures nodes == old(nodes) && Shaped() && key in slot
      ensures ok ==> Valid() && Contents() == old(Contents())[key := val]
      ensures !ok ==> usedNodes == old(usedNodes) && slot.Keys == old(slot.Keys) + {key}
      ensures !ok ==> Contents() == old(Contents())[key := Contents()[key]]
      ensures old(Roomy(key)) ==> ok && Fresh()
    {
      hide WellFormed, PowerOfTwo, Home, Reach, Values, SameValues, Compact, Indexed;
      ghost var roomy, slot0, ns := Roomy(key), slot, nodes[..];
      var mp := Plant(key);
      ValuesPlanted(ns, slot0, nodes[..], slot, key);
      AlsoAt(nodes[..], slot, key);
      ghost var free := firstFree;
      ok := CorrectFirstFree();
      if ok {
        usedNodes := usedNodes + 1;
        StoreValue(mp, val);
      } else if roomy {
        NoneFree(nodes[..], slot, free);
        assert false;
      }
    }

    static lemma AlsoAt(ns: Nodes, slot: map<Obj, int>, key: Obj)
      requires Indexed(ns, slot) && key in slot
      ensures 0 <= slot[key] < |ns| && ns[slot[key]].key == key && key in Values(ns, slot)
              && Values(ns, slot)[key] == ns[slot[key]].val
    {}

    /** With nothing removed, there is a free node as long as there are fewer keys than nodes. */
    static lemma NoneFree(ns: Nodes, slot: map<Obj, int>, free: int)
      requires Indexed(ns, slot) && Compact(ns, free) && forall i :: 0 <= i <= free && i < |ns| ==> !IsFree(ns[i])
      ensures |slot| >= |ns|
    {
      var keys := AllLive(ns, slot, |ns|);
      SubsetSize(keys, slot.Keys);
    }

    /** Store a value under a key.  The recursion is one deep: a rehash leaves room for every live
        key and the new one, so storing the keys again never leads to another rehash. */
    method NewSlot(key: Obj, val: Obj) returns (created: bool)
      requires Valid() && key != Null
      modifies this, nodes
      ensures Valid() && Contents() == old(Contents())[key := val]
      ensures old(Roomy(key)) ==> nodes == old(nodes) && Fresh() && created == (key !in old(Contents()))
      ensures nodes == old(nodes) || fresh(nodes)
      decreases if Roomy(key) then 0 else 2
    {
      hide WellFormed, PowerOfTwo, Home, Reach, Indexed, Compact, Values;
      ValuesKeys(nodes[..], slot);
      var n := Lookup(key, Home(hash, key, nodes.Length));
      if n != -1 {
        StoreValue(n, val);
        return false;
      }
      created := Insert(key, val);
      if !created {
        Rehash(true);
        created := NewSlot(key, val);
      }
    }

    method AllocNodes(size: nat)
      requires size >= MINPOWER2 && PowerOfTwo(size)
      modifies this
      ensures fresh(nodes) && nodes.Length == size && Valid() && Fresh() && slot == map[]
    {
      nodes := new Node[size](_ => Node(Null, Null, -1));
      firstFree := size - 1;
      usedNodes := 0;
      slot, rank, top := map[], seq(size, _ => 0), 0;
    }

    /** How many nodes a table of that size should have for so many keys: twice as many from three
        quarters up, half as many up to one quarter. */
    static function NewSize(size: int, used: int): int {
      if used >= size - size / 4 then size * 2 else if used <= size / 4 && size > MINPOWER2 then size / 2 else size
    }

    /** A table whose size is right is left alone unless it is forced. */
    method Rehash(force: bool)
      requires Shaped() && usedNodes <= |slot| <= usedNodes + 1 && (!force ==> Valid())
      modifies this, nodes
      ensures Valid() && Contents() == old(Contents()) && slot.Keys == old(slot.Keys)
      ensures force ==> Fresh() && |slot| < nodes.Length
      ensures nodes == old(nodes) || fresh(nodes)
      ensures nodes.Length == NewSize(old(nodes.Length), old(usedNodes))
      ensures nodes == old(nodes) <==> !force && nodes.Length == old(nodes.Length)
      ensures nodes == old(nodes) ==> nodes[..] == old(nodes[..])
      decreases 1
    {
      hide WellFormed, Home, Reach, Indexed, Compact, Values, PowerOfTwo;
      var oldsize := nodes.Length;
      if oldsize < 4 { oldsize := 4; }
      var nold := nodes;
      var nelems := usedNodes;
      ghost var ns, slot0 := nodes[..], slot;
      LiveBound(ns, slot);
      Sizes(oldsize);
      if nelems >= oldsize - oldsize / 4 {
        AllocNodes(oldsize * 2);
      } else if nelems <= oldsize / 4 && oldsize > MINPOWER2 {
        AllocNodes(oldsize / 2);
      } else if force {
        AllocNodes(oldsize);
      } else {
        ValuesKeys(ns, slot);
        return;
      }
      CopyAll(nold, slot0);
      ValuesKeys(ns, slot0);
      ValuesKeys(nodes[..], slot);
    }

    /** Doubling and halving keep sizes powers of two. */
    static lemma Sizes(n: nat)
      requires PowerOfTwo(n) && n >= MINPOWER2
      ensures PowerOfTwo(n * 2) && (n > MINPOWER2 ==> PowerOfTwo(n / 2) && n / 2 >= MINPOWER2)
    {
      assert PowerOfTwo(3) == false && n * 2 / 2 == n;
    }

    /** Store every live key of the old nodes again. */
    method CopyAll(nold: array<Node>, ghost slot0: map<Obj, int>)
      requires Valid() && Fresh() && slot == map[] && nold != nodes
      requires Indexed(nold[..], slot0) && |slot0| < nodes.Length
      modifies this, nodes
      ensures Valid() && Fresh() && nodes == old(nodes)
      ensures Contents() == Values(nold[..], slot0)
      decreases 1, 0
    {
      hide WellFormed, PowerOfTwo, Home, Reach, Compact, Indexed, ValuesBelow;
      ghost var ns := nold[..];
      EmptyValues(nodes[..], ns, slot0);
      for i := 0 to nold.Length
        invariant Valid() && Fresh() && nodes == old(nodes) && nold[..] == ns
        invariant Contents() == ValuesBelow(ns, slot0, i)
      {
        ValuesNext(ns, slot0, i);
        ValuesKeys(nodes[..], slot);
        var node := nold[i];
        if node.key != Null {
          var _ := NewSlot(node.key, node.val);
        }
      }
    }

    static lemma EmptyValues(ns: Nodes, ns0: Nodes, slot0: map<Obj, int>)
      ensures Values(ns, map[]) == map[] == ValuesBelow(ns0, slot0, 0)
    {}

    // ---------- Removing ----------

    method Remove(key: Obj)
      requires Valid() && key != Null
      modifies this, nodes
      ensures Valid() && Contents() == old(Contents()) - {key}
      ensures nodes == old(nodes) || fresh(nodes)
      ensures key in old(Contents()) ==> nodes.Length == NewSize(old(nodes.Length), old(usedNodes) - 1)
      ensures nodes == old(nodes) <==> nodes.Length == old(nodes.Length)
      ensures nodes == old(nodes) ==> forall i :: 0 <= i < nodes.Length ==> nodes[i].next == old(nodes[i].next)
    {
      hide WellFormed, PowerOfTwo, Home, Reach, Compact, Indexed, Values;
      ghost var ns := nodes[..];
      var n := Lookup(key, Home(hash, key, nodes.Length));
      if n != -1 {
        ValuesForgotten(ns, slot, key);
        ForgetOk(ns, hash, slot, rank, top, firstFree + 1, key);
        nodes[n] := Node(Null, Null, nodes[n].next);
        assert nodes[..] == ns[n := Node(Null, Null, ns[n].next)];
        usedNodes := usedNodes - 1;
        slot := slot - {key};
        Rehash(false);
      }
    }

    method Clear()
      requires Valid()
      modifies this, nodes
      ensures Valid() && Contents() == map[]
      ensures nodes == old(nodes) || fresh(nodes)
    {
      hide WellFormed, PowerOfTwo, Home, Reach, Compact, Values;
      ClearNodes();
      usedNodes := 0;
      slot := map[];
      EmptyValues(nodes[..], nodes[..], map[]);
      Rehash(true);
    }

    method ClearNodes()
      modifies nodes
      ensures forall i :: 0 <= i < nodes.Length ==> nodes[i].key == Null
    {
      for i := 0 to nodes.Length
        invariant forall j :: 0 <= j < i ==> nodes[j].key == Null
      {
        nodes[i] := Node(Null, Null, nodes[i].next);
      }
    }

    // ---------- Iterating ----------

    /** The first live node at or after `idx`; the result is where to continue, or -1. */
    method Next(idx: nat) returns (next: int, key: Obj, val: Obj)
      ensures next == -1 ==> forall i :: idx <= i < nodes.Length ==> nodes[i].key == Null
      ensures next != -1 ==>
              idx < next <= nodes.Length && key == nodes[next - 1].key != Null && val == nodes[next - 1].val
      ensures next != -1 ==> forall i :: idx <= i < next - 1 ==> nodes[i].key == Null
    {
      var i := idx;
      while i < nodes.Length
        invariant idx <= i && forall j :: idx <= j < i && j < nodes.Length ==> nodes[j].key == Null
      {
        if nodes[i].key != Null {
          return i + 1, nodes[i].key, nodes[i].val;
        }
        i := i + 1;
      }
      return -1, Null, Null;
    }

    constructor (hash: Obj -> nat, initialSize: int)
      ensures this.hash == hash && fresh(nodes) && Valid() && Fresh() && Contents() == map[]
      ensures nodes.Length >= initialSize
      ensures PowerOfTwo(initialSize) && initialSize >= MINPOWER2 ==> nodes.Length == initialSize
    {
      var pow2size := MINPOWER2;
      assert PowerOfTwo(1) && PowerOfTwo(2);
      while initialSize > pow2size
        invariant pow2size >= MINPOWER2 && PowerOfTwo(pow2size)
        invariant PowerOfTwo(initialSize) && initialSize >= MINPOWER2 ==> pow2size <= initialSize
      {
        Sizes(pow2size);
        if PowerOfTwo(initialSize) { NoneBetween(pow2size, initialSize); }
        pow2size := pow2size * 2;
      }
      this.hash := hash;
      nodes := new Node[pow2size](_ => Node(Null, Null, -1));
      firstFree := pow2size - 1;
      usedNodes := 0;
      slot, rank, top := map[], seq(pow2size, _ => 0), 0;
      new;
      assert Valid();
    }

    static lemma {:induction false} NoneBetween(a: nat, b: nat)
      requires PowerOfTwo(a) && PowerOfTwo(b) && a < b
      ensures a * 2 <= b
      decreases a
    {
      if a > 1 { NoneBetween(a / 2, b / 2); }
    }

    /** A copy of the table; it has as many nodes, and copying never makes it rehash. */
    method Clone() returns (nt: SQTable)
      requires Valid()
      ensures fresh(nt) && nt.Valid() && nt.hash == hash && nt.Contents() == Contents()
      ensures fresh(nt.nodes) && nt.nodes.Length == nodes.Length
    {
      hide WellFormed, Home, Reach, Compact, ValuesBelow;
      nt := new SQTable(hash, nodes.Length);
      ghost var ns, slot0 := nodes[..], slot;
      ghost var copy := nt.nodes;
      EmptyValues(copy[..], ns, slot);
      var ridx: int := 0;
      var key, val;
      SomeFree(ns, slot, firstFree);
      while true
        invariant 0 <= ridx <= nodes.Length && nodes[..] == ns && slot == slot0
        invariant nt.Valid() && nt.Fresh() && nt.nodes == copy && nt.hash == hash
        invariant nt.Contents() == ValuesBelow(ns, slot, ridx)
        decreases nodes.Length - ridx
      {
        var next;
        next, key, val := Next(ridx);
        SkipNull(ns, slot, ridx, if next == -1 then nodes.Length else next - 1);
        if next == -1 { break; }
        ValuesNext(ns, slot, next - 1);
        ValuesKeys(copy[..], nt.slot);
        ridx := next;
        var _ := nt.NewSlot(key, val);
      }
    }

    /** Iterating as `foreach` does visits every live key once, with its value, and ends. */
    method Visit() returns (seen: seq<(Obj, Obj)>)
      requires Valid()
      ensures forall i, j :: 0 <= i < j < |seen| ==> seen[i].0 != seen[j].0
      ensures forall i :: 0 <= i < |seen| ==> seen[i].0 in Contents() && Contents()[seen[i].0] == seen[i].1
      ensures |seen| == |Contents()|
    {
      hide WellFormed, Home, Reach, Compact, ValuesBelow;
      ghost var ns := nodes[..];
      var ridx: int := 0;
      seen := [];
      NoneSeen(ns, slot);
      while true
        invariant 0 <= ridx <= nodes.Length && Listed(seen, ValuesBelow(ns, slot, ridx))
        decreases nodes.Length - ridx
      {
        var next, key, val := Next(ridx);
        SkipNull(ns, slot, ridx, if next == -1 then nodes.Length else next - 1);
        if next == -1 { break; }
        ValuesNext(ns, slot, next - 1);
        OneSeen(seen, ValuesBelow(ns, slot, next - 1), key, val);
        seen, ridx := seen + [(key, val)], next;
      }
    }

    static ghost predicate Listed(seen: seq<(Obj, Obj)>, m: map<Obj, Obj>) {
      && (forall i, j :: 0 <= i < j < |seen| ==> seen[i].0 != seen[j].0)
      && (forall i :: 0 <= i < |seen| ==> seen[i].0 in m && m[seen[i].0] == seen[i].1)
      && |seen| == |m|
    }

    static lemma NoneSeen(ns: Nodes, slot: map<Obj, int>)
      ensures Listed([], ValuesBelow(ns, slot, 0))
    {
      assert ValuesBelow(ns, slot, 0) == map[];
    }

    static lemma OneSeen(seen: seq<(Obj, Obj)>, m: map<Obj, Obj>, key: Obj, val: Obj)
      requires Listed(seen, m) && key !in m
      ensures Listed(seen + [(key, val)], m[key := val])
    {
      assert m[key := val].Keys == m.Keys + {key};
    }

    static lemma {:induction false} SkipNull(ns: Nodes, slot: map<Obj, int>, i: nat, j: nat)
      requires Indexed(ns, slot) && i <= j <= |ns| && forall n :: i <= n < j ==> ns[n].key == Null
      ensures ValuesBelow(ns, slot, i) == ValuesBelow(ns, slot, j)
      decreases j - i
    {
      if i < j {
        ValuesNext(ns, slot, i);
        SkipNull(ns, slot, i + 1, j);
      }
    }

    static lemma SomeFree(ns: Nodes, slot: map<Obj, int>, free: int)
      requires Indexed(ns, slot) && 0 <= free < |ns| && ns[free].key == Null
      ensures |slot| < |ns|
    {
      var keys := BelowBound(ns, slot, free);
      var all := AboveBound(ns, slot, free + 1);
      assert slot.Keys == keys + all;
    }
  }

  lemma {:induction false} AboveBound(ns: Nodes, slot: map<Obj, int>, n: nat) returns (keys: set<Obj>)
    requires Indexed(ns, slot) && n <= |ns|
    ensures |keys| <= |ns| - n && keys <= slot.Keys && forall k :: k in slot && slot[k] >= n ==> k in keys
    decreases |ns| - n
  {
    keys := {};
    if n < |ns| {
      keys := AboveBound(ns, slot, n + 1);
      if ns[n].key != Null { keys := keys + {ns[n].key}; }
    }
  }

  // ---------- Whole runs ----------

  datatype Op = NewSlot(key: Obj, val: Obj) | Set(key: Obj, val: Obj) | Remove(key: Obj) | Clear

  /** What a sequence of operations does to a plain map. */
  function Apply(m: map<Obj, Obj>, ops: seq<Op>): map<Obj, Obj>
    decreases |ops|
  {
    if ops == [] then m else
    var m' := Apply(m, ops[..|ops| - 1]);
    match ops[|ops| - 1]
    case NewSlot(k, v) => m'[k := v]
    case Set(k, v) => if k in m' then m'[k := v] else m'
    case Remove(k) => m' - {k}
    case Clear => map[]
  }

  /** Any sequence of operations, followed by any lookup, is answered as the map would. */
  method Run(hash: Obj -> nat, size: int, ops: seq<Op>, query: Obj) returns (found: bool, val: Obj)
    requires forall i :: 0 <= i < |ops| && !ops[i].Clear? ==> ops[i].key != Null
    ensures var m := Apply(map[], ops); found == (query in m) && (found ==> val == m[query])
  {
    hide WellFormed, Indexed, Compact, PowerOfTwo, Values;
    var t := new SQTable(hash, size);
    for i := 0 to |ops|
      invariant t.Valid() && fresh(t) && fresh(t.nodes)
      invariant t.Contents() == Apply(map[], ops[..i])
    {
      assert ops[..i + 1][..i] == ops[..i] && ops[..i + 1][i] == ops[i];
      match ops[i]
      case NewSlot(k, v) => var _ := t.NewSlot(k, v);
      case Set(k, v) => var _ := t.Set(k, v);
      case Remove(k) => t.Remove(k);
      case Clear => t.Clear();
    }
    assert ops[..|ops|] == ops;
    found, val := t.Get(query);
  }
}
