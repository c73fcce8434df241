/** RefTable: reference counts that the host holds on objects, kept in bucket chains threaded through
    one node array, with the unused nodes on a free list. */
module RefTables {
  import opened Wrappers
  import opened Masks
  import opened Removal

  type Obj(==)

  /** next is the index of a node, or -1. */
  datatype Node = Node(obj: Option<Obj>, refs: nat, next: int)

  /** SQUnsignedInteger on a 32-bit build. */
  const WIDTH := 0x1_0000_0000

  function Up(n: nat): nat { (n + 1) % WIDTH }

  function Down(n: nat): nat { (n + WIDTH - 1) % WIDTH }

  /** Counts are 32 bits wide: one more after the largest is zero, one less than zero is the largest. */
  lemma UpDown(n: nat)
    requires n < WIDTH
    ensures Down(Up(n)) == n && Up(n) == (if n < 4294967295 then n + 1 else 0)
  {}

  /** The bucket of an object. */
  function Main(hash: Obj -> nat, o: Obj, size: nat): (h: nat)
    requires size > 0
    ensures h < size
  {
    hash(o) % size
  }

  /** For a power of two that is the hash masked with the size less one. */
  lemma MainMasks(hash: Obj -> nat, o: Obj, size: nat)
    requires PowerOfTwo(size)
    ensures Main(hash, o, size) == And(hash(o), size - 1)
  {
    MaskIsMod(hash(o), size);
  }

  // ---------- Chains ----------

  ghost predicate Linked(nodes: seq<Node>, head: int, s: seq<int>) {
    && (forall k :: 0 <= k < |s| ==> 0 <= s[k] < |nodes|)
    && head == (if s == [] then -1 else s[0])
    && (s != [] ==> nodes[s[|s| - 1]].next == -1)
    && (forall j, k :: 0 <= j < |s| && k == j + 1 < |s| ==> nodes[s[j]].next == s[k])
    && (forall j, k :: 0 <= j < k < |s| ==> s[j] != s[k])
  }

  /** Links survive changes to other nodes, and to what the nodes hold. */
  lemma LinkedElse(nodes: seq<Node>, nodes2: seq<Node>, head: int, s: seq<int>)
    requires Linked(nodes, head, s) && |nodes2| == |nodes|
    requires forall k :: 0 <= k < |s| ==> nodes2[s[k]].next == nodes[s[k]].next
    ensures Linked(nodes2, head, s)
  {}

  lemma NextOf(nodes: seq<Node>, head: int, s: seq<int>, k: nat)
    requires Linked(nodes, head, s) && k < |s|
    ensures 0 <= s[k] < |nodes| && nodes[s[k]].next == if k + 1 < |s| then s[k + 1] else -1
  {}

  lemma LinkedTail(nodes: seq<Node>, head: int, s: seq<int>)
    requires Linked(nodes, head, s) && s != []
    ensures Linked(nodes, nodes[head].next, s[1..]) && head !in s[1..] && s == [head] + s[1..]
  {
    NextOf(nodes, head, s, 0);
    assert forall k :: 0 <= k < |s| - 1 ==> s[1..][k] == s[k + 1];
  }

  lemma LinkedCons(nodes: seq<Node>, head: int, s: seq<int>, i: int)
    requires Linked(nodes, head, s) && 0 <= i < |nodes| && i !in s && nodes[i].next == head
    ensures Linked(nodes, i, [i] + s)
  {}

  /** Unlink the k-th node, which has a predecessor. */
  lemma LinkedCut(nodes: seq<Node>, nodes2: seq<Node>, head: int, s: seq<int>, k: nat)
    requires Linked(nodes, head, s) && 0 < k < |s| && |nodes2| == |nodes|
    requires nodes2[s[k - 1]].next == nodes[s[k]].next
    requires forall j :: 0 <= j < |s| && j != k - 1 && j != k ==> nodes2[s[j]].next == nodes[s[j]].next
    ensures Linked(nodes2, head, s[..k] + s[k + 1..])
  {
    NextOf(nodes, head, s, k);
    var t := s[..k] + s[k + 1..];
    assert forall j {:trigger t[j]} :: 0 <= j < |t| ==> t[j] == if j < k then s[j] else s[j + 1];
  }

  // ---------- The table ----------

  /** The fields of the table, and for the proof the nodes of each chain, those on the free list,
      where each node is (in a bucket, or -1 if it is free) and which node each object has. */
  datatype Refs = Refs(nodes: seq<Node>, buckets: seq<int>, freelist: int, chains: seq<seq<int>>, free: seq<int>,
                       place: seq<int>, at: map<Obj, int>)

  ghost predicate Shaped(t: Refs) {
    && |t.nodes| == |t.buckets| == |t.chains| == |t.place|
    && (forall h :: 0 <= h < |t.chains| ==> Linked(t.nodes, t.buckets[h], t.chains[h]))
    && Linked(t.nodes, t.freelist, t.free)
  }

  /** Buckets and free list share out the nodes. */
  ghost predicate Shared(t: Refs)
    requires |t.nodes| == |t.chains| == |t.place|
  {
    && (forall i :: 0 <= i < |t.nodes| ==> -1 <= t.place[i] < |t.nodes|)
    && (forall i :: i in t.free <==> 0 <= i < |t.nodes| && t.place[i] == -1)
    && (forall h, i {:trigger i in t.chains[h]} {:trigger t.place[i], t.chains[h]} :: 0 <= h < |t.chains| ==>
          (i in t.chains[h] <==> 0 <= i < |t.nodes| && t.place[i] == h))
  }

  ghost predicate Right(t: Refs) { Shaped(t) && Shared(t) }

  /** A free node goes to the head of bucket h. */
  function Taken(t: Refs, h: nat, o: Obj): Refs
    requires Shaped(t) && h < |t.buckets| && t.free != []
  {
    var i := t.freelist;
    t.(nodes := t.nodes[i := t.nodes[i].(obj := Some(o), next := t.buckets[h])], buckets := t.buckets[h := i],
       freelist := t.nodes[i].next,
       chains := t.chains[h := [i] + t.chains[h]], free := t.free[1..], place := t.place[i := h], at := t.at[o := i])
  }

  lemma TakenRight(t: Refs, h: nat, o: Obj)
    requires Right(t) && h < |t.buckets| && t.free != []
    ensures Right(Taken(t, h, o))
  {
    hide Linked;
    var i, u := t.freelist, Taken(t, h, o);
    FirstFree(t);
    LinkedTail(t.nodes, t.freelist, t.free);
    LinkedElse(t.nodes, u.nodes, t.nodes[i].next, t.free[1..]);
    forall g | 0 <= g < |t.chains| ensures Linked(u.nodes, t.buckets[g], t.chains[g]) {
      InRange(t.nodes, t.buckets[g], t.chains[g]);
      LinkedElse(t.nodes, u.nodes, t.buckets[g], t.chains[g]);
    }
    LinkedCons(u.nodes, t.buckets[h], t.chains[h], i);
    assert Shaped(u);
    TakenShared(t, h, o);
  }

  lemma TakenShared(t: Refs, h: nat, o: Obj)
    requires Right(t) && h < |t.buckets| && t.free != []
    ensures Shared(Taken(t, h, o))
  {
    hide Linked;
    var i, u := t.freelist, Taken(t, h, o);
    FirstFree(t);
    LinkedTail(t.nodes, t.freelist, t.free);
    forall j ensures j in u.free <==> 0 <= j < |u.nodes| && u.place[j] == -1 {
      assert j in t.free <==> j == i || j in u.free;
    }
    forall g, j | 0 <= g < |u.chains| ensures j in u.chains[g] <==> 0 <= j < |u.nodes| && u.place[j] == g {
      assert j in t.chains[g] <==> 0 <= j < |t.nodes| && t.place[j] == g;
      if g == h { assert j in u.chains[h] <==> j == i || j in t.chains[h]; }
    }
  }

  /** The k-th node of bucket h goes back to the free list. */
  function Freed(t: Refs, h: nat, k: nat): Refs
    requires Shaped(t) && h < |t.buckets| && k < |t.chains[h]| && 0 <= t.chains[h][k] < |t.nodes|
    requires k > 0 ==> 0 <= t.chains[h][k - 1] < |t.nodes|
    requires t.nodes[t.chains[h][k]].obj.Some?
  {
    var i, next := t.chains[h][k], t.nodes[t.chains[h][k]].next;
    var nodes := if k > 0 then t.nodes[t.chains[h][k - 1] := t.nodes[t.chains[h][k - 1]].(next := next)] else t.nodes;
    t.(nodes := nodes[i := Node(None, 0, t.freelist)], buckets := if k > 0 then t.buckets else t.buckets[h := next],
       freelist := i,
       chains := t.chains[h := Without(t.chains[h], k)], free := [i] + t.free, place := t.place[i := -1],
       at := t.at - {t.nodes[i].obj.value})
  }

  lemma FreedRight(t: Refs, h: nat, k: nat)
    requires Right(t) && h < |t.buckets| && k < |t.chains[h]| && 0 <= t.chains[h][k] < |t.nodes|
             && (k > 0 ==> 0 <= t.chains[h][k - 1] < |t.nodes|)
    requires t.nodes[t.chains[h][k]].obj.Some?
    ensures Right(Freed(t, h, k))
  {
    hide Linked;
    var i, u, c := t.chains[h][k], Freed(t, h, k), t.chains[h];
    assert i in c && t.place[i] == h;
    assert k > 0 ==> c[k - 1] in c;
    FreedChain(t, h, k);
    FreedOthers(t, h, k);
    LinkedCons(u.nodes, t.freelist, t.free, i);
    assert Shaped(u);
    FreedShared(t, h, k);
  }

  lemma FreedChain(t: Refs, h: nat, k: nat)
    requires Right(t) && h < |t.buckets| && k < |t.chains[h]| && 0 <= t.chains[h][k] < |t.nodes|
             && (k > 0 ==> 0 <= t.chains[h][k - 1] < |t.nodes|)
    requires t.nodes[t.chains[h][k]].obj.Some?
    ensures var u := Freed(t, h, k); Linked(u.nodes, u.buckets[h], u.chains[h])
  {
    hide Linked, Shared;
    var u, c := Freed(t, h, k), t.chains[h];
    InRange(t.nodes, t.buckets[h], c);
    if k > 0 {
      LinkedCut(t.nodes, u.nodes, t.buckets[h], c, k);
    } else {
      LinkedTail(t.nodes, t.buckets[h], c);
      assert Without(c, 0) == c[1..];
      LinkedElse(t.nodes, u.nodes, t.nodes[c[0]].next, c[1..]);
    }
  }

  lemma FreedOthers(t: Refs, h: nat, k: nat)
    requires Right(t) && h < |t.buckets| && k < |t.chains[h]| && 0 <= t.chains[h][k] < |t.nodes|
             && (k > 0 ==> 0 <= t.chains[h][k - 1] < |t.nodes|)
    requires t.nodes[t.chains[h][k]].obj.Some?
    ensures var u := Freed(t, h, k); forall g :: 0 <= g < |t.chains| && g != h ==>
            Linked(u.nodes, t.buckets[g], t.chains[g])
    ensures Linked(Freed(t, h, k).nodes, t.freelist, t.free)
  {
    hide Linked;
    var u, c := Freed(t, h, k), t.chains[h];
    assert c[k] in c && (k > 0 ==> c[k - 1] in c);
    forall g | 0 <= g < |t.chains| && g != h ensures Linked(u.nodes, t.buckets[g], t.chains[g]) {
      InRange(t.nodes, t.buckets[g], t.chains[g]);
      forall j | 0 <= j < |t.chains[g]| ensures u.nodes[t.chains[g][j]] == t.nodes[t.chains[g][j]] {
        assert t.chains[g][j] in t.chains[g];
      }
      LinkedElse(t.nodes, u.nodes, t.buckets[g], t.chains[g]);
    }
    InRange(t.nodes, t.freelist, t.free);
    forall j | 0 <= j < |t.free| ensures u.nodes[t.free[j]] == t.nodes[t.free[j]] { assert t.free[j] in t.free; }
    LinkedElse(t.nodes, u.nodes, t.freelist, t.free);
  }

  lemma FreedShared(t: Refs, h: nat, k: nat)
    requires Right(t) && h < |t.buckets| && k < |t.chains[h]| && 0 <= t.chains[h][k] < |t.nodes|
             && (k > 0 ==> 0 <= t.chains[h][k - 1] < |t.nodes|)
    requires t.nodes[t.chains[h][k]].obj.Some?
    ensures Shared(Freed(t, h, k))
  {
    var i, u, c := t.chains[h][k], Freed(t, h, k), t.chains[h];
    assert Linked(t.nodes, t.buckets[h], c);
    WithoutHas(c, k);
    assert i in c;
    forall j ensures j in u.free <==> 0 <= j < |u.nodes| && u.place[j] == -1 {
      assert j in u.free <==> j == i || j in t.free;
    }
    forall g, j | 0 <= g < |u.chains| ensures j in u.chains[g] <==> 0 <= j < |u.nodes| && u.place[j] == g {
      assert j in t.chains[g] <==> 0 <= j < |t.nodes| && t.place[j] == g;
    }
  }

  // ---------- Objects and counts ----------

  /** Every object has one node, in the bucket of its hash; free nodes hold nothing. */
  ghost predicate Filed(t: Refs, hash: Obj -> nat)
    requires |t.nodes| == |t.place| && |t.nodes| > 0
  {
    && (forall i :: 0 <= i < |t.nodes| && t.place[i] == -1 ==> t.nodes[i].obj == None && t.nodes[i].refs == 0)
    && (forall i :: 0 <= i < |t.nodes| && t.place[i] != -1 ==>
          var o := t.nodes[i].obj;
          o.Some? && o.value in t.at && t.at[o.value] == i && t.place[i] == Main(hash, o.value, |t.nodes|))
    && (forall o :: o in t.at ==> 0 <= t.at[o] < |t.nodes| && t.place[t.at[o]] != -1 && t.nodes[t.at[o]].obj == Some(o))
    && |t.at| + |t.free| == |t.nodes|
  }

  ghost predicate Good(t: Refs, hash: Obj -> nat) { |t.nodes| > 0 && Right(t) && Filed(t, hash) }

  /** What the table says about each object. */
  ghost function Counts(t: Refs): map<Obj, nat>
    requires forall o :: o in t.at ==> 0 <= t.at[o] < |t.nodes|
  {
    map o | o in t.at :: t.nodes[t.at[o]].refs
  }

  lemma TakenGood(t: Refs, hash: Obj -> nat, o: Obj)
    requires Good(t, hash) && o !in t.at && t.free != []
    ensures var u := Taken(t, Main(hash, o, |t.nodes|), o); Good(u, hash) && Counts(u) == Counts(t)[o := 0]
  {
    hide Linked, Filed;
    TakenRight(t, Main(hash, o, |t.nodes|), o);
    FirstFree(t);
    FreeHoldsNone(t, hash, t.freelist);
    FileNew(t, Taken(t, Main(hash, o, |t.nodes|), o), hash, t.freelist, o);
    CountNew(t, Taken(t, Main(hash, o, |t.nodes|), o), hash, t.freelist, o);
  }

  lemma FileNew(t: Refs, u: Refs, hash: Obj -> nat, i: nat, o: Obj)
    requires |t.nodes| == |t.place| == |u.nodes| > 0 && i < |t.nodes| && Filed(t, hash) && o !in t.at
             && t.place[i] == -1
    requires u.nodes[i].obj == Some(o) && u.nodes[i].refs == t.nodes[i].refs
             && u.place == t.place[i := Main(hash, o, |t.nodes|)]
    requires t.free != [] && u.free == t.free[1..] && u.at == t.at[o := i]
    requires forall j :: 0 <= j < |t.nodes| && j != i ==> u.nodes[j] == t.nodes[j]
    ensures Filed(u, hash)
  {
    hide Main;
    assert |u.at| == |t.at| + 1 by { assert u.at.Keys == t.at.Keys + {o}; }
    assert forall p :: p in t.at ==> t.at[p] != i;
  }

  lemma CountNew(t: Refs, u: Refs, hash: Obj -> nat, i: nat, o: Obj)
    requires |t.nodes| == |t.place| == |u.nodes| > 0 && i < |t.nodes| && Filed(t, hash) && o !in t.at
             && t.place[i] == -1
    requires u.nodes[i].refs == 0 && u.at == t.at[o := i] && forall j :: 0 <= j < |t.nodes| && j != i ==>
             u.nodes[j] == t.nodes[j]
    ensures (forall p :: p in u.at ==> 0 <= u.at[p] < |u.nodes|) && Counts(u) == Counts(t)[o := 0]
  {
    hide Main;
    assert forall p :: p in t.at ==> t.at[p] != i;
  }

  lemma FreeHoldsNone(t: Refs, hash: Obj -> nat, i: nat)
    requires |t.nodes| == |t.place| > 0 && Filed(t, hash) && i < |t.nodes| && t.place[i] == -1
    ensures t.nodes[i].refs == 0
  {}

  lemma FreedGood(t: Refs, hash: Obj -> nat, h: nat, k: nat, o: Obj)
    requires Good(t, hash) && h < |t.buckets| && k < |t.chains[h]| && 0 <= t.chains[h][k] < |t.nodes|
             && (k > 0 ==> 0 <= t.chains[h][k - 1] < |t.nodes|)
    requires t.nodes[t.chains[h][k]].obj == Some(o)
    ensures var u := Freed(t, h, k); Good(u, hash) && Counts(u) == Counts(t) - {o}
  {
    hide Linked, Filed;
    FreedRight(t, h, k);
    assert t.chains[h][k] in t.chains[h];
    FreedFiled(t, hash, h, k, o);
    FreedCounts(t, hash, h, k, o);
  }

  /** What the nodes hold after one was freed. */
  lemma FreedNodes(t: Refs, h: nat, k: nat)
    requires Right(t) && h < |t.buckets| && k < |t.chains[h]| && 0 <= t.chains[h][k] < |t.nodes|
             && (k > 0 ==> 0 <= t.chains[h][k - 1] < |t.nodes|)
    requires t.nodes[t.chains[h][k]].obj.Some?
    ensures var i, u := t.chains[h][k], Freed(t, h, k);
      && u.nodes[i].obj == None && u.nodes[i].refs == 0 && |u.nodes| == |t.nodes|
      && u.place == t.place[i := -1] && u.free == [i] + t.free && u.at == t.at - {t.nodes[i].obj.value}
    ensures var i, u := t.chains[h][k], Freed(t, h, k);
      forall j :: 0 <= j < |t.nodes| && j != i ==>
          u.nodes[j].obj == t.nodes[j].obj && u.nodes[j].refs == t.nodes[j].refs
  {}

  lemma FreedFiled(t: Refs, hash: Obj -> nat, h: nat, k: nat, o: Obj)
    requires Right(t) && |t.nodes| > 0 && Filed(t, hash)
    requires h < |t.buckets| && k < |t.chains[h]| && 0 <= t.chains[h][k] < |t.nodes|
             && (k > 0 ==> 0 <= t.chains[h][k - 1] < |t.nodes|)
    requires t.nodes[t.chains[h][k]].obj == Some(o) && t.place[t.chains[h][k]] == h
    ensures var u := Freed(t, h, k); |u.nodes| == |u.place| > 0 && Filed(u, hash)
  {
    hide Linked, Shared, Freed, Filed;
    FreedNodes(t, h, k);
    Unfile(t, Freed(t, h, k), hash, t.chains[h][k], o);
  }

  lemma Unfile(t: Refs, u: Refs, hash: Obj -> nat, i: nat, o: Obj)
    requires |t.nodes| == |t.place| == |u.nodes| > 0 && i < |t.nodes| && Filed(t, hash) && t.nodes[i].obj == Some(o)
             && t.place[i] != -1
    requires u.nodes[i].obj == None && u.nodes[i].refs == 0 && u.place == t.place[i := -1] && u.free == [i] + t.free
             && u.at == t.at - {o}
    requires forall j :: 0 <= j < |t.nodes| && j != i ==>
             u.nodes[j].obj == t.nodes[j].obj && u.nodes[j].refs == t.nodes[j].refs
    ensures Filed(u, hash)
  {
    assert |t.at| == |u.at| + 1 by { assert t.at.Keys == u.at.Keys + {o}; }
  }

  lemma FreedCounts(t: Refs, hash: Obj -> nat, h: nat, k: nat, o: Obj)
    requires Right(t) && |t.nodes| > 0 && Filed(t, hash)
    requires h < |t.buckets| && k < |t.chains[h]| && 0 <= t.chains[h][k] < |t.nodes|
             && (k > 0 ==> 0 <= t.chains[h][k - 1] < |t.nodes|)
    requires t.nodes[t.chains[h][k]].obj == Some(o) && t.place[t.chains[h][k]] == h
    ensures var u := Freed(t, h, k);
            (forall p :: p in u.at ==> 0 <= u.at[p] < |u.nodes|) && Counts(u) == Counts(t) - {o}
  {
    hide Linked, Shared, Freed;
    FreedNodes(t, h, k);
    var u := Freed(t, h, k);
    assert forall p :: p in u.at ==> p in t.at && u.at[p] == t.at[p] && u.at[p] != t.chains[h][k];
  }

  function WithRefs(t: Refs, i: nat, n: nat): Refs
    requires i < |t.nodes|
  {
    t.(nodes := t.nodes[i := t.nodes[i].(refs := n)])
  }

  lemma WithRefsGood(t: Refs, hash: Obj -> nat, o: Obj, n: nat)
    requires Good(t, hash) && o in t.at
    ensures var u := WithRefs(t, t.at[o], n); Good(u, hash) && Counts(u) == Counts(t)[o := n]
  {
    hide Linked;
    var u := WithRefs(t, t.at[o], n);
    forall h | 0 <= h < |t.chains| ensures Linked(u.nodes, t.buckets[h], t.chains[h]) {
      InRange(t.nodes, t.buckets[h], t.chains[h]);
      LinkedElse(t.nodes, u.nodes, t.buckets[h], t.chains[h]);
    }
    InRange(t.nodes, t.freelist, t.free);
    LinkedElse(t.nodes, u.nodes, t.freelist, t.free);
  }

  lemma InRange(nodes: seq<Node>, head: int, s: seq<int>)
    requires Linked(nodes, head, s)
    ensures forall k :: 0 <= k < |s| ==> 0 <= s[k] < |nodes|
    ensures forall j, k :: 0 <= j < k < |s| ==> s[j] != s[k]
  {}

  lemma FirstFree(t: Refs)
    requires Right(t) && t.free != []
    ensures 0 <= t.freelist < |t.nodes| && t.freelist in t.free && t.place[t.freelist] == -1
  {
    assert t.free[0] in t.free;
  }

  /** A table of n unused nodes. */
  function Empty(n: nat): Refs
    requires n > 0
  {
    Refs(seq(n, i => Node(None, 0, if i + 1 < n then i + 1 else -1)), seq(n, _ => -1), 0,
         seq(n, _ => []), seq(n, i => i), seq(n, _ => -1), map[])
  }

  lemma EmptyGood(n: nat, hash: Obj -> nat)
    requires n > 0
    ensures Good(Empty(n), hash) && Counts(Empty(n)) == map[]
  {
    var t := Empty(n);
    assert Linked(t.nodes, 0, t.free);
    forall i ensures i in t.free <==> 0 <= i < n {
      if 0 <= i < n { assert t.free[i] == i; }
    }
  }

  class RefTable {
    var nodes: seq<Node>
    var buckets: seq<int>
    var freelist: int
    var slotused: nat
    const hash: Obj -> nat

    ghost var t: Refs

    ghost predicate Valid()
      reads this
    {
      && Good(t, hash) && t.nodes == nodes && t.buckets == buckets && t.freelist == freelist && slotused == |t.at|
      && PowerOfTwo(|nodes|)
    }

    lemma Facts()
      requires Valid()
      ensures |nodes| == |buckets| == |t.chains| > 0 && |t.at| + |t.free| == |nodes| && slotused == |t.at|
              && Counted().Keys == t.at.Keys
      ensures forall o :: o in t.at ==>
              0 <= t.at[o] < |nodes| && nodes[t.at[o]].obj == Some(o) && Counted()[o] == nodes[t.at[o]].refs
      ensures forall i :: 0 <= i < |nodes| && nodes[i].obj.Some? ==>
              nodes[i].obj.value in t.at && t.at[nodes[i].obj.value] == i
    {}

    lemma Filing()
      requires Valid()
      ensures |Counted()| == slotused && Listing(nodes, t.at, Counted())
    {
      Facts();
      assert |t.at| == |t.at.Keys| == |Counted().Keys| == |Counted()|;
    }

    ghost function Counted(): map<Obj, nat>
      reads this
      requires Valid()
    {
      Counts(t)
    }

    constructor (hash: Obj -> nat)
      ensures Valid() && Counted() == map[] && this.hash == hash
    {
      this.hash := hash;
      t := Empty(4);
      nodes, buckets, freelist, slotused := [], [], -1, 0;
      new;
      EmptyGood(4, hash);
      Powers(1);
      Powers(2);
      AllocNodes(4);
    }

    method AllocNodes(size: nat)
      requires PowerOfTwo(size)
      modifies this`nodes, this`buckets, this`freelist, this`slotused, this`t
      ensures Valid() && t == Empty(size) && Counted() == map[] && |nodes| == size
    {
      hide PowerOfTwo, Good, Counts, Up, Down, Main;
      Powers(size);
      EmptyGood(size, hash);
      var temp, bucks, n := [], [], 0;
      while n < size
        invariant 0 <= n <= size && |temp| == |bucks| == n
        invariant forall i :: 0 <= i < n ==>
                  temp[i] == Node(None, 0, if i + 1 < size then i + 1 else -1) && bucks[i] == -1
      {
        temp, bucks := temp + [Node(None, 0, if n < size - 1 then n + 1 else -1)], bucks + [-1];
        n := n + 1;
      }
      assert temp == Empty(size).nodes && bucks == Empty(size).buckets;
      nodes, buckets, freelist, slotused := temp, bucks, 0, 0;
      t := Empty(size);
    }

    /** Take a free node for an object that has none. */
    method Add(h: nat, o: Obj) returns (i: nat)
      requires Valid() && o !in t.at && h == Main(hash, o, |nodes|) && slotused < |nodes|
      modifies this`nodes, this`buckets, this`freelist, this`slotused, this`t
      ensures Valid() && |nodes| == |old(nodes)| && t.at == old(t.at)[o := i] && i < |nodes|
      ensures Counted() == old(Counted())[o := 0]
    {
      hide PowerOfTwo, Good, Counts, Linked, Main;
      Facts();
      TakenGood(t, hash, o);
      FreeNode(t, hash);
      i := freelist;
      t := Taken(t, h, o);
      nodes, buckets, freelist := nodes[i := nodes[i].(obj := Some(o), next := buckets[h])], buckets[h := i],
          nodes[i].next;
      slotused := slotused + 1;
    }

    /** Walk the chain of the object's bucket. */
    method Find(o: Obj) returns (ref: int, prev: int, mainpos: nat, ghost k: nat)
      requires Valid()
      ensures mainpos == Main(hash, o, |nodes|) && (ref == -1 <==> o !in t.at) && (ref != -1 ==> ref == t.at[o])
      ensures ref != -1 ==> 0 <= ref < |nodes| && k < |t.chains[mainpos]| && t.chains[mainpos][k] == ref
      ensures ref != -1 ==> prev == if k == 0 then -1 else t.chains[mainpos][k - 1]
    {
      mainpos := Main(hash, o, |nodes|);
      ref, prev, k := buckets[mainpos], -1, 0;
      ghost var c := t.chains[mainpos];
      while ref != -1
        invariant 0 <= k <= |c| && ref == (if k < |c| then c[k] else -1) && prev == (if k == 0 then -1 else c[k - 1])
        invariant ref != -1 ==> 0 <= ref < |nodes|
        invariant forall j :: 0 <= j < k ==> nodes[c[j]].obj != Some(o)
        decreases |c| - k
      {
        InChain(t, hash, mainpos, k);
        if nodes[ref].obj == Some(o) { return; }
        NextOf(t.nodes, t.buckets[mainpos], c, k);
        prev, ref, k := ref, nodes[ref].next, k + 1;
      }
      forall p | p in t.at && Main(hash, p, |nodes|) == mainpos ensures t.at[p] in c {
        assert t.place[t.at[p]] == mainpos;
      }
    }

    method AddBack(o: Obj, refs: nat)
      requires Valid() && o !in Counted() && |Counted()| < |nodes|
      modifies this`nodes, this`buckets, this`freelist, this`slotused, this`t
      ensures Valid() && |nodes| == |old(nodes)| && Counted() == old(Counted())[o := refs]
              && |Counted()| == |old(Counted())| + 1
    {
      hide PowerOfTwo, Good, Counts, Up, Down, Main;
      OneMore(Counted(), o, refs);
      Facts();
      assert |t.at| == |t.at.Keys| == |Counted().Keys| == |Counted()|;
      var i := Add(Main(hash, o, |nodes|), o);
      SetRefs(i, refs, o);
    }

    /** Move every object to a table of another size; nfound is how many there were. */
    method Resize(size: nat) returns (nfound: nat)
      requires Valid() && PowerOfTwo(size) && slotused <= size
      modifies this`nodes, this`buckets, this`freelist, this`slotused, this`t
      ensures Valid() && |nodes| == size && Counted() == old(Counted()) && nfound == old(slotused)
    {
      hide PowerOfTwo, Good, Counts, Up, Down, Main, Valid, Positive, Listing, Copied;
      var was := nodes;
      ghost var at, counts := t.at, Counted();
      Filing();
      AllocNodes(size);
      nfound := 0;
      CopyStart(was, at, counts);
      var n := 0;
      while n < |was|
        invariant 0 <= n <= |was| && Valid() && |nodes| == size && nfound == |Counted()|
                  && Copied(Counted(), at, counts, n)
      {
        CopyStep(was, at, counts, Counted(), n);
        if was[n].obj.Some? {
          assert Positive(counts) ==> was[n].refs != 0; // the source asserts this
          AddBack(was[n].obj.value, was[n].refs);
          nfound := nfound + 1;
        }
        n := n + 1;
      }
      CopyEnd(was, at, counts, Counted());
    }

    method SetRefs(i: nat, n: nat, ghost o: Obj)
      requires Valid() && o in t.at && i == t.at[o]
      modifies this`nodes, this`t
      ensures Valid() && Counted() == old(Counted())[o := n] && t.at == old(t.at) && t.chains == old(t.chains)
              && |nodes| == |old(nodes)|
    {
      hide PowerOfTwo, Good, Counts, Up, Down, Main;
      Facts();
      WithRefsGood(t, hash, o, n);
      nodes := nodes[i := nodes[i].(refs := n)];
      t := WithRefs(t, i, n);
    }

    /** The node of an object; if it has none it gets one, with no references. */
    method GetOrAdd(o: Obj) returns (ref: nat)
      requires Valid()
      modifies this`nodes, this`buckets, this`freelist, this`slotused, this`t
      ensures Valid() && o in t.at && ref == t.at[o] && o in Counted() && ref < |nodes|
              && nodes[ref].refs == Counted()[o]
      ensures Counted() == if o in old(Counted()) then old(Counted()) else old(Counted())[o := 0]
    {
      hide PowerOfTwo, Good, Counts, Up, Down, Main;
      Facts();
      var r, _, mainpos, _ := Find(o);
      if r == -1 {
        if |nodes| == slotused {
          ghost var slots := |nodes|;
          Powers(|nodes|);
          var nfound := Resize(|nodes| * 2);
          assert nfound == slots; // and this: as many found as were filed
          Facts();
          mainpos := Main(hash, o, |nodes|);
        }
        r := Add(mainpos, o);
        Facts();
      }
      ref := r;
    }

    method AddRef(o: Obj)
      requires Valid()
      modifies this`nodes, this`buckets, this`freelist, this`slotused, this`t
      ensures Valid() && Counted() == Step(old(Counted()), Op.AddRef(o)).0
    {
      hide PowerOfTwo, Good, Counts, Up, Down, Main;
      var ref := GetOrAdd(o);
      SetRefs(ref, Up(nodes[ref].refs), o);
    }

    method GetRefCount(o: Obj) returns (n: nat)
      requires Valid()
      modifies this`nodes, this`buckets, this`freelist, this`slotused, this`t
      ensures Valid() && (Counted(), Count(n)) == Step(old(Counted()), Op.GetRefCount(o))
    {
      hide PowerOfTwo, Good, Counts, Up, Down, Main;
      var ref := GetOrAdd(o);
      n := nodes[ref].refs;
    }

    method Release(o: Obj) returns (gone: bool)
      requires Valid()
      modifies this`nodes, this`buckets, this`freelist, this`slotused, this`t
      ensures Valid() && (Counted(), Gone(gone)) == Step(old(Counted()), Op.Release(o))
    {
      hide PowerOfTwo, Good, Counts, Up, Down, Main;
      Facts();
      var ref, prev, mainpos, k := Find(o);
      if ref == -1 { return false; }
      var refs := Down(nodes[ref].refs);
      SetRefs(ref, refs, o);
      Facts();
      if refs == 0 {
        Unlink(ref, prev, mainpos, k, o);
        assert Counted() == old(Counted()) - {o};
        return true;
      }
      return false;
    }

    method Unlink(ref: nat, prev: int, mainpos: nat, ghost k: nat, ghost o: Obj)
      requires Valid() && mainpos < |buckets| && k < |t.chains[mainpos]| && t.chains[mainpos][k] == ref < |nodes|
      requires prev == (if k == 0 then -1 else t.chains[mainpos][k - 1]) && nodes[ref].obj == Some(o)
      modifies this`nodes, this`buckets, this`freelist, this`slotused, this`t
      ensures Valid() && Counted() == old(Counted()) - {o}
    {
      hide PowerOfTwo, Good, Counts, Linked, Main;
      Facts();
      ChainRange(t, hash, mainpos, k);
      if k > 0 { ChainRange(t, hash, mainpos, k - 1); }
      FreedGood(t, hash, mainpos, k, o);
      var next := nodes[ref].next;
      t := Freed(t, mainpos, k);
      if prev != -1 {
        nodes := nodes[prev := nodes[prev].(next := next)];
      } else {
        buckets := buckets[mainpos := next];
      }
      nodes := nodes[ref := Node(None, 0, freelist)];
      freelist := ref;
      slotused := slotused - 1;
    }
  }

  lemma FreeNode(t: Refs, hash: Obj -> nat)
    requires Good(t, hash) && t.free != []
    ensures 0 <= t.freelist < |t.nodes| && Shaped(t)
  {
    FirstFree(t);
  }

  lemma ChainRange(t: Refs, hash: Obj -> nat, h: nat, k: nat)
    requires Good(t, hash) && h < |t.chains| && k < |t.chains[h]|
    ensures 0 <= t.chains[h][k] < |t.nodes| && Shaped(t)
  {
    assert Linked(t.nodes, t.buckets[h], t.chains[h]);
  }

  lemma InChain(t: Refs, hash: Obj -> nat, h: nat, k: nat)
    requires Good(t, hash) && h < |t.chains| && k < |t.chains[h]|
    ensures var i := t.chains[h][k];
            0 <= i < |t.nodes| && t.place[i] == h && t.nodes[i].obj.Some? && t.nodes[i].obj.value in t.at
                && t.at[t.nodes[i].obj.value] == i
  {
    assert t.chains[h][k] in t.chains[h];
  }

  lemma OneMore(c: map<Obj, nat>, o: Obj, n: nat)
    requires o !in c
    ensures |c[o := n]| == |c| + 1
  {
    assert c[o := n].Keys == c.Keys + {o};
  }

  /** These nodes hold these objects with these counts. */
  ghost predicate Listing(nodes: seq<Node>, at: map<Obj, int>, counts: map<Obj, nat>) {
    && at.Keys == counts.Keys
    && (forall o :: o in at ==> 0 <= at[o] < |nodes| && nodes[at[o]].obj == Some(o))
    && (forall i :: 0 <= i < |nodes| && nodes[i].obj.Some? ==>
          var o := nodes[i].obj.value; o in at && at[o] == i && counts[o] == nodes[i].refs)
  }

  /** The objects of the first n nodes have been copied. */
  ghost predicate Copied(now: map<Obj, nat>, at: map<Obj, int>, counts: map<Obj, nat>, n: nat) {
    && at.Keys == counts.Keys
    && (forall o {:trigger o in now} :: o in now ==> o in at && at[o] < n && now[o] == counts[o])
    && (forall o {:trigger o in at} :: o in at && at[o] < n ==> o in now)
  }

  lemma CopyStart(nodes: seq<Node>, at: map<Obj, int>, counts: map<Obj, nat>)
    requires Listing(nodes, at, counts)
    ensures Copied(map[], at, counts, 0)
  {}

  lemma CopyStep(nodes: seq<Node>, at: map<Obj, int>, counts: map<Obj, nat>, now: map<Obj, nat>, n: nat)
    requires Listing(nodes, at, counts) && Copied(now, at, counts, n) && n < |nodes|
    ensures nodes[n].obj.None? ==> Copied(now, at, counts, n + 1)
    ensures nodes[n].obj.Some? ==> var o := nodes[n].obj.value;
      && o !in now && |now| < |counts| && Copied(now[o := nodes[n].refs], at, counts, n + 1)
      && (Positive(counts) ==> nodes[n].refs != 0)
  {
    if nodes[n].obj.Some? {
      CopySome(nodes, at, counts, now, n, nodes[n].obj.value);
    } else {
      CopyNone(nodes, at, counts, now, n);
    }
  }

  lemma CopyNone(nodes: seq<Node>, at: map<Obj, int>, counts: map<Obj, nat>, now: map<Obj, nat>, n: nat)
    requires Listing(nodes, at, counts) && Copied(now, at, counts, n) && n < |nodes| && nodes[n].obj.None?
    ensures Copied(now, at, counts, n + 1)
  {}

  lemma CopySome(nodes: seq<Node>, at: map<Obj, int>, counts: map<Obj, nat>, now: map<Obj, nat>, n: nat, o: Obj)
    requires Listing(nodes, at, counts) && Copied(now, at, counts, n) && n < |nodes| && nodes[n].obj == Some(o)
    ensures o in counts && counts[o] == nodes[n].refs && o !in now && |now| < |counts|
    ensures Copied(now[o := nodes[n].refs], at, counts, n + 1)
  {
    assert o in at && at[o] == n && o in counts.Keys;
    Fewer(now, counts, o);
    forall p | p in at && at[p] < n + 1 ensures p in now[o := nodes[n].refs] {
      if at[p] == n { assert nodes[at[p]].obj == Some(p); }
    }
  }

  lemma Fewer(s: map<Obj, nat>, u: map<Obj, nat>, o: Obj)
    requires (forall p :: p in s ==> p in u) && o in u && o !in s
    ensures |s| < |u|
  {
    assert u.Keys == s.Keys + (u.Keys - s.Keys);
    assert o in u.Keys - s.Keys;
  }

  lemma CopyEnd(nodes: seq<Node>, at: map<Obj, int>, counts: map<Obj, nat>, now: map<Obj, nat>)
    requires Listing(nodes, at, counts) && Copied(now, at, counts, |nodes|)
    ensures now == counts
  {
    assert now.Keys == counts.Keys;
  }

  // ---------- Runs ----------

  datatype Op = AddRef(o: Obj) | Release(o: Obj) | GetRefCount(o: Obj)

  datatype Out = Nothing | Gone(b: bool) | Count(n: nat)

  /** What an operation does to the counts. */
  function Step(c: map<Obj, nat>, op: Op): (map<Obj, nat>, Out) {
    match op
    case AddRef(o) => (c[o := Up(if o in c then c[o] else 0)], Nothing)
    case GetRefCount(o) => (if o in c then c else c[o := 0], Count(if o in c then c[o] else 0))
    case Release(o) =>
      if o !in c then (c, Gone(false)) else
      var n := Down(c[o]);
      if n == 0 then (c - {o}, Gone(true)) else (c[o := n], Gone(false))
  }

  function Run(c: map<Obj, nat>, ops: seq<Op>): (map<Obj, nat>, seq<Out>)
    decreases |ops|
  {
    if ops == [] then (c, []) else
    var s := Step(c, ops[0]);
    var rest := Run(s.0, ops[1..]);
    (rest.0, [s.1] + rest.1)
  }

  /** Every run of the table answers as a plain map of counters does, across all resizes. */
  method RunAll(hash: Obj -> nat, ops: seq<Op>) returns (outs: seq<Out>)
    ensures outs == Run(map[], ops).1
  {
    hide Step, Run, Good, Counts;
    var t := new RefTable(hash);
    var i := 0;
    outs := [];
    assert ops[0..] == ops;
    while i < |ops|
      invariant 0 <= i <= |ops| && fresh(t) && t.Valid() && Run(map[], ops).1 == outs + Run(t.Counted(), ops[i..]).1
    {
      RunStep(t.Counted(), ops, i);
      var out := Do(t, ops[i]);
      outs := outs + [out];
      i := i + 1;
    }
    assert ops[i..] == [];
    RunEnd(t.Counted());
  }

  lemma RunEnd(c: map<Obj, nat>)
    ensures Run(c, []) == (c, [])
  {}

  lemma RunStep(c: map<Obj, nat>, ops: seq<Op>, i: nat)
    requires i < |ops|
    ensures var s := Step(c, ops[i]); Run(c, ops[i..]).1 == [s.1] + Run(s.0, ops[i + 1..]).1
  {
    assert ops[i..][0] == ops[i] && ops[i..][1..] == ops[i + 1..];
  }

  method Do(t: RefTable, op: Op) returns (out: Out)
    requires t.Valid()
    modifies t
    ensures t.Valid() && (t.Counted(), out) == Step(old(t.Counted()), op)
  {
    hide Good, Counts;
    match op {
      case AddRef(o) => t.AddRef(o); out := Nothing;
      case Release(o) => var gone := t.Release(o); out := Gone(gone);
      case GetRefCount(o) => var n := t.GetRefCount(o); out := Count(n);
    }
  }

  ghost predicate Positive(c: map<Obj, nat>) { forall o :: o in c ==> 0 < c[o] < WIDTH }

  function CountOf(c: map<Obj, nat>, o: Obj): nat { if o in c then c[o] else 0 }

  function Delta(op: Op, o: Obj): int {
    match op
    case AddRef(p) => if p == o then 1 else 0
    case Release(p) => if p == o then -1 else 0
    case GetRefCount(_) => 0
  }

  /** AddRefs less Releases. */
  function Net(ops: seq<Op>, o: Obj): int
    decreases |ops|
  {
    if ops == [] then 0 else Delta(ops[0], o) + Net(ops[1..], o)
  }

  /** The caller releases and asks only about objects it holds, and holds fewer than 2^32 references. */
  predicate FairStep(c: map<Obj, nat>, op: Op) {
    match op case AddRef(o) => CountOf(c, o) + 1 < WIDTH case Release(o) => o in c case GetRefCount(o) => o in c
  }

  predicate Fair(c: map<Obj, nat>, ops: seq<Op>)
    decreases |ops|
  {
    ops != [] ==> FairStep(c, ops[0]) && Fair(Step(c, ops[0]).0, ops[1..])
  }

  lemma StepBalance(c: map<Obj, nat>, op: Op, o: Obj)
    requires Positive(c) && FairStep(c, op)
    ensures Positive(Step(c, op).0) && CountOf(Step(c, op).0, o) == CountOf(c, o) + Delta(op, o)
  {}

  /** Under fair use every count is AddRefs less Releases, and an object is in the table exactly while
      that is not zero. */
  lemma {:induction false} CountsBalance(c: map<Obj, nat>, ops: seq<Op>, o: Obj)
    requires Positive(c) && Fair(c, ops)
    ensures Positive(Run(c, ops).0) && CountOf(Run(c, ops).0, o) == CountOf(c, o) + Net(ops, o)
    decreases |ops|
  {
    hide Step, Positive, FairStep;
    if ops != [] {
      StepBalance(c, ops[0], o);
      CountsBalance(Step(c, ops[0]).0, ops[1..], o);
    }
  }

  lemma {:induction false} FairPrefix(c: map<Obj, nat>, ops: seq<Op>, k: nat)
    requires Fair(c, ops) && k <= |ops|
    ensures Fair(c, ops[..k])
    decreases |ops|
  {
    hide Step, FairStep;
    if k > 0 {
      assert ops[..k][0] == ops[0] && ops[..k][1..] == ops[1..][..k - 1];
      FairPrefix(Step(c, ops[0]).0, ops[1..], k - 1);
    }
  }

  /** The k-th answer is given in the state that the first k operations lead to. */
  lemma {:induction false} AnswerAt(c: map<Obj, nat>, ops: seq<Op>, k: nat)
    requires Fair(c, ops) && k < |ops|
    ensures |Run(c, ops).1| == |ops| && FairStep(Run(c, ops[..k]).0, ops[k])
    ensures Run(c, ops).1[k] == Step(Run(c, ops[..k]).0, ops[k]).1
    decreases |ops|
  {
    hide Step, FairStep;
    RunLength(c, ops);
    if k > 0 {
      assert ops[..k][0] == ops[0] && ops[..k][1..] == ops[1..][..k - 1];
      AnswerAt(Step(c, ops[0]).0, ops[1..], k - 1);
    }
  }

  lemma {:induction false} RunLength(c: map<Obj, nat>, ops: seq<Op>)
    ensures |Run(c, ops).1| == |ops|
    decreases |ops|
  {
    if ops != [] { RunLength(Step(c, ops[0]).0, ops[1..]); }
  }

  lemma {:induction false} NetMore(ops: seq<Op>, k: nat, o: Obj)
    requires k < |ops|
    ensures Net(ops[..k + 1], o) == Net(ops[..k], o) + Delta(ops[k], o)
    decreases k
  {
    if k > 0 {
      assert ops[..k][0] == ops[..k + 1][0] == ops[0];
      assert ops[..k][1..] == ops[1..][..k - 1] && ops[..k + 1][1..] == ops[1..][..k];
      NetMore(ops[1..], k - 1, o);
    } else {
      assert ops[..1][1..] == [];
    }
  }

  /** Under fair use, asking answers AddRefs less Releases so far, and a Release says that the object is
      gone exactly if it was the last reference. */
  lemma {:induction false} AnswersBalance(ops: seq<Op>, k: nat)
    requires Fair(map[], ops) && k < |ops|
    ensures |Run(map[], ops).1| == |ops|
    ensures match ops[k]
      case AddRef(_) => Run(map[], ops).1[k] == Nothing
      case GetRefCount(o) => Net(ops[..k], o) > 0 && Run(map[], ops).1[k] == Count(Net(ops[..k], o))
      case Release(o) => Net(ops[..k], o) > 0 && Run(map[], ops).1[k] == Gone(Net(ops[..k + 1], o) == 0)
  {
    hide Run, Fair, Net;
    AnswerAt(map[], ops, k);
    FairPrefix(map[], ops, k);
    CountsBalance(map[], ops[..k], ops[k].o);
    NetMore(ops, k, ops[k].o);
  }

  /** Releasing an object that is not held changes nothing, and the answer is that it is not gone. */
  lemma ReleasingUnknown(ops: seq<Op>, c: map<Obj, nat>, o: Obj)
    requires o !in c
    ensures Run(c, [Release(o)] + ops) == (Run(c, ops).0, [Gone(false)] + Run(c, ops).1)
  {
    assert ([Release(o)] + ops)[1..] == ops;
  }

  /** Asking for the count of an object without references files it with count zero, so all counts stay
      positive exactly when the object had references. */
  lemma AskingFiles(c: map<Obj, nat>, o: Obj)
    requires Positive(c)
    ensures Positive(Step(c, GetRefCount(o)).0) <==> o in c
    ensures o !in c ==> CountOf(Step(Step(c, GetRefCount(o)).0, Release(o)).0, o) == WIDTH - 1
  {
    if o !in c { assert Step(c, GetRefCount(o)).0[o] == 0; }
  }
}
