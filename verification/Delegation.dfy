/** SQDelegable::SetDelegate and the lookup that climbs delegates. */
module Delegation {
  type Key(==)
  type Value

  import opened Wrappers

  /** A table, as far as delegation goes: its slots and its delegate. */
  class SQTable {
    var slots: map<Key, Value>
    var delegate: SQTable?

    constructor ()
      ensures slots == map[] && delegate == null
    {
      slots, delegate := map[], null;
    }
  }

  type Graph = map<SQTable, SQTable?>

  ghost function Delegates(all: set<SQTable>): Graph
    reads all
  {
    map t | t in all :: t.delegate
  }

  ghost predicate Closed(g: Graph) { forall t :: t in g && g[t] != null ==> g[t] in g }

  /** Where n hops along the delegates lead. */
  ghost function Climb(g: Graph, t: SQTable?, n: nat): SQTable?
    requires Closed(g) && (t != null ==> t in g)
    ensures var r := Climb(g, t, n); r != null ==> r in g
  {
    if n == 0 || t == null then t else Climb(g, g[t], n - 1)
  }

  /** No table leads back to itself, however far one climbs. */
  ghost predicate Acyclic(g: Graph)
    requires Closed(g)
  {
    forall t, n: nat :: t in g && n > 0 ==> Climb(g, t, n) != t
  }

  /** Climbing ends after finitely many hops. */
  ghost predicate Ends(g: Graph, t: SQTable?)
    requires Closed(g) && (t != null ==> t in g)
  {
    exists n: nat :: Climb(g, t, n) == null
  }

  ghost predicate Reaches(g: Graph, t: SQTable?, goal: SQTable)
    requires Closed(g) && (t != null ==> t in g)
  {
    exists n: nat :: Climb(g, t, n) == goal
  }

  lemma {:induction false} ClimbMore(g: Graph, t: SQTable?, m: nat, n: nat)
    requires Closed(g) && (t != null ==> t in g)
    ensures Climb(g, t, m + n) == Climb(g, Climb(g, t, m), n)
    decreases m
  {
    if m > 0 && t != null { ClimbMore(g, g[t], m - 1, n); }
    else if t == null { ClimbNull(g, n); ClimbNull(g, m); ClimbNull(g, m + n); }
  }

  lemma ClimbNull(g: Graph, n: nat)
    requires Closed(g)
    ensures Climb(g, null, n) == null
  {}

  ghost predicate AllEnd(g: Graph)
    requires Closed(g)
  {
    forall t :: t in g ==> Ends(g, t)
  }

  /** What ends goes nowhere twice. */
  lemma EndsAcyclic(g: Graph)
    requires Closed(g) && AllEnd(g)
    ensures Acyclic(g)
  {
    forall t, n: nat | t in g && n > 0 ensures Climb(g, t, n) != t {
      if Climb(g, t, n) == t {
        var k: nat :| Climb(g, t, k) == null;
        Around(g, t, n, k);
        assert k + k * (n - 1) == k * n;
        ClimbMore(g, t, k, k * (n - 1));
      }
    }
  }

  lemma {:induction false} Around(g: Graph, t: SQTable, n: nat, k: nat)
    requires Closed(g) && t in g && Climb(g, t, n) == t
    ensures Climb(g, t, k * n) == t
    decreases k
  {
    if k > 0 {
      Around(g, t, n, k - 1);
      ClimbMore(g, t, (k - 1) * n, n);
      assert (k - 1) * n + n == k * n;
    }
  }

  /** Climbing that does not meet the changed table is not changed. */
  lemma {:induction false} ClimbApart(g: Graph, self: SQTable, mt: SQTable?, t: SQTable?, n: nat)
    requires Closed(g) && self in g && (mt != null ==> mt in g) && (t != null ==> t in g) && !Reaches(g, t, self)
    ensures Climb(g[self := mt], t, n) == Climb(g, t, n)
    decreases n
  {
    assert Climb(g, t, 0) == t;
    if n > 0 && t != null {
      forall m: nat ensures Climb(g, g[t], m) != self { assert Climb(g, t, m + 1) == Climb(g, g[t], m); }
      ClimbApart(g, self, mt, g[t], n - 1);
    }
  }

  /** If the new delegate does not lead to the table, everything still ends. */
  lemma {:induction false} SetEnds(g: Graph, self: SQTable, mt: SQTable?, t: SQTable?, n: nat)
    requires Closed(g) && self in g && (mt != null ==> mt in g) && (t != null ==> t in g)
    requires !Reaches(g, mt, self) && Ends(g, mt) && Climb(g, t, n) == null
    ensures Ends(g[self := mt], t)
    decreases n
  {
    var h := g[self := mt];
    if t == null {
      assert Climb(h, t, 0) == null;
    } else if t == self {
      var k: nat :| Climb(g, mt, k) == null;
      ClimbApart(g, self, mt, mt, k);
      assert Climb(h, t, k + 1) == null;
    } else {
      SetEnds(g, self, mt, g[t], n - 1);
      var k: nat :| Climb(h, g[t], k) == null;
      assert Climb(h, t, k + 1) == null;
    }
  }

  /** If it does, the new graph has a cycle. */
  lemma {:induction false} SetReaches(g: Graph, self: SQTable, mt: SQTable?, t: SQTable?, n: nat)
    requires Closed(g) && self in g && (mt != null ==> mt in g) && (t != null ==> t in g) && Climb(g, t, n) == self
    ensures Reaches(g[self := mt], t, self)
    decreases n
  {
    var h := g[self := mt];
    if t == self {
      assert Climb(h, t, 0) == self;
    } else {
      SetReaches(g, self, mt, g[t], n - 1);
      var k: nat :| Climb(h, g[t], k) == self;
      assert Climb(h, t, k + 1) == self;
    }
  }

  /** Setting a delegate keeps every climb finite exactly when the delegate does not lead to the table. */
  lemma SetDelegateEnds(g: Graph, self: SQTable, mt: SQTable?)
    requires Closed(g) && AllEnd(g) && self in g && (mt != null ==> mt in g)
    ensures AllEnd(g[self := mt]) <==> !Reaches(g, mt, self)
  {
    var h := g[self := mt];
    if Reaches(g, mt, self) {
      var n: nat :| Climb(g, mt, n) == self;
      SetReaches(g, self, mt, mt, n);
      var k: nat :| Climb(h, mt, k) == self;
      assert Climb(h, self, k + 1) == self;
      if AllEnd(h) { EndsAcyclic(h); }
    } else {
      if mt == null { assert Climb(g, mt, 0) == null; }
      assert Ends(g, mt);
      forall t | t in h ensures Ends(h, t) {
        var n: nat :| Climb(g, t, n) == null;
        SetEnds(g, self, mt, t, n);
      }
    }
  }

  /** Accepts a delegate exactly when the delegate graph stays without cycles. */
  method SetDelegate(self: SQTable, mt: SQTable?, ghost all: set<SQTable>) returns (ok: bool)
    requires self in all && (mt != null ==> mt in all) && Closed(Delegates(all)) && AllEnd(Delegates(all))
    modifies self`delegate
    ensures ok <==> AllEnd(old(Delegates(all))[self := mt])
    ensures Delegates(all) == if ok then old(Delegates(all))[self := mt] else old(Delegates(all))
    ensures Closed(Delegates(all)) && AllEnd(Delegates(all)) && Acyclic(Delegates(all))
  {
    ghost var g := Delegates(all);
    SetDelegateEnds(g, self, mt);
    EndsAcyclic(g);
    var temp := mt;
    assert Climb(g, mt, 0) == mt;
    if temp == self { return false; }
    assert Ends(g, mt) by { if mt == null { assert Climb(g, mt, 0) == null; } }
    ghost var hops: nat :| Climb(g, mt, hops) == null;
    ghost var k := 0;
    while temp != null
      invariant Delegates(all) == g && k <= hops && temp == Climb(g, mt, k) && (temp != null ==> temp in all)
      invariant forall j: nat :: j <= k ==> Climb(g, mt, j) != self
      decreases hops - k
    {
      if k == hops { assert false; }
      ClimbMore(g, mt, k, 1);
      assert Climb(g, temp, 1) == Climb(g, g[temp], 0) == temp.delegate;
      assert Climb(g, mt, k + 1) == temp.delegate;
      if temp.delegate == self {
        assert Reaches(g, mt, self);
        return false;
      }
      temp := temp.delegate;
      k := k + 1;
    }
    forall j: nat ensures Climb(g, mt, j) != self {
      if j > k { ClimbMore(g, mt, k, j - k); ClimbNull(g, j - k); }
    }
    self.delegate := mt;
    assert Delegates(all) == g[self := mt];
    EndsAcyclic(g[self := mt]);
    return true;
  }

  /** What a setting means: the delegate is taken if the graph then still ends everywhere. */
  ghost function Settle(g: Graph, self: SQTable, mt: SQTable?): (Graph, bool)
    requires Closed(g) && self in g && (mt != null ==> mt in g)
  {
    if AllEnd(g[self := mt]) then (g[self := mt], true) else (g, false)
  }

  /** A setting: which table, and the table that is to be its delegate, if any. */
  datatype Setting = Setting(self: nat, delegate: Option<nat>)

  predicate InRange(tables: seq<SQTable>, op: Setting) {
    op.self < |tables| && (op.delegate.Some? ==> op.delegate.value < |tables|)
  }

  function Named(tables: seq<SQTable>, d: Option<nat>): SQTable?
    requires d.Some? ==> d.value < |tables|
  {
    if d.Some? then tables[d.value] else null
  }

  /** The reference: the settings one after the other. */
  ghost function SettleAll(tables: seq<SQTable>, g: Graph, ops: seq<Setting>): (res: (Graph, seq<bool>))
    requires Closed(g) && (forall t :: t in tables ==> t in g) && forall k :: 0 <= k < |ops| ==> InRange(tables, ops[k])
    ensures Closed(res.0) && res.0.Keys == g.Keys && |res.1| == |ops|
    decreases |ops|
  {
    if ops == [] then (g, []) else
    var n := |ops| - 1;
    var before := SettleAll(tables, g, ops[..n]);
    assert InRange(tables, ops[n]) && forall t :: t in tables ==> t in before.0.Keys;
    var last := Settle(before.0, tables[ops[n].self], Named(tables, ops[n].delegate));
    (last.0, before.1 + [last.1])
  }

  /** Starting without delegates, every sequence of settings gives the graph and the answers of the
      reference, and the graph never has a cycle. */
  method SetAll(tables: seq<SQTable>, ops: seq<Setting>) returns (oks: seq<bool>)
    requires forall t :: t in tables ==> t.delegate == null
    requires forall k :: 0 <= k < |ops| ==> InRange(tables, ops[k])
    modifies tables
    ensures var all := set t | t in tables;
      && Closed(old(Delegates(all))) && Closed(Delegates(all))
      && (Delegates(all), oks) == SettleAll(tables, old(Delegates(all)), ops) && Acyclic(Delegates(all))
  {
    ghost var all := set t | t in tables;
    ghost var g0 := Delegates(all);
    forall t | t in Delegates(all) ensures Ends(Delegates(all), t) { assert Climb(Delegates(all), t, 1) == null; }
    EndsAcyclic(Delegates(all));
    oks := [];
    for k := 0 to |ops|
      invariant var g := Delegates(all);
                Closed(g) && AllEnd(g) && Acyclic(g) && (g, oks) == SettleAll(tables, g0, ops[..k])
    {
      assert ops[..k + 1][..k] == ops[..k] && ops[..k + 1][k] == ops[k];
      var ok := SetDelegate(tables[ops[k].self], Named(tables, ops[k].delegate), all);
      oks := oks + [ok];
    }
    assert ops[..|ops|] == ops;
  }

  /** The first table on the way up that has the key. */
  ghost predicate Finds(g: Graph, slots: map<SQTable, map<Key, Value>>, t: SQTable, key: Key, n: nat)
    requires Closed(g) && t in g && slots.Keys == g.Keys
  {
    && (var u := Climb(g, t, n); u != null && key in slots[u])
    && (forall j: nat :: j < n ==> var w := Climb(g, t, j); w != null && key !in slots[w])
  }

  ghost function Slots(all: set<SQTable>): map<SQTable, map<Key, Value>>
    reads all
  {
    map t | t in all :: t.slots
  }

  /** Lookup ends, and answers from the first table on the way up that has the key, if any has. */
  method Get(t: SQTable, key: Key, ghost all: set<SQTable>, ghost hops: nat) returns (r: Option<Value>)
    requires t in all && Closed(Delegates(all)) && Climb(Delegates(all), t, hops) == null
    ensures var g, slots := Delegates(all), Slots(all);
      match r
      case Some(v) => exists n: nat ::
          Finds(g, slots, t, key, n) && Climb(g, t, n) in slots && slots[Climb(g, t, n)][key] == v
      case None => forall n: nat :: Climb(g, t, n) != null ==> key !in slots[Climb(g, t, n)]
    decreases hops
  {
    ghost var g, slots := Delegates(all), Slots(all);
    assert Climb(g, t, 0) == t;
    if key in t.slots {
      assert Finds(g, slots, t, key, 0);
      return Some(t.slots[key]);
    }
    var up := t.delegate;
    if up == null {
      forall n: nat | n > 0 ensures Climb(g, t, n) == null { ClimbNull(g, n - 1); }
      return None;
    }
    r := Get(up, key, all, hops - 1);
    if r.Some? {
      ghost var n: nat :| Finds(g, slots, up, key, n) && Climb(g, up, n) in slots
          && slots[Climb(g, up, n)][key] == r.value;
      assert forall j: nat :: j > 0 ==> Climb(g, t, j) == Climb(g, up, j - 1);
      assert Finds(g, slots, t, key, n + 1);
    } else {
      assert forall j: nat :: j > 0 ==> Climb(g, t, j) == Climb(g, up, j - 1);
    }
  }
}
