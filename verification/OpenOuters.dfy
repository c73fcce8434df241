/** Captured variables as the interpreter keeps them: pointers into a block of stack memory, on a list
    that goes down the stack, until they are closed and hold their value themselves. */
module OpenOuters {
  import opened CallFrames

  /** A pointer to a value: into a block of stack memory, or to the outer's own field. */
  datatype Ptr = Slot(block: array<Val>, at: int) | Own

  datatype Look = Seen(valptr: Ptr, idx: int, value: Val, next: Outer?)

  class Outer {
    var valptr: Ptr
    var idx: int
    var value: Val
    var next: Outer?

    constructor (p: Ptr)
      ensures valptr == p && value == Null && next == null
    {
      valptr, idx, value, next := p, 0, Null, null;
    }

    ghost function Look(): Look
      reads this
    {
      Seen(valptr, idx, value, next)
    }
  }

  function From(list: seq<Outer>, k: nat): Outer? { if k < |list| then list[k] else null }

  /** Box c is behind none of the first n slots. */
  ghost predicate Apart(b: Boxes, n: int, c: nat) { forall i :: 0 <= i < n && i < |b.slots| ==> b.slots[i] != c }

  /** An outer stands for box c: an open one points to the slot in front of that box; a closed one
      holds what is in the box, which is behind none of the first n slots. */
  ghost predicate Stands(b: Boxes, c: nat, x: Look, block: array<Val>, n: int) {
    && c < |b.cells|
    && match x.valptr
       case Slot(mem, at) => mem == block && at == x.idx && 0 <= at < |b.slots| && b.slots[at] == c
       case Own => x.value == b.cells[c] && Apart(b, n, c)
  }

  /** The outers, how they look, the box that each stands for, and the open ones in list order. */
  datatype Outers = Outers(look: map<Outer, Look>, cell: map<Outer, nat>, list: seq<Outer>)

  /** The open list holds exactly the open outers and goes strictly down the stack. */
  ghost predicate Ordered(s: Outers) {
    && s.look.Keys == s.cell.Keys
    && (forall k :: 0 <= k < |s.list| ==> s.list[k] in s.look && s.look[s.list[k]].valptr.Slot?)
    && (forall o :: o in s.look && s.look[o].valptr.Slot? ==> o in s.list)
    && (forall j, k :: 0 <= j < k < |s.list| ==> s.look[s.list[j]].idx > s.look[s.list[k]].idx)
  }

  /** Each outer in the list points to the one after it. */
  ghost predicate Chained(s: Outers) {
    && (forall k :: 0 <= k < |s.list| ==> s.list[k] in s.look)
    && (s.list != [] ==> s.look[s.list[|s.list| - 1]].next == null)
    && (forall j, k :: 0 <= j < |s.list| && k == j + 1 < |s.list| ==> s.look[s.list[j]].next == s.list[k])
  }

  ghost predicate Standing(s: Outers, b: Boxes, block: array<Val>, n: int)
    requires s.look.Keys == s.cell.Keys
  {
    && (forall o :: o in s.cell ==> Stands(b, s.cell[o], s.look[o], block, n))
    && (forall o, p :: o in s.cell && p in s.cell && o != p ==> s.cell[o] != s.cell[p])
  }

  ghost predicate Right(s: Outers, b: Boxes, block: array<Val>, n: int) {
    Separate(b) && Ordered(s) && Chained(s) && Standing(s, b, block, n)
  }

  lemma ListDistinct(s: Outers)
    requires Ordered(s)
    ensures forall j, k :: 0 <= j < k < |s.list| ==> s.list[j] != s.list[k]
  {}

  lemma InLook(s: Outers)
    requires Chained(s)
    ensures forall k :: 0 <= k < |s.list| ==> s.list[k] in s.look
  {}

  lemma RightInLook(s: Outers, b: Boxes, block: array<Val>)
    requires Right(s, b, block, |b.slots|)
    ensures (forall k :: 0 <= k < |s.list| ==> s.list[k] in s.look) && forall i :: 0 <= i < |b.slots| ==>
            b.slots[i] < |b.cells|
  {}

  lemma ListedAt(s: Outers, b: Boxes, block: array<Val>, k: nat)
    requires Right(s, b, block, |b.slots|) && k < |s.list|
    ensures var o := s.list[k]; o in s.look && o in s.cell && s.look[o].valptr == Slot(block, s.look[o].idx)
    ensures var o := s.list[k];
            s.look[o].next == From(s.list, k + 1) && 0 <= s.look[o].idx < |b.slots|
                && s.cell[o] == b.slots[s.look[o].idx]
  {
    NextInList(s, k);
  }

  lemma Below(s: Outers, b: Boxes, block: array<Val>, k: nat)
    requires Right(s, b, block, |b.slots|) && k < |s.list|
    ensures forall j :: k <= j < |s.list| ==> s.list[j] in s.look && s.look[s.list[j]].idx <= s.look[s.list[k]].idx
  {}

  lemma NextInList(s: Outers, k: nat)
    requires Chained(s) && k < |s.list|
    ensures s.list[k] in s.look && s.look[s.list[k]].next == From(s.list, k + 1)
  {
    if k + 1 < |s.list| { assert s.look[s.list[k]].next == s.list[k + 1]; }
  }

  lemma OpenIsListed(s: Outers)
    requires Ordered(s)
    ensures s.look.Keys == s.cell.Keys && forall o :: o in s.look ==> (s.look[o].valptr.Slot? <==> o in s.list)
  {}

  lemma SlotWritten(s: Outers, b: Boxes, block: array<Val>, i: int, v: Val)
    requires Right(s, b, block, |b.slots|) && 0 <= i < |b.slots|
    ensures Right(s, WriteSlot(b, i, v), block, |b.slots|)
  {}

  lemma CellWritten(s: Outers, b: Boxes, block: array<Val>, o: Outer, v: Val)
    requires Right(s, b, block, |b.slots|) && o in s.cell && s.look[o].valptr.Own?
    ensures s.cell[o] < |b.cells| && forall i :: 0 <= i < |b.slots| ==> b.slots[i] != s.cell[o]
    ensures Right(s.(look := s.look[o := s.look[o].(value := v)]), WriteCell(b, s.cell[o], v), block, |b.slots|)
  {
    hide Chained, Ordered;
    SameKeys(s);
    ValueOrdered(s, o, v);
  }

  lemma SameKeys(s: Outers)
    requires Ordered(s)
    ensures s.look.Keys == s.cell.Keys
  {}

  lemma ValueOrdered(s: Outers, o: Outer, v: Val)
    requires Ordered(s) && Chained(s) && o in s.look
    ensures var t := s.(look := s.look[o := s.look[o].(value := v)]); Ordered(t) && Chained(t)
  {
    hide Ordered, Chained;
    SameOrder(s, s.(look := s.look[o := s.look[o].(value := v)]));
  }

  /** Order and links do not depend on values, nor on which block the open outers point into. */
  lemma SameOrder(s: Outers, t: Outers)
    requires Ordered(s) && Chained(s) && t.list == s.list && t.cell == s.cell && t.look.Keys == s.look.Keys
    requires forall p :: p in s.look ==>
             p in t.look && t.look[p].valptr.Slot? == s.look[p].valptr.Slot? && t.look[p].idx == s.look[p].idx
                 && t.look[p].next == s.look[p].next
    ensures Ordered(t) && Chained(t)
  {}

  /** The outers with a new one at place k of the list. */
  function Placed(s: Outers, o: Outer, x: Look, c: nat, k: nat): Outers
    requires k <= |s.list| && (k > 0 ==> s.list[k - 1] in s.look)
  {
    var look := if k == 0 then s.look else s.look[s.list[k - 1] := s.look[s.list[k - 1]].(next := o)];
    Outers(look[o := x], s.cell[o := c], s.list[..k] + [o] + s.list[k..])
  }

  lemma PlacedAt(s: Outers, o: Outer, x: Look, c: nat, k: nat)
    requires k <= |s.list| && (k > 0 ==> s.list[k - 1] in s.look)
    ensures var t := Placed(s, o, x, c, k);
            |t.list| == |s.list| + 1 && t.cell == s.cell[o := c] && t.cell.Keys == s.cell.Keys + {o}
    ensures var l := Placed(s, o, x, c, k).list;
      forall j {:trigger l[j]} :: 0 <= j < |l| ==> l[j] == if j < k then s.list[j] else if j == k then o
          else s.list[j - 1]
    ensures var l := Placed(s, o, x, c, k).list; o in l && forall p :: p in s.list ==> p in l
  {
    assert s.list == s.list[..k] + s.list[k..];
  }

  lemma PlacedLook(s: Outers, o: Outer, x: Look, c: nat, k: nat)
    requires k <= |s.list| && (k > 0 ==> s.list[k - 1] in s.look) && o !in s.look
    ensures var t := Placed(s, o, x, c, k); t.look.Keys == s.look.Keys + {o} && o in t.look && t.look[o] == x
    ensures var t := Placed(s, o, x, c, k); forall p :: p in s.look ==>
      p in t.look && t.look[p].valptr == s.look[p].valptr && t.look[p].idx == s.look[p].idx
          && t.look[p].value == s.look[p].value
    ensures var t := Placed(s, o, x, c, k); forall p :: p in t.look ==> p in s.look || p == o
    ensures var t := Placed(s, o, x, c, k); forall p :: p in s.look ==> t.look[p].next == if k > 0 && p == s.list[k - 1]
            then o else s.look[p].next
  {}

  lemma PlacedChained(s: Outers, o: Outer, x: Look, c: nat, k: nat)
    requires Ordered(s) && Chained(s) && k <= |s.list| && o !in s.look && x.next == From(s.list, k)
    ensures Chained(Placed(s, o, x, c, k))
  {
    hide Ordered, Placed;
    ListDistinct(s);
    InLook(s);
    var t := Placed(s, o, x, c, k);
    PlacedLook(s, o, x, c, k);
    PlacedAt(s, o, x, c, k);
    forall i, j | 0 <= i < |t.list| && j == i + 1 < |t.list| ensures t.look[t.list[i]].next == t.list[j] {
      if i + 1 < k { assert s.look[s.list[i]].next == s.list[j]; }
      else if i > k { assert s.look[s.list[i - 1]].next == s.list[i]; }
    }
  }

  lemma PlacedOrdered(s: Outers, o: Outer, x: Look, c: nat, k: nat)
    requires Ordered(s) && k <= |s.list| && o !in s.look && x.valptr.Slot?
    requires forall j :: 0 <= j < |s.list| ==> if j < k then s.look[s.list[j]].idx > x.idx
             else s.look[s.list[j]].idx < x.idx
    ensures Ordered(Placed(s, o, x, c, k))
  {
    hide Placed;
    PlacedLook(s, o, x, c, k);
    PlacedAt(s, o, x, c, k);
  }

  /** A new outer for a slot that has none, between the open outers above and those below. */
  lemma Inserted(s: Outers, b: Boxes, block: array<Val>, o: Outer, x: Look, k: nat)
    requires Right(s, b, block, |b.slots|) && o !in s.look && k <= |s.list|
    requires 0 <= x.idx < |b.slots| && x.valptr == Slot(block, x.idx) && x.next == From(s.list, k)
    requires forall j :: 0 <= j < |s.list| ==> if j < k then s.look[s.list[j]].idx > x.idx
             else s.look[s.list[j]].idx < x.idx
    ensures Right(Placed(s, o, x, b.slots[x.idx], k), b, block, |b.slots|)
  {
    hide Chained, Placed, Ordered, Separate, Apart;
    SameKeys(s);
    InLook(s);
    PlacedChained(s, o, x, b.slots[x.idx], k);
    PlacedOrdered(s, o, x, b.slots[x.idx], k);
    PlacedLook(s, o, x, b.slots[x.idx], k);
    PlacedAt(s, o, x, b.slots[x.idx], k);
    Uncaught(s, b, block, x.idx);
    var t := Placed(s, o, x, b.slots[x.idx], k);
    SameKeys(t);
    assert x.idx < |b.slots| && b.slots[x.idx] < |b.cells| by { SeparateAt(b, x.idx); }
  }

  lemma SeparateAt(b: Boxes, i: int)
    requires Separate(b) && 0 <= i < |b.slots|
    ensures b.slots[i] < |b.cells|
  {}

  /** If no open outer is on a slot, no outer stands for its box. */
  lemma Uncaught(s: Outers, b: Boxes, block: array<Val>, at: int)
    requires Right(s, b, block, |b.slots|) && 0 <= at < |b.slots|
    requires forall j :: 0 <= j < |s.list| ==> s.look[s.list[j]].idx != at
    ensures forall p :: p in s.cell ==> s.cell[p] != b.slots[at]
  {
    forall p | p in s.cell ensures s.cell[p] != b.slots[at] {
      if s.look[p].valptr.Slot? { var j :| 0 <= j < |s.list| && s.list[j] == p; }
    }
  }

  /** The first open outer takes its value with it. */
  function Dropped(s: Outers, v: Val): Outers
    requires s.list != [] && s.list[0] in s.look
  {
    var o := s.list[0];
    Outers(s.look[o := Seen(Own, s.look[o].idx, v, s.look[o].next)], s.cell, s.list[1..])
  }

  lemma DroppedLook(s: Outers, v: Val)
    requires Ordered(s) && s.list != []
    ensures var t := Dropped(s, v);
            |t.list| == |s.list| - 1 && t.look.Keys == s.look.Keys &&
            forall j :: 0 <= j < |t.list| ==>
              t.list[j] in t.look && t.list[j] == s.list[j + 1] && t.look[t.list[j]] == s.look[s.list[j + 1]]
  {
    ListDistinct(s);
  }

  lemma DroppedOrdered(s: Outers, v: Val)
    requires Ordered(s) && s.list != []
    ensures Ordered(Dropped(s, v))
  {
    DroppedLook(s, v);
    assert s.list == [s.list[0]] + Dropped(s, v).list;
  }

  lemma DroppedChained(s: Outers, v: Val)
    requires Ordered(s) && Chained(s) && s.list != []
    ensures var t := Dropped(s, v); Chained(t) && s.look[s.list[0]].next == From(t.list, 0)
  {
    hide Ordered, Dropped;
    InLook(s);
    DroppedLook(s, v);
    var t := Dropped(s, v);
    assert |s.list| > 1 ==> s.look[s.list[0]].next == s.list[1];
    forall i, j | 0 <= i < |t.list| && j == i + 1 < |t.list| ensures t.look[t.list[i]].next == t.list[j] {
      assert s.look[s.list[j]].next == s.list[j + 1];
    }
  }

  lemma FirstClosed(s: Outers, b: Boxes, block: array<Val>, n: int, v: Val)
    requires Right(s, b, block, n) && s.list != [] && 0 <= n <= s.look[s.list[0]].idx < |b.slots|
             && v == At(b, s.look[s.list[0]].idx)
    ensures Right(Dropped(s, v), b, block, n) && s.look[s.list[0]].next == From(s.list[1..], 0)
  {
    hide Ordered, Chained, Apart;
    HeadOpen(s, b, block, n);
    DroppedOrdered(s, v);
    DroppedChained(s, v);
  }

  lemma HeadOpen(s: Outers, b: Boxes, block: array<Val>, n: int)
    requires Right(s, b, block, n) && s.list != []
    ensures var o := s.list[0]; o in s.cell && o in s.look && s.look[o].valptr == Slot(block, s.look[o].idx)
    ensures var o := s.list[0]; 0 <= s.look[o].idx < |b.slots| && s.cell[o] == b.slots[s.look[o].idx]
    ensures n <= s.look[s.list[0]].idx ==> Apart(b, n, s.cell[s.list[0]])
  {}

  lemma RightBelow(s: Outers, b: Boxes, block: array<Val>, n: int)
    requires Right(s, b, block, |b.slots|) && 0 <= n <= |b.slots|
    ensures Right(s, b, block, n)
  {}

  lemma Detached(s: Outers, b: Boxes, block: array<Val>, n: int)
    requires Right(s, b, block, n) && 0 <= n <= |b.slots| && (s.list != [] ==> s.look[s.list[0]].idx < n)
    ensures Right(s, Detach(b, n), block, |b.slots|)
  {
    var r := Detach(b, n);
    assert forall i :: 0 <= i < |r.slots| ==> if i < n then r.slots[i] == b.slots[i] else r.slots[i] >= |b.cells|;
    forall o | o in s.cell ensures Stands(r, s.cell[o], s.look[o], block, |b.slots|) {
      if s.look[o].valptr.Slot? { var j :| 0 <= j < |s.list| && s.list[j] == o; }
    }
  }

  /** Open outers point into the new block. */
  function Relocated(s: Outers, block: array<Val>): Outers
    requires s.look.Keys == s.cell.Keys
  {
    s.(look := map o | o in s.look :: if s.look[o].valptr.Slot? then s.look[o].(valptr := Slot(block, s.look[o].idx))
       else s.look[o])
  }

  lemma Extended(s: Outers, b: Boxes, from: array<Val>, block: array<Val>, k: nat)
    requires Right(s, b, from, |b.slots|)
    ensures Right(Relocated(s, block), Extend(b, k), block, |b.slots| + k)
  {
    var r := Extend(b, k);
    assert forall i :: 0 <= i < |r.slots| ==> if i < |b.slots| then r.slots[i] == b.slots[i]
        else r.slots[i] >= |b.cells|;
  }

  lemma RelocatedKeeps(s: Outers, block: array<Val>)
    requires s.look.Keys == s.cell.Keys
    ensures var t := Relocated(s, block); t.cell == s.cell && t.list == s.list && t.look.Keys == s.look.Keys
  {}
}
