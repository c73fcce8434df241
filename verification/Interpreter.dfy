/** The interpreter itself: one movable stack, captured variables as pointers into it, frames that record
    their caller relative to themselves, one list of traps for all frames, and generators that take
    their frame and traps away with them.  Every run agrees with the reference machine. */
module Interpreter {
  import opened CallFrames
  import opened OpenOuters
  import opened Bookkeeping
  import opened FrameSteps

  class SQVM {
    var stack: array<Val>
    var openouters: Outer?
    var stackbase: int
    var top: int
    var calls: seq<CallInfo<SQGenerator?>>
    var etraps: seq<Trap>
    var nmetamethodscall: nat

    ghost var s: Outers
    ghost var b: Boxes
    ghost var gens: seq<SQGenerator>

    ghost predicate Tied()
      reads this`b, this`stack, stack
    {
      && Separate(b) && stack.Length == |b.slots|
      && (forall i :: 0 <= i < stack.Length ==> stack[i] == At(b, i))
    }

    ghost predicate Mirrors()
      reads this`s, s.look.Keys
    {
      forall o :: o in s.look ==> s.look[o] == o.Look()
    }

    ghost predicate Valid()
      reads this`stack, this`s, this`b, this`openouters, stack, s.look.Keys
    {
      Tied() && Mirrors() && openouters == From(s.list, 0) && Right(s, b, stack, |b.slots|)
    }

    /** Writes a slot of the stack. */
    method SetAt(i: int, v: Val)
      requires Valid() && 0 <= i < stack.Length
      modifies this`b, stack
      ensures Valid() && b == WriteSlot(old(b), i, v)
    {
      hide Right, Separate, WriteSlot;
      SlotWritten(s, b, stack, i, v);
      stack[i] := v;
      b := WriteSlot(b, i, v);
    }

    method GetOuter(o: Outer) returns (v: Val)
      requires Valid() && o in s.cell
      ensures s.cell[o] < |b.cells| && v == b.cells[s.cell[o]]
    {
      match o.valptr {
        case Slot(block, at) => v := block[at];
        case Own => v := o.value;
      }
    }

    method SetOuter(o: Outer, v: Val)
      requires Valid() && o in s.cell
      modifies this`b, this`s, stack, o`value
      ensures Valid() && s.cell == old(s.cell) && s.cell[o] < |old(b).cells| && b == WriteCell(old(b), s.cell[o], v)
    {
      match o.valptr {
        case Slot(block, at) => SetAt(at, v);
        case Own => SetOwn(o, v);
      }
    }

    method SetOwn(o: Outer, v: Val)
      requires Valid() && o in s.cell && o.valptr.Own?
      modifies this`b, this`s, o`value
      ensures Valid() && s.cell == old(s.cell) && s.cell[o] < |old(b).cells| && b == WriteCell(old(b), s.cell[o], v)
    {
      hide Stands;
      CellWritten(s, b, stack, o, v);
      o.value := v;
      b := WriteCell(b, s.cell[o], v);
      s := s.(look := s.look[o := s.look[o].(value := v)]);
    }

    /** The outer for a stack slot: the open one if there is one, else a new one at its place in the list. */
    method FindOuter(at: int) returns (otr: Outer)
      requires Valid() && 0 <= at < stack.Length
      modifies this`openouters, this`s, s.look.Keys
      ensures Valid() && otr in s.cell && s.cell[otr] == b.slots[at]
      ensures forall o :: o in old(s.cell) ==> o in s.cell && s.cell[o] == old(s.cell)[o]
      ensures forall o :: o in s.cell ==> o in old(s.cell) || fresh(o)
    {
      hide Right, Separate, Mirrors;
      var prev, p, k := Search(at);
      if p != null && p.idx == at {
        otr := p;
      } else {
        otr := PlaceOuter(at, prev, p, k);
      }
    }

    /** How far down the open list a slot is. */
    method Search(at: int) returns (prev: Outer?, p: Outer?, ghost k: nat)
      requires Valid() && 0 <= at < stack.Length
      ensures k <= |s.list| && p == From(s.list, k) && prev == (if k == 0 then null else s.list[k - 1])
      ensures p != null && p.idx == at ==> p in s.cell && s.cell[p] == b.slots[at]
      ensures forall j :: 0 <= j < |s.list| ==> s.list[j] in s.look
      ensures p == null || p.idx != at ==> forall j :: 0 <= j < |s.list| ==> if j < k then s.list[j].idx > at
              else s.list[j].idx < at
    {
      hide Right, Separate;
      RightInLook(s, b, stack);
      prev, p, k := null, openouters, 0;
      if p != null { ListedAt(s, b, stack, k); }
      while p != null && p.valptr.at > at
        invariant 0 <= k <= |s.list| && p == From(s.list, k) && prev == (if k == 0 then null else s.list[k - 1])
        invariant p != null ==> p.valptr == Slot(stack, p.idx)
        invariant forall j :: 0 <= j < k ==> s.list[j].idx > at
        decreases |s.list| - k
      {
        ListedAt(s, b, stack, k);
        prev, p, k := p, p.next, k + 1;
        if p != null { ListedAt(s, b, stack, k); }
      }
      if p != null {
        ListedAt(s, b, stack, k);
        Below(s, b, stack, k);
      }
    }

    method PlaceOuter(at: int, prev: Outer?, p: Outer?, ghost k: nat) returns (otr: Outer)
      requires Valid() && 0 <= at < stack.Length && k <= |s.list|
      requires p == From(s.list, k) && prev == (if k == 0 then null else s.list[k - 1])
      requires forall j :: 0 <= j < |s.list| ==> if j < k then s.list[j].idx > at else s.list[j].idx < at
      modifies this`openouters, this`s, s.look.Keys
      ensures Valid() && otr in s.cell && s.cell == old(s.cell)[otr := b.slots[at]] && fresh(otr)
    {
      hide Right, Separate, Placed;
      ghost var s0, c := s, b.slots[at];
      RightInLook(s0, b, stack);
      assert forall j :: 0 <= j < |s0.list| ==> s0.look[s0.list[j]].idx == s0.list[j].idx;
      otr := NewOuter(at, p);
      ghost var x := otr.Look();
      Inserted(s0, b, stack, otr, x, k);
      PlacedLook(s0, otr, x, c, k);
      PlacedAt(s0, otr, x, c, k);
      if prev == null { openouters := otr; } else { prev.next := otr; }
      s := Placed(s0, otr, x, c, k);
    }

    method NewOuter(at: int, p: Outer?) returns (otr: Outer)
      ensures fresh(otr) && otr.Look() == Seen(Slot(stack, at), at, Null, p)
    {
      otr := new Outer(Slot(stack, at));
      otr.next := p;
      otr.idx := at;
    }

    lemma FirstPoints(n: int)
      requires Mirrors() && openouters == From(s.list, 0) && Right(s, b, stack, n)
      ensures s.list == [] ==> openouters == null
      ensures s.list != [] ==>
        && s.list[0] in s.look && openouters == s.list[0] && s.look[openouters].idx == openouters.idx
        && openouters.valptr == Slot(stack, openouters.idx)
    {
      if s.list != [] { HeadOpen(s, b, stack, n); }
    }

    method CloseOuters(n: int)
      requires Valid() && 0 <= n <= stack.Length
      modifies this`openouters, this`s, this`b, s.look.Keys
      ensures Valid() && s.cell == old(s.cell) && s.look.Keys == old(s.look.Keys) && b == Detach(old(b), n)
    {
      hide Right, Detach, Separate;
      RightBelow(s, b, stack, n);
      FirstPoints(n);
      while openouters != null && openouters.valptr.at >= n
        invariant Tied() && Mirrors() && openouters == From(s.list, 0) && Right(s, b, stack, n)
        invariant b == old(b) && s.cell == old(s.cell)
        invariant s.look.Keys == old(s.look.Keys) && (s.list == [] ==> openouters == null)
        invariant s.list != [] ==>
          && s.list[0] in s.look && openouters == s.list[0] && s.look[openouters].idx == openouters.idx
          && openouters.valptr == Slot(stack, openouters.idx)
        decreases |s.list|
      {
        CloseFirst(n);
        FirstPoints(n);
      }
      Detached(s, b, stack, n);
      b := Detach(b, n);
    }

    method CloseFirst(n: int)
      requires Tied() && Mirrors() && openouters == From(s.list, 0) && Right(s, b, stack, n)
      requires s.list != [] && 0 <= n <= s.list[0].idx
      modifies this`openouters, this`s, s.look.Keys
      ensures Tied() && Mirrors() && openouters == From(s.list, 0) && Right(s, b, stack, n)
      ensures s.list == old(s.list)[1..] && s.cell == old(s.cell) && s.look.Keys == old(s.look.Keys)
    {
      hide Right;
      ghost var s0 := s;
      HeadOpen(s, b, stack, n);
      var p := openouters;
      FirstClosed(s, b, stack, n, stack[p.idx]);
      p.value := stack[p.valptr.at];
      p.valptr := Own;
      openouters := p.next;
      s := Dropped(s0, p.value);
    }

    /** Point every open outer at its slot of the present stack. */
    method RelocateOuters()
      requires Ordered(s) && Chained(s) && Mirrors() && openouters == From(s.list, 0)
      modifies this`s, s.look.Keys
      ensures s == Relocated(old(s), stack) && Mirrors()
    {
      hide Ordered, Chained;
      var p := openouters;
      ghost var k, done: set<Outer>, s0 := 0, {}, s;
      ListDistinct(s);
      InLook(s);
      while p != null
        invariant s == s0 && 0 <= k <= |s.list| && p == From(s.list, k)
        invariant forall j :: 0 <= j < |s.list| ==> (s.list[j] in done <==> j < k)
        invariant forall o :: o in done ==> o in s.list
        invariant forall o :: o in s.look ==>
          o.Look() == if o in done then s.look[o].(valptr := Slot(stack, s.look[o].idx)) else s.look[o]
        decreases |s.list| - k
      {
        NextInList(s, k);
        p.valptr := Slot(stack, p.idx);
        done, k := done + {p}, k + 1;
        p := p.next;
      }
      OpenIsListed(s);
      s := Relocated(s, stack);
    }

    /** The values move to a larger block. */
    method Resize(size: int)
      requires size >= stack.Length
      modifies this`stack
      ensures fresh(stack) && stack.Length == size
      ensures forall i :: 0 <= i < size ==> stack[i] == if i < old(stack).Length then old(stack[i]) else Null
    {
      var mem, i := new Val[size](_ => Null), 0;
      while i < stack.Length
        invariant 0 <= i <= stack.Length && stack == old(stack) && fresh(mem) && mem.Length == size
        invariant forall j :: 0 <= j < size ==> mem[j] == if j < i then stack[j] else Null
      {
        mem[i] := stack[i];
        i := i + 1;
      }
      stack := mem;
    }

    method Grow()
      requires Valid()
      modifies this`stack, this`s, this`b, s.look.Keys
      ensures Valid() && fresh(stack) && s.cell == old(s.cell) && s.look.Keys == old(s.look.Keys)
      ensures b == Extend(old(b), MIN_STACK_OVERHEAD * 4)
    {
      hide Ordered, Chained, Standing, Separate, Extend, Relocated;
      ghost var s0, was := s, stack;
      SameKeys(s);
      Resize(stack.Length + MIN_STACK_OVERHEAD * 4);
      RelocateOuters();
      Extended(s0, b, was, stack, MIN_STACK_OVERHEAD * 4);
      RelocatedKeeps(s0, stack);
      b := Extend(b, MIN_STACK_OVERHEAD * 4);
    }

    method EnterFrame(newbase: int, newtop: int, tailcall: bool) returns (ok: bool)
      requires Valid() && (tailcall ==> calls != [])
      modifies this`calls, this`stackbase, this`top, this`stack, this`s, this`b, s.look.Keys
      ensures Valid() && s.cell == old(s.cell) && s.look.Keys == old(s.look.Keys)
              && (stack == old(stack) || fresh(stack))
      ensures b == Room(old(b), newtop, nmetamethodscall == 0)
      ensures ok == (!Tight(|old(b).slots|, newtop) || nmetamethodscall == 0) && stackbase == newbase && top == newtop
      ensures tailcall ==>
        var c := old(calls)[|old(calls)| - 1]; calls == Last(old(calls), c.(ncalls := c.ncalls + 1))
      ensures !tailcall ==> calls == old(calls) + [NewCall(newbase - old(stackbase), old(top) - old(stackbase))]
    {
      hide Right, Room;
      if !tailcall {
        calls := calls + [NewCall(newbase - stackbase, top - stackbase)];
      } else {
        calls := Last(calls, calls[|calls| - 1].(ncalls := calls[|calls| - 1].ncalls + 1));
      }
      stackbase, top := newbase, newtop;
      RoomSteps(b, newtop, nmetamethodscall == 0);
      if newtop + MIN_STACK_OVERHEAD > stack.Length {
        if nmetamethodscall > 0 { return false; }
        Grow();
      }
      return true;
    }

    /** The call-stack entry of the current frame changes. */
    method SetCall(c: CallInfo<SQGenerator?>)
      requires Valid() && calls != []
      modifies this`calls
      ensures Valid() && calls == Last(old(calls), c)
    {
      hide Right, Separate;
      calls := Last(calls, c);
    }

    /** A copy of the current frame, as a generator keeps it. */
    method SaveFrame(target: int) returns (saved: seq<Val>)
      requires Valid() && 0 <= stackbase < top < stack.Length && target <= top - stackbase
      ensures Separate(b) && top <= |b.slots| && saved == Saved(Slots(b, stackbase, top - stackbase), target)
    {
      hide Right, Separate;
      var size, n := top - stackbase, 1;
      saved := seq(size, _ => Null);
      saved := saved[0 := Weakened(stack[stackbase])];
      while n < target
        invariant 1 <= n && (n <= target || n == 1) && |saved| == size
        invariant forall k :: 0 <= k < size ==>
          saved[k] == if k == 0 then Weakened(stack[stackbase]) else if k < n then stack[stackbase + k] else Null
      {
        saved := saved[n := stack[stackbase + n]];
        n := n + 1;
      }
    }

    /** Null in every slot of the current frame. */
    method ClearFrame()
      requires Valid() && 0 <= stackbase < top < stack.Length
      modifies this`b, stack
      ensures Valid() && Separate(old(b)) && top <= |old(b).slots|
              && b == Store(old(b), stackbase, Nulls(top - stackbase))
    {
      hide Right, Separate, WriteSlot, Store;
      ghost var vals := Nulls(top - stackbase);
      var size, j := top - stackbase, 0;
      assert vals[0..] == vals;
      while j < size
        invariant 0 <= j <= size && Valid() && b.slots == old(b).slots
        invariant Store(old(b), stackbase, vals) == Store(b, stackbase + j, vals[j..])
      {
        StoreNext(b, stackbase, vals, j);
        SetAt(stackbase + j, Null);
        j := j + 1;
      }
      StoreNone(b, stackbase + j, vals[j..]);
    }

    // ---------- Frames ----------

    ghost function Bk(): Books<SQGenerator?>
      reads this
    {
      Books(calls, etraps, stackbase, top)
    }

    /** The fields, with the books k, describe the state r of the reference machine. */
    ghost predicate Says(k: Books<SQGenerator?>, r: Ref)
      reads this, stack, s.look.Keys, gens
    {
      && Valid() && Fine(r) && b == r.b && nmetamethodscall == r.metas
      && Match(k, r.frames) && GenLinks(k.calls, r.frames, gens) && GensLook(gens, r.gens)
    }

    ghost predicate Represents(r: Ref)
      reads this, stack, s.look.Keys, gens
    {
      Says(Bk(), r)
    }

    /** As far as leaving the current frame goes: what its call says of traps and generator does not matter. */
    ghost predicate Leaving(r: Ref)
      reads this, stack, s.look.Keys, gens
    {
      calls != [] && Says(Idle(Bk()), r) && Cur(r).traps == [] && Cur(r).gen == -1
    }

    lemma RepresentsLeaving(r: Ref)
      requires Represents(r) && |r.frames| > 1 && Cur(r).traps == [] && Cur(r).gen == -1
      ensures Leaving(r)
    {
      hide Valid, Fine, GensLook;
      IdleSame(Bk(), r.frames, gens);
    }

    /** Null from the last slot in use down to the present top. */
    method WipeDown(lastTop: int)
      requires Valid() && 0 <= top && lastTop < stack.Length
      modifies this`b, stack
      ensures Valid() && b == Wipe(old(b), top, lastTop)
    {
      hide Right, Separate, WriteSlot;
      var t := lastTop;
      while t >= top
        invariant Valid() && t <= lastTop && b.slots == old(b).slots && Wipe(old(b), top, lastTop) == Wipe(b, top, t)
        decreases t
      {
        SetAt(t, Null);
        t := t - 1;
      }
    }

    /** What the fields say about the current frame and its caller. */
    lemma Facts(k: Books<SQGenerator?>, r: Ref)
      requires Says(k, r)
      ensures Fine(r) && b == r.b && r.metas == nmetamethodscall && |r.frames| == |k.calls| + 1
      ensures Cur(r).base == k.base && Cur(r).top == k.top && stack.Length == |b.slots|
      ensures 0 <= k.base <= stack.Length && 0 <= k.top < stack.Length && s.look.Keys == s.cell.Keys
              && |gens| == |r.gens|
      ensures k.calls != [] ==> var c, f := LastCall(k), Cur(r);
        && Describes(c, f) && c.generator == GenAt(gens, f.gen) && |f.traps| <= |k.etraps|
        && r.frames[|k.calls| - 1].base == k.base - c.prevstkbase
        && r.frames[|k.calls| - 1].top == k.base - c.prevstkbase + c.prevtop
        && k.etraps == k.etraps[..|k.etraps| - |f.traps|] + f.traps
    {
      hide FramesFit, GensFit, GensLook, Separate, GenAt;
      CurFits(r);
      GensSize(gens, r.gens);
      if k.calls != [] {
        SplitTraps(k, r.frames);
        MatchCaller(k, r.frames);
        LastLink(k.calls, r.frames, gens);
      }
    }

    /** The trap list is as long as the calls say together, and the open outers go down the stack. */
    lemma Balance(r: Ref)
      requires Represents(r)
      ensures |calls| + 1 == |r.frames| && |etraps| == TrapCount(calls) && Valid() && Ordered(s)
    {
      hide Fine, GenLinks, GensLook;
      MatchCounts(Bk(), r.frames);
      Facts(Bk(), r);
    }

    method LeaveFrame(ghost r: Ref)
      requires Leaving(r)
      modifies this`calls, this`stackbase, this`top, this`openouters, this`s, this`b, stack, s.look.Keys
      ensures |r.frames| > 1 && Represents(Leave(r)) && |calls| < |old(calls)|
      ensures s.cell == old(s.cell) && s.look.Keys == old(s.look.Keys)
    {
      hide Valid, Wipe, Detach, Separate, Fine, GensLook, GenLinks, Match, Leave;
      Facts(Idle(Bk()), r);
      IdleCaller(Bk());
      MatchLeave(Idle(Bk()), r.frames);
      FewerLinks(Idle(Bk()).calls, r.frames, gens);
      LeaveIs(r);
      var lastTop, lastBase, c := top, stackbase, calls[|calls| - 1];
      calls := calls[..|calls| - 1];
      stackbase := stackbase - c.prevstkbase;
      top := stackbase + c.prevtop;
      CloseOuters(lastBase);
      WipeDown(lastTop);
    }

    lemma Pieces(r: Ref)
      requires Represents(r)
      ensures Valid() && Match(Bk(), r.frames) && GenLinks(calls, r.frames, gens) && GensLook(gens, r.gens)
    {}

    /** A frame f has been entered with the call c, on top of the books k. */
    lemma Enters(k: Books<SQGenerator?>, r: Ref, c: CallInfo<SQGenerator?>, f: Frame, r2: Ref)
      requires Match(k, r.frames) && GenLinks(k.calls, r.frames, gens) && Describes(c, f)
               && c.generator == GenAt(gens, f.gen)
      requires c.prevstkbase == f.base - k.base && c.prevtop == k.top - k.base
      requires Bk() == Books(k.calls + [c], k.etraps + f.traps, f.base, f.top)
      requires Valid() && Fine(r2) && b == r2.b && nmetamethodscall == r2.metas && GensLook(gens, r2.gens)
      requires r2.frames == r.frames + [f]
      ensures Represents(r2)
    {
      hide Valid, Fine, Match, GenLinks, GensLook;
      MatchEnter(k, r.frames, c, f);
      MoreLinks(k.calls, r.frames, gens, c, f);
    }

    // ---------- Calls and returns ----------

    /** A call from the same loop, or (root) one that starts a loop of its own. */
    method StartCall(ghost r: Ref, newbase: int, newtop: int, target: int, root: bool, ip: int) returns (ok: bool)
      requires Represents(r) && Fits(r, Call(newbase, newtop, target, root, ip))
      modifies this`calls, this`stackbase, this`top, this`stack, this`s, this`b, s.look.Keys
      ensures var res := Step(r, Call(newbase, newtop, target, root, ip)); Represents(res.0) && res.1 == Flag(ok)
      ensures s.cell == old(s.cell) && (stack == old(stack) || fresh(stack))
    {
      hide Valid, Says, Fine, Room, Match, Step, Fits, GenLinks, GensLook;
      Facts(Bk(), r);
      Pieces(r);
      StepFine(r, Call(newbase, newtop, target, root, ip));
      CallStep(r, newbase, newtop, target, root, ip);
      ghost var k := Bk();
      ok := EnterFrame(newbase, newtop, false);
      if ok { SetCall(calls[|calls| - 1].(target := target, root := root, ip := ip)); }
      ghost var c, f := calls[|calls| - 1], CallFrame(newbase, newtop, target, root, ip, ok);
      assert calls == k.calls + [c] && etraps == k.etraps + f.traps;
      Enters(k, r, c, f, Step(r, Call(newbase, newtop, target, root, ip)).0);
    }

    method CallNative(ghost r: Ref, newbase: int, newtop: int) returns (ok: bool)
      requires Represents(r) && Fits(r, Native(newbase, newtop))
      modifies this`calls, this`stackbase, this`top, this`stack, this`s, this`b, s.look.Keys
      ensures var res := Step(r, Native(newbase, newtop)); Represents(res.0) && res.1 == Flag(ok)
      ensures s.cell == old(s.cell) && (stack == old(stack) || fresh(stack))
    {
      hide Valid, Fine, Room, Match, Fits, GenLinks, GensLook;
      StepFine(r, Native(newbase, newtop));
      Facts(Bk(), r);
      ghost var k := Bk();
      ok := EnterFrame(newbase, newtop, false);
      ghost var c, f := calls[|calls| - 1], Frame(newbase, newtop, [], 1, false, -1, 0, -1);
      assert etraps == k.etraps + f.traps;
      MatchEnter(k, r.frames, c, f);
      MoreLinks(k.calls, r.frames, gens, c, f);
    }

    method TailCall(ghost r: Ref, from: int, nargs: nat, newtop: int, ip: int) returns (ok: bool)
      requires Represents(r) && Fits(r, CallFrames.TailCall(from, nargs, newtop, ip))
      modifies this`calls, this`stackbase, this`top, this`stack, this`openouters, this`s, this`b, stack, s.look.Keys
      ensures var res := Step(r, CallFrames.TailCall(from, nargs, newtop, ip)); Represents(res.0) && res.1 == Flag(ok)
      ensures s.cell == old(s.cell) && (stack == old(stack) || fresh(stack))
    {
      hide Valid, Says, Fine, Room, Detach, Separate, Match, Moved, GenLinks, GensLook, Step, Fits;
      Facts(Bk(), r);
      Pieces(r);
      StepFine(r, CallFrames.TailCall(from, nargs, newtop, ip));
      TailCallStep(r, from, nargs, newtop, ip);
      ghost var k, f := Bk(), Cur(r);
      CloseOuters(stackbase);
      MoveArguments(from, nargs);
      ok := EnterFrame(stackbase, newtop, true);
      if ok { SetCall(calls[|calls| - 1].(ip := ip)); }
      ghost var g := f.(top := newtop, ncalls := f.ncalls + 1, ip := if ok then ip else f.ip);
      ghost var c, r2 := calls[|calls| - 1], Step(r, CallFrames.TailCall(from, nargs, newtop, ip)).0;
      MatchCurrent(k, r.frames, c, g);
      assert calls == Last(k.calls, c);
      SameLinks(k.calls, r.frames, gens, c, g);
      Again(Bk(), r2);
    }

    method MoveArguments(from: int, nargs: nat)
      requires Valid() && 0 <= stackbase && 0 <= from && stackbase + from + nargs <= stack.Length
      requires stackbase + nargs <= stack.Length
      modifies this`b, stack
      ensures Valid() && b == Moved(old(b), stackbase, from, 0, nargs)
    {
      hide Right, Separate, WriteSlot;
      var i := 0;
      while i < nargs
        invariant Valid() && i <= nargs && b.slots == old(b).slots
        invariant Moved(old(b), stackbase, from, 0, nargs) == Moved(b, stackbase, from, i, nargs)
      {
        SetAt(stackbase + i, stack[stackbase + from + i]);
        i := i + 1;
      }
    }

    /** The result goes where the call says, and the frame is left. */
    method Return(ghost r: Ref, arg0: int, arg1: int) returns (isRoot: bool, retval: Val)
      requires Leaving(r) && (arg0 != 0xFF ==> 0 <= stackbase + arg1 < stack.Length)
      modifies this`calls, this`stackbase, this`top, this`openouters, this`s, this`b, stack, s.look.Keys
      ensures |r.frames| > 1 && (arg0 != 0xFF ==> 0 <= Cur(r).base + arg1 < |r.b.slots|)
      ensures var res := Returned(r, arg0, arg1); Represents(res.0) && res.1 == if isRoot then Value(retval)
              else Nothing
      ensures s.cell == old(s.cell) && s.look.Keys == old(s.look.Keys)
    {
      hide Leave, WriteSlot, Separate, Right, Fine, Match, At, GenLinks, GensLook, Returned;
      Facts(Idle(Bk()), r);
      ReturnedIs(r, arg0, arg1);
      if arg0 != 0xFF { StackAt(stackbase + arg1); }
      var c := calls[|calls| - 1];
      isRoot, retval := c.root, Null;
      var callerbase := stackbase - c.prevstkbase;
      var v := if arg0 != 0xFF then stack[stackbase + arg1] else Null;
      ghost var r1 := r;
      if c.root {
        retval := v;
      } else if c.target != -1 {
        r1 := r.(b := WriteSlot(r.b, r.frames[|r.frames| - 2].base + c.target, v));
        SetAt(callerbase + c.target, v);
      }
      LeaveFrame(r1);
    }

    /** The generator of the current frame, if any, is killed. */
    method EndGenerator(ghost r: Ref)
      requires Represents(r) && |r.frames| > 1 && Cur(r).traps == []
      modifies gens
      ensures Leaving(Kill(r)) && Cur(Kill(r)).base == stackbase
    {
      hide Valid, Fine, Match, GenLinks, Kill;
      Facts(Bk(), r);
      KillIs(r);
      KillBooks(Bk(), r, gens);
      var c := calls[|calls| - 1];
      if c.generator != null { c.generator.Kill(); }
    }

    method ReturnOp(ghost r: Ref, arg0: int, arg1: int) returns (out: Out)
      requires Represents(r) && Fits(r, CallFrames.Return(arg0, arg1))
      modifies this`calls, this`stackbase, this`top, this`openouters, this`s, this`b, stack, s.look.Keys, gens
      ensures var res := Step(r, CallFrames.Return(arg0, arg1)); Represents(res.0) && res.1 == out
      ensures s.cell == old(s.cell)
    {
      hide Says, Leaving, Fine, Returned, Kill;
      Facts(Bk(), r);
      EndGenerator(r);
      var isRoot, v := Return(Kill(r), arg0, arg1);
      return if isRoot then Value(v) else Nothing;
    }

    lemma Sized()
      requires Valid()
      ensures Separate(b) && stack.Length == |b.slots|
    {}

    lemma StackAt(i: int)
      requires Valid() && 0 <= i < stack.Length
      ensures stack[i] == At(b, i)
    {}

    // ---------- Traps ----------

    /** The current frame changes in the books, and the stack does not. */
    method Rebook(ghost r: Ref, c: CallInfo<SQGenerator?>, traps: seq<Trap>, ghost f: Frame)
      requires Represents(r) && calls != [] && Describes(c, f) && Fine(Reframe(r, f))
      requires c.prevstkbase == calls[|calls| - 1].prevstkbase && c.prevtop == calls[|calls| - 1].prevtop
      requires f.base == stackbase && f.top == top && c.generator == GenAt(gens, f.gen) && |Cur(r).traps| <= |etraps|
      requires traps == etraps[..|etraps| - |Cur(r).traps|] + f.traps
      modifies this`calls, this`etraps
      ensures Represents(Reframe(r, f))
    {
      hide Right, Separate, Fine, Match, GenLinks, GensLook;
      Facts(Bk(), r);
      MatchCurrent(Bk(), r.frames, c, f);
      SameLinks(calls, r.frames, gens, c, f);
      calls, etraps := Last(calls, c), traps;
    }

    /** The interpreter moves on to another instruction. */
    method Go(ghost r: Ref, ip: int)
      requires Represents(r) && Fits(r, CallFrames.Go(ip))
      modifies this`calls, this`etraps
      ensures Represents(Step(r, CallFrames.Go(ip)).0)
    {
      hide Says, Fine;
      Facts(Bk(), r);
      StepFine(r, CallFrames.Go(ip));
      Rebook(r, calls[|calls| - 1].(ip := ip), etraps, Cur(r).(ip := ip));
    }

    method PushTrap(ghost r: Ref, handler: int, extarget: int)
      requires Represents(r) && Fits(r, CallFrames.PushTrap(handler, extarget))
      modifies this`calls, this`etraps
      ensures Represents(Step(r, CallFrames.PushTrap(handler, extarget)).0)
    {
      hide Says, Fine;
      Facts(Bk(), r);
      StepFine(r, CallFrames.PushTrap(handler, extarget));
      var t, c := Trap(top, stackbase, handler, extarget), calls[|calls| - 1];
      Rebook(r, c.(etraps := c.etraps + 1), etraps + [t], Cur(r).(traps := Cur(r).traps + [t]));
    }

    method PopTrap(ghost r: Ref, n: nat)
      requires Represents(r) && Fits(r, CallFrames.PopTrap(n))
      modifies this`calls, this`etraps
      ensures Represents(Step(r, CallFrames.PopTrap(n)).0)
    {
      hide Says, Fine, Step, Fits;
      Facts(Bk(), r);
      PopNone(r, n);
      var i := 0;
      ghost var cur := r;
      while i < n
        invariant 0 <= i <= n && Fine(r) && Fits(r, CallFrames.PopTrap(i)) && cur == Step(r, CallFrames.PopTrap(i)).0
        invariant Represents(cur) && s.look.Keys == old(s.look.Keys) && stack == old(stack) && gens == old(gens)
      {
        PopMore(r, i, n);
        PopOne(cur);
        cur := Step(cur, CallFrames.PopTrap(1)).0;
        i := i + 1;
      }
    }

    method PopOne(ghost r: Ref)
      requires Represents(r) && Fits(r, CallFrames.PopTrap(1))
      modifies this`calls, this`etraps
      ensures Represents(Step(r, CallFrames.PopTrap(1)).0)
    {
      hide Says, Fine;
      Facts(Bk(), r);
      StepFine(r, CallFrames.PopTrap(1));
      var c := calls[|calls| - 1];
      ghost var f := Cur(r);
      assert etraps[..|etraps| - |f.traps|] + f.traps[..|f.traps| - 1] == etraps[..|etraps| - 1];
      Rebook(r, c.(etraps := c.etraps - 1), etraps[..|etraps| - 1], f.(traps := f.traps[..|f.traps| - 1]));
    }

    /** Leave frames until one has a trap for the error; false if it leaves the root frame. */
    method Throw(ghost r: Ref, error: Val) returns (caught: bool)
      requires Represents(r) && Fits(r, CallFrames.Throw(error))
      modifies this`calls, this`etraps, this`stackbase, this`top, this`openouters, this`s, this`b, stack, s.look.Keys,
          gens
      ensures var res := Step(r, CallFrames.Throw(error)); Represents(res.0) && res.1 == Flag(caught)
      ensures s.cell == old(s.cell)
    {
      hide Says, Leaving, Fine, Leave, Kill, Unwind, Lands;
      Facts(Bk(), r);
      ThrowStep(r, error);
      var lastTop := top;
      ghost var cur := r;
      while calls != []
        invariant Represents(cur) && Fine(cur) && |cur.frames| == |calls| + 1 && Lands(cur)
                  && 0 <= lastTop < |cur.b.slots|
        invariant s.cell == old(s.cell) && s.look.Keys == old(s.look.Keys) && stack == old(stack) && gens == old(gens)
        invariant Step(r, CallFrames.Throw(error)) == (Unwind(cur, error, lastTop).0,
                                                       Flag(Unwind(cur, error, lastTop).1))
        decreases |calls|
      {
        Facts(Bk(), cur);
        UnwindOnce(cur, error, lastTop);
        if calls[|calls| - 1].etraps > 0 {
          Catch(cur, error, lastTop);
          return true;
        }
        var mustbreak := calls[|calls| - 1].root;
        EndGenerator(cur);
        LeaveFrame(Kill(cur));
        cur := Leave(Kill(cur));
        Facts(Bk(), cur);
        if mustbreak { return false; }
      }
      UnwindOnce(cur, error, lastTop);
      return false;
    }

    /** The innermost trap of the current frame takes the error. */
    method Catch(ghost r: Ref, error: Val, lastTop: int)
      requires Represents(r) && Cur(r).traps != [] && 0 <= lastTop < |r.b.slots| && Lands(r)
      modifies this`calls, this`etraps, this`stackbase, this`top, this`b, stack
      ensures Represents(Unwind(r, error, lastTop).0)
    {
      hide Valid, Separate, Wipe, WriteSlot, Match, Fine, Unwind, GenLinks, GensLook, Lands;
      Facts(Bk(), r);
      CurFits(r);
      CaughtIs(r, error, lastTop);
      MatchCatch(Bk(), r.frames);
      LandedLinks(Bk(), r, gens);
      var extarget := UseTrap();
      SetAt(stackbase + extarget, error);
      WipeDown(lastTop);
    }

    /** The frame goes on at the handler of its innermost trap, on the base that the trap recorded. */
    method UseTrap() returns (extarget: int)
      requires Valid() && etraps != [] && calls != []
      modifies this`calls, this`etraps, this`stackbase, this`top
      ensures Valid()
      ensures var et, c := old(etraps)[|old(etraps)| - 1], old(calls)[|old(calls)| - 1];
        && top == et.stacksize && stackbase == et.stackbase && extarget == et.extarget
        && etraps == old(etraps)[..|old(etraps)| - 1]
           && calls == Last(old(calls), c.(ip := et.ip, etraps := c.etraps - 1))
    {
      hide Right, Separate;
      var et, c := etraps[|etraps| - 1], calls[|calls| - 1];
      extarget, top, stackbase := et.extarget, et.stacksize, et.stackbase;
      etraps := etraps[..|etraps| - 1];
      calls := Last(calls, c.(ip := et.ip, etraps := c.etraps - 1));
    }

    // ---------- Generators ----------

    /** The current frame goes into the generator o, which takes its traps; its call stays to be left. */
    method Park(ghost r: Ref, o: SQGenerator, ghost g: int, target: int)
      requires Represents(r) && 0 <= g < |r.gens| && gens[g] == o && r.gens[g].state == Running && stackbase < top
      requires |r.frames| > 1 && target <= top - stackbase && forall k :: 0 <= k < |r.frames| - 1 ==>
               r.frames[k].gen != g
      modifies o, this`b, this`etraps, stack
      ensures Cur(r).base < Cur(r).top && Leaving(Parked(r, g, target))
    {
      hide Right, Separate, Fine, Match, GenLinks, Parked;
      Facts(Bk(), r);
      ParkedIs(r, g, target);
      ghost var f, k := Cur(r), Bk();
      ParkedBooks(k, r, gens);
      assert etraps[|etraps| - |f.traps|..] == f.traps;
      var _ := o.Yield(this, target);
    }

    /** YIELD: park the frame, put the yielded value back for the caller, and return it. */
    method YieldOp(ghost r: Ref, arg0: int, arg1: int, target: int) returns (out: Out)
      requires Represents(r) && Fits(r, CallFrames.Yield(arg0, arg1, target)) && calls != []
      modifies this`calls, this`stackbase, this`top, this`openouters, this`s, this`b, this`etraps, stack, s.look.Keys,
          gens
      ensures var res := Step(r, CallFrames.Yield(arg0, arg1, target)); Represents(res.0) && res.1 == out
      ensures s.cell == old(s.cell)
    {
      hide Valid, Fine, Match, GenLinks, GensLook, Step, Fits, Yielded, Returned, Parked;
      Facts(Bk(), r);
      YieldStep(r, arg0, arg1, target);
      var c := calls[|calls| - 1];
      if c.generator == null { return Flag(false); }
      var temp := Null;
      if arg1 != 0xFF { temp := stack[stackbase + arg1]; StackAt(stackbase + arg1); }
      ghost var g := Cur(r).gen;
      Park(r, c.generator, g, target);
      ghost var p := Parked(r, g, target);
      if arg1 != 0xFF {
        SetAt(stackbase + arg1, temp);
        p := p.(b := WriteSlot(p.b, Cur(r).base + arg1, temp));
      }
      var isRoot, v := Return(p, arg0, arg1);
      return if isRoot then Value(v) else Nothing;
    }

    /** A call of a generator function.  The generator's number stands for the object. */
    method Generate(ghost r: Ref, newbase: int, newtop: int, target: int, ip: int, g: nat)
      returns (ok: bool, o: SQGenerator?)
      requires Represents(r) && Fits(r, CallFrames.Generate(newbase, newtop, target, ip)) && g == |gens|
      modifies this, stack, s.look.Keys
      ensures var res := Step(r, CallFrames.Generate(newbase, newtop, target, ip));
              Represents(res.0) && res.1 == Flag(ok)
      ensures gens == if ok then old(gens) + [o] else old(gens)
      ensures ok ==> fresh(o)
      ensures s.cell == old(s.cell) && (stack == old(stack) || fresh(stack))
    {
      hide Says, Fine, Step, Fits, Delivered, Born;
      Facts(Bk(), r);
      GenerateStep(r, newbase, newtop, target, ip);
      o := null;
      ok := StartCall(r, newbase, newtop, target, false, ip);
      if ok {
        ghost var e := Step(r, Call(newbase, newtop, target, false, ip)).0;
        o := NewGenerator(e);
        BornIs(e);
        Facts(Bk(), Born(e));
        Deliver(Born(e), o, target, g);
      }
    }

    method NewGenerator(ghost r: Ref) returns (o: SQGenerator)
      requires Represents(r)
      modifies this`gens
      ensures fresh(o) && gens == old(gens) + [o] && Fine(r) && Represents(Born(r))
    {
      hide Right, Separate, Fine, Match;
      Facts(Bk(), r);
      GenRange(r);
      o := new SQGenerator();
      LinksMore(calls, r.frames, gens, o, r.gens);
      gens := gens + [o];
    }

    /** The frame just entered is parked in the new generator o, which becomes the result of the call. */
    method Deliver(ghost r: Ref, o: SQGenerator, target: int, g: nat)
      requires Represents(r) && |r.frames| > 1 && |r.gens| == g + 1 && gens[g] == o && r.gens[g].state == Running
      requires stackbase < top && 0 <= stackbase + target < stack.Length
      requires 0 <= r.frames[|r.frames| - 2].base + target < stack.Length
      requires forall k :: 0 <= k < |r.frames| ==> r.frames[k].gen != g
      modifies o, this`calls, this`stackbase, this`top, this`openouters, this`s, this`b, this`etraps, stack, s.look.Keys
      ensures Fine(r) && Cur(r).base < Cur(r).top && |r.b.slots| == old(stack.Length) && Cur(r).base == old(stackbase)
      ensures Represents(Delivered(r, target).0) && s.cell == old(s.cell)
    {
      hide Says, Fine, Parked, Returned;
      Facts(Bk(), r);
      Park(r, o, g, top - stackbase);
      ghost var p := Parked(r, g, Cur(r).top - Cur(r).base);
      Facts(Idle(Bk()), p);
      var _, _ := Return(p, 1, target);
      Facts(Bk(), Returned(p, 1, target).0);
      Place(Returned(p, 1, target).0, target, Generator(g));
    }

    /** Writes a register of the current frame. */
    method Place(ghost r: Ref, slot: int, v: Val)
      requires Represents(r) && 0 <= stackbase + slot < stack.Length
      modifies this`b, stack
      ensures Separate(r.b) && r.frames != [] && 0 <= Cur(r).base + slot < |r.b.slots|
      ensures Represents(r.(b := WriteSlot(r.b, Cur(r).base + slot, v)))
    {
      hide Right, FramesFit, GensFit, Match, GenLinks, GensLook, WriteSlot;
      Facts(Bk(), r);
      BoxesFine(r, WriteSlot(r.b, Cur(r).base + slot, v));
      SetAt(stackbase + slot, v);
    }

    method ResumeOp(ghost r: Ref, o: SQGenerator, ghost g: nat, target: int, alive: set<Val>) returns (ok: bool)
      requires Represents(r) && Fits(r, CallFrames.Resume(g, target, alive)) && g < |gens| && gens[g] == o
      modifies o, this`calls, this`stackbase, this`top, this`stack, this`s, this`b, this`etraps, stack, s.look.Keys
      ensures var res := Step(r, CallFrames.Resume(g, target, alive)); Represents(res.0) && res.1 == Flag(ok)
      ensures s.cell == old(s.cell) && (stack == old(stack) || fresh(stack))
    {
      hide Valid, Says, Separate, Fine, Match, GenLinks, Step, Fits, Resumed, Store, Room;
      Facts(Bk(), r);
      Pieces(r);
      ResumeStep(r, g, target, alive);
      StepFine(r, CallFrames.Resume(g, target, alive));
      ghost var k, gen, state := Bk(), r.gens[g], o.state;
      assert GenLooks(o, gen);
      ok := o.Resume(this, target, alive);
      if state == Suspended {
        ghost var c, f := calls[|calls| - 1], ResumeFrame(r, g, target, ok);
        ReversedTwice(gen.traps);
        assert calls == k.calls + [c] && etraps == k.etraps + f.traps;
        Enters(k, r, c, f, Step(r, CallFrames.Resume(g, target, alive)).0);
      } else {
        Again(k, r);
      }
    }

    /** Nothing has changed. */
    lemma Again(k: Books<SQGenerator?>, r: Ref)
      requires Match(k, r.frames) && GenLinks(k.calls, r.frames, gens) && Bk() == k
      requires Valid() && Fine(r) && b == r.b && nmetamethodscall == r.metas && GensLook(gens, r.gens)
      ensures Represents(r)
    {}

    // ---------- Variables ----------

    method Push(ghost r: Ref, v: Val)
      requires Represents(r) && Fits(r, CallFrames.Push(v))
      modifies this`top, this`b, stack
      ensures Represents(Step(r, CallFrames.Push(v)).0)
    {
      hide Right, Separate, WriteSlot, Match, Fine, GensLook;
      StepFine(r, CallFrames.Push(v));
      Facts(Bk(), r);
      MatchTop(Bk(), r.frames, top + 1);
      TopLinks(calls, r.frames, gens, top + 1);
      SetAt(top, v);
      top := top + 1;
    }

    method Pop(ghost r: Ref, n: nat)
      requires Represents(r) && Fits(r, CallFrames.Pop(n))
      modifies this`top, this`b, stack
      ensures Represents(Step(r, CallFrames.Pop(n)).0)
    {
      hide Right, Separate, WriteSlot, Match, Fine, GensLook, GenLinks;
      StepFine(r, CallFrames.Pop(n));
      Facts(Bk(), r);
      MatchTop(Bk(), r.frames, top - n);
      TopLinks(calls, r.frames, gens, top - n);
      PopAll(n);
    }

    method PopAll(n: nat)
      requires Valid() && n <= top <= stack.Length
      modifies this`top, this`b, stack
      ensures Valid() && top == old(top) - n && b == Wipe(old(b), old(top) - n, old(top) - 1)
    {
      hide Right, Separate, WriteSlot;
      var i := 0;
      ghost var t0 := top;
      while i < n
        invariant 0 <= i <= n && top == t0 - i && Valid() && b.slots == old(b).slots
        invariant Wipe(old(b), t0 - n, t0 - 1) == Wipe(b, t0 - n, top - 1)
      {
        top := top - 1;
        SetAt(top, Null);
        i := i + 1;
      }
    }

    constructor (stacksize: nat)
      requires stacksize > 0
      ensures Represents(Start(stacksize)) && s.look.Keys == {} && fresh(stack) && gens == []
    {
      stack := new Val[stacksize](_ => Null);
      openouters, stackbase, top, calls, etraps, nmetamethodscall := null, 0, 0, [], [], 0;
      s := Outers(map[], map[], []);
      b := Extend(Boxes([], []), stacksize);
      gens := [];
    }

    /** The captured variables handed out so far. */
    ghost predicate Held(hs: seq<Outer>, handles: seq<nat>)
      reads this`s
    {
      |hs| == |handles| && forall k :: 0 <= k < |hs| ==> hs[k] in s.cell && s.cell[hs[k]] == handles[k]
    }

    /** A closure captures a local of this frame. */
    method Capture(ghost r: Ref, slot: int) returns (otr: Outer)
      requires Represents(r) && Fits(r, CallFrames.Capture(slot))
      modifies this`openouters, this`s, s.look.Keys
      ensures Represents(Step(r, CallFrames.Capture(slot)).0)
      ensures r.frames != [] && 0 <= Cur(r).base + slot < |r.b.slots|
      ensures otr in s.cell && s.cell[otr] == r.b.slots[Cur(r).base + slot]
      ensures forall o :: o in old(s.cell) ==> o in s.cell && s.cell[o] == old(s.cell)[o]
      ensures forall o :: o in s.cell ==> o in old(s.cell) || fresh(o)
    {
      hide Right, Separate, Match, Fine, GensLook, GenLinks;
      StepFine(r, CallFrames.Capture(slot));
      Facts(Bk(), r);
      otr := FindOuter(stackbase + slot);
    }

    /** Operations on captured variables. */
    method AccessOuter(ghost r: Ref, op: Op, hs: seq<Outer>) returns (out: Out)
      requires Represents(r) && Fits(r, op) && Held(hs, r.handles) && (op.GetOuter? || op.SetOuter?)
      modifies this`s, this`b, stack, s.look.Keys
      ensures var res := Step(r, op); Represents(res.0) && out == res.1 && s.cell == old(s.cell)
    {
      hide Right, Separate, Match, Fine, WriteCell, GensLook, GenLinks;
      StepFine(r, op);
      Facts(Bk(), r);
      out := Nothing;
      match op {
        case GetOuter(k) => var v := GetOuter(hs[k]); out := Value(v);
        case SetOuter(k, v) => SetOuter(hs[k], v);
      }
    }

    /** Operations on registers, and the count of metamethod calls. */
    method AccessSlot(ghost r: Ref, op: Op) returns (out: Out)
      requires Represents(r) && Fits(r, op)
      requires op.GetSlot? || op.SetSlot? || op.CloseFrom? || op.BeginMeta? || op.EndMeta?
      modifies this`openouters, this`s, this`b, this`nmetamethodscall, stack, s.look.Keys
      ensures var res := Step(r, op); Represents(res.0) && out == res.1 && s.cell == old(s.cell)
    {
      hide Right, Separate, Match, Fine, Detach, WriteSlot, GensLook, GenLinks;
      StepFine(r, op);
      Facts(Bk(), r);
      out := Nothing;
      match op {
        case GetSlot(slot) => out := Value(stack[stackbase + slot]);
        case SetSlot(slot, v) => SetAt(stackbase + slot, v);
        case CloseFrom(slot) => CloseOuters(stackbase + slot);
        case BeginMeta => nmetamethodscall := nmetamethodscall + 1;
        case EndMeta => nmetamethodscall := nmetamethodscall - 1;
      }
    }

    lemma Keys(r: Ref)
      requires Represents(r)
      ensures s.look.Keys == s.cell.Keys && Fine(r)
    {}

    // ---------- All operations ----------

    /** Calls and returns. */
    method DoCall(ghost r: Ref, op: Op) returns (out: Out)
      requires Represents(r) && Fits(r, op) && (op.Call? || op.TailCall? || op.Native? || op.LeaveNative? || op.Return?)
      modifies this`calls, this`stackbase, this`top, this`openouters, this`stack, this`s, this`b, stack, s.look.Keys,
          gens
      ensures var res := Step(r, op); Represents(res.0) && out == res.1
      ensures (stack == old(stack) || fresh(stack)) && s.cell == old(s.cell)
    {
      hide Says, Fine, Step, Fits, Leave;
      Facts(Bk(), r);
      OpFacts(r, op);
      match op {
        case Call(newbase, newtop, target, root, ip) =>
          var ok := StartCall(r, newbase, newtop, target, root, ip); out := Flag(ok);
        case TailCall(from, nargs, newtop, ip) => var ok := TailCall(r, from, nargs, newtop, ip); out := Flag(ok);
        case Native(newbase, newtop) => var ok := CallNative(r, newbase, newtop); out := Flag(ok);
        case LeaveNative => RepresentsLeaving(r); LeaveFrame(r); out := Nothing;
        case Return(arg0, arg1) => out := ReturnOp(r, arg0, arg1);
      }
    }

    /** Traps, errors and values on the current frame. */
    method DoFrame(ghost r: Ref, op: Op) returns (out: Out)
      requires Represents(r) && Fits(r, op)
      requires op.Go? || op.PushTrap? || op.PopTrap? || op.Throw? || op.Push? || op.Pop?
      modifies this`calls, this`etraps, this`stackbase, this`top, this`openouters, this`s, this`b, stack, s.look.Keys,
          gens
      ensures var res := Step(r, op); Represents(res.0) && out == res.1 && s.cell == old(s.cell)
    {
      hide Says, Fine, Step, Fits;
      Facts(Bk(), r);
      OpFacts(r, op);
      out := Nothing;
      match op {
        case Go(ip) => Go(r, ip);
        case PushTrap(handler, extarget) => PushTrap(r, handler, extarget);
        case PopTrap(n) => PopTrap(r, n);
        case Throw(error) => var caught := Throw(r, error); out := Flag(caught);
        case Push(v) => Push(r, v);
        case Pop(n) => Pop(r, n);
      }
    }

    /** Generators.  gs are those created so far. */
    method DoGenerator(ghost r: Ref, op: Op, gs: seq<SQGenerator>) returns (out: Out, gs2: seq<SQGenerator>)
      requires Represents(r) && Fits(r, op) && gs == gens && (op.Generate? || op.Yield? || op.Resume?)
      modifies this, stack, s.look.Keys, gens
      ensures var res := Step(r, op); Represents(res.0) && out == res.1 && gs2 == gens
      ensures (stack == old(stack) || fresh(stack)) && s.cell == old(s.cell)
      ensures old(gens) <= gens && forall k :: |old(gens)| <= k < |gens| ==> fresh(gens[k])
    {
      hide Says, Fine, Step, Fits;
      Facts(Bk(), r);
      OpFacts(r, op);
      gs2 := gs;
      match op {
        case Generate(newbase, newtop, target, ip) =>
          var ok, o := Generate(r, newbase, newtop, target, ip, |gs|);
          out := Flag(ok);
          if ok { gs2 := gs + [o]; }
        case Yield(arg0, arg1, target) =>
          if calls == [] { out := Flag(false); } else { out := YieldOp(r, arg0, arg1, target); }
        case Resume(g, target, alive) => var ok := ResumeOp(r, gs[g], g, target, alive); out := Flag(ok);
      }
    }

    /** Any operation.  hs are the captured variables handed out so far, gs the generators. */
    method Do(ghost r: Ref, op: Op, hs: seq<Outer>, gs: seq<SQGenerator>)
      returns (out: Out, hs2: seq<Outer>, gs2: seq<SQGenerator>)
      requires Represents(r) && Fits(r, op) && Held(hs, r.handles) && gs == gens
      modifies this, stack, s.look.Keys, gens
      ensures var res := Step(r, op); Represents(res.0) && out == res.1 && Held(hs2, res.0.handles) && gs2 == gens
      ensures stack == old(stack) || fresh(stack)
      ensures forall o :: o in s.cell ==> o in old(s.cell) || fresh(o)
      ensures old(gens) <= gens && forall k :: |old(gens)| <= k < |gens| ==> fresh(gens[k])
    {
      hide Represents, Fine, Step, Fits;
      Keys(r);
      OpFacts(r, op);
      out, hs2, gs2 := Nothing, hs, gs;
      if op.Generate? || op.Yield? || op.Resume? {
        out, gs2 := DoGenerator(r, op, gs);
      } else if op.Capture? {
        var otr := Capture(r, op.slot);
        hs2 := hs + [otr];
      } else if op.Inherit? {
        hs2 := hs + [hs[op.k]];
        Inherited(r, op.k);
      } else if op.GetOuter? || op.SetOuter? {
        out := AccessOuter(r, op, hs);
      } else if op.GetSlot? || op.SetSlot? || op.CloseFrom? || op.BeginMeta? || op.EndMeta? {
        out := AccessSlot(r, op);
      } else if op.Call? || op.TailCall? || op.Native? || op.LeaveNative? || op.Return? {
        out := DoCall(r, op);
      } else {
        out := DoFrame(r, op);
      }
    }

    /** Handing out a captured variable once more changes nothing else. */
    lemma Inherited(r: Ref, k: nat)
      requires Represents(r) && Fits(r, Inherit(k))
      ensures Represents(Step(r, Inherit(k)).0)
    {
      hide Valid, Fine, Match, GenLinks, GensLook;
      StepFine(r, Inherit(k));
    }
  }

  function NewCall(prevstkbase: int, prevtop: int): CallInfo<SQGenerator?> {
    CallInfo(prevstkbase, prevtop, 0, 1, false, -1, 0, null)
  }

  // ---------- Generators and calls ----------

  /** The books with the current call idle: no traps, no generator. */
  ghost function Idle(k: Books<SQGenerator?>): Books<SQGenerator?>
    requires k.calls != []
  {
    k.(calls := Last(k.calls, LastCall(k).(etraps := 0, generator := null)))
  }

  lemma IdleCaller(k: Books<SQGenerator?>)
    requires k.calls != []
    ensures Caller(Idle(k), 0) == Caller(k, 0) && Caller(k, 0).etraps == k.etraps
    ensures Idle(k).calls[..|k.calls| - 1] == k.calls[..|k.calls| - 1]
  {}

  lemma {:induction false} IdleSame(k: Books<SQGenerator?>, frames: seq<Frame>, gens: seq<SQGenerator>)
    requires Match(k, frames) && GenLinks(k.calls, frames, gens) && k.calls != []
    requires frames[|k.calls|].traps == [] && frames[|k.calls|].gen == -1
    ensures Idle(k) == k
  {
    LastLink(k.calls, frames, gens);
    assert Last(k.calls, LastCall(k)) == k.calls;
  }

  function GenAt(gens: seq<SQGenerator>, g: int): SQGenerator? { if 0 <= g < |gens| then gens[g] else null }

  /** Each call points to the generator of its frame. */
  ghost predicate GenLinks(calls: seq<CallInfo<SQGenerator?>>, frames: seq<Frame>, gens: seq<SQGenerator>) {
    && |frames| == |calls| + 1
    && forall j, k :: 0 <= j < |calls| && k == j + 1 ==> calls[j].generator == GenAt(gens, frames[k].gen)
  }

  lemma LastLink(calls: seq<CallInfo<SQGenerator?>>, frames: seq<Frame>, gens: seq<SQGenerator>)
    requires GenLinks(calls, frames, gens) && calls != []
    ensures calls[|calls| - 1].generator == GenAt(gens, frames[|calls|].gen)
  {}

  lemma FewerLinks(calls: seq<CallInfo<SQGenerator?>>, frames: seq<Frame>, gens: seq<SQGenerator>)
    requires GenLinks(calls, frames, gens) && calls != []
    ensures GenLinks(calls[..|calls| - 1], frames[..|calls|], gens)
  {}

  lemma {:induction false} MoreLinks(calls: seq<CallInfo<SQGenerator?>>, frames: seq<Frame>, gens: seq<SQGenerator>,
                                     c: CallInfo<SQGenerator?>, f: Frame)
    requires GenLinks(calls, frames, gens) && c.generator == GenAt(gens, f.gen)
    ensures GenLinks(calls + [c], frames + [f], gens)
  {}

  lemma {:induction false} SameLinks(calls: seq<CallInfo<SQGenerator?>>, frames: seq<Frame>, gens: seq<SQGenerator>,
                                     c: CallInfo<SQGenerator?>, f: Frame)
    requires GenLinks(calls, frames, gens) && calls != [] && c.generator == GenAt(gens, f.gen)
    ensures GenLinks(Last(calls, c), frames[..|calls|] + [f], gens)
  {}

  lemma {:induction false} KillBooks(k: Books<SQGenerator?>, r: Ref, gens: seq<SQGenerator>)
    requires Fine(r) && Match(k, r.frames) && GenLinks(k.calls, r.frames, gens) && k.calls != [] && Cur(r).traps == []
    ensures Match(Idle(k), Kill(r).frames) && GenLinks(Idle(k).calls, Kill(r).frames, gens)
  {
    hide Fine, Kill, GenLinks, Match;
    CurFits(r);
    SplitTraps(k, r.frames);
    MatchSize(k, r.frames);
    var c, f, n := LastCall(k).(etraps := 0, generator := null), Cur(r).(gen := -1), |k.calls|;
    MatchCurrent(k, r.frames, c, f);
    SameLinks(k.calls, r.frames, gens, c, f);
    assert k.etraps[..|k.etraps| - 0] + [] == k.etraps;
    assert Kill(r).frames == Kill(r).frames[..n] + [Cur(Kill(r))];
    assert Kill(r).frames == r.frames[..n] + [f];
  }

  lemma {:induction false} MatchSize(k: Books<SQGenerator?>, frames: seq<Frame>)
    requires Match(k, frames)
    ensures |frames| == |k.calls| + 1 && frames[|k.calls|].base == k.base && frames[|k.calls|].top == k.top
    ensures k.calls != [] ==> Describes(LastCall(k), frames[|k.calls|])
  {}

  lemma {:induction false} LandedLinks(k: Books<SQGenerator?>, r: Ref, gens: seq<SQGenerator>)
    requires r.frames != [] && Cur(r).traps != [] && GenLinks(k.calls, r.frames, gens) && k.calls != []
             && k.etraps != []
    ensures var c, t := LastCall(k), k.etraps[|k.etraps| - 1];
      GenLinks(Last(k.calls, c.(ip := t.ip, etraps := c.etraps - 1)), Landed(r), gens)
  {}

  lemma ReversedTwice<T>(s: seq<T>)
    ensures Reversed(Reversed(s)) == s
  {}

  /** The books of a frame whose traps have gone. */
  lemma {:induction false} ParkedBooks(k: Books<SQGenerator?>, r: Ref, gens: seq<SQGenerator>)
    requires Fine(r) && Match(k, r.frames) && GenLinks(k.calls, r.frames, gens) && k.calls != []
    ensures var f := Cur(r); |f.traps| <= |k.etraps| && |r.frames| == |k.calls| + 1
    ensures var f := Cur(r);
      var i, frames := Idle(k), r.frames[..|k.calls|] + [f.(traps := [], gen := -1)];
      Match(i.(etraps := k.etraps[..|k.etraps| - |f.traps|]), frames) && GenLinks(i.calls, frames, gens)
  {
    hide Fine, GenLinks, Match;
    CurFits(r);
    SplitTraps(k, r.frames);
    MatchSize(k, r.frames);
    var c, f := LastCall(k).(etraps := 0, generator := null), Cur(r).(traps := [], gen := -1);
    MatchCurrent(k, r.frames, c, f);
    SameLinks(k.calls, r.frames, gens, c, f);
    var below := k.etraps[..|k.etraps| - |Cur(r).traps|];
    assert below + [] == below;
  }

  lemma {:induction false} LinksMore(calls: seq<CallInfo<SQGenerator?>>, frames: seq<Frame>, gens: seq<SQGenerator>,
                                     o: SQGenerator, refs: seq<Gen>)
    requires GenLinks(calls, frames, gens) && |gens| == |refs| && forall k :: 0 <= k < |frames| ==>
             frames[k].gen < |gens|
    ensures GenLinks(calls, frames, gens + [o])
  {}

  lemma {:induction false} TopLinks(calls: seq<CallInfo<SQGenerator?>>, frames: seq<Frame>, gens: seq<SQGenerator>,
                                    top: int)
    requires GenLinks(calls, frames, gens)
    ensures GenLinks(calls, frames[..|calls|] + [frames[|calls|].(top := top)], gens)
  {}

  /** A generator object looks as the reference says; a suspended one holds its traps last first. */
  ghost predicate GenLooks(o: SQGenerator, g: Gen)
    reads o
  {
    && o.state == g.state
    && (g.state == Suspended ==>
          && o.stack == g.stack && o.etraps == Reversed(g.traps) && o.ci.etraps == |g.traps|
          && o.ci.ip == g.ip && o.ci.ncalls == g.ncalls && o.ci.root == g.root)
    && (g.state == Running ==> o.etraps == [])
  }

  ghost predicate GensLook(gens: seq<SQGenerator>, refs: seq<Gen>)
    reads gens
  {
    && |gens| == |refs| && (forall j, k :: 0 <= j < k < |gens| ==> gens[j] != gens[k])
    && (forall k :: 0 <= k < |gens| ==> GenLooks(gens[k], refs[k]))
  }

  lemma GensSize(gens: seq<SQGenerator>, refs: seq<Gen>)
    requires GensLook(gens, refs)
    ensures |gens| == |refs|
  {}

  function Reversed<T>(s: seq<T>): (r: seq<T>)
    ensures |r| == |s| && forall i :: 0 <= i < |s| ==> r[i] == s[|s| - 1 - i]
  {
    seq(|s|, i requires 0 <= i < |s| => s[|s| - 1 - i])
  }

  class SQGenerator {
    var state: Status
    var stack: seq<Val>
    var ci: CallInfo<SQGenerator?>
    var etraps: seq<Trap>

    constructor ()
      ensures state == Running && etraps == []
    {
      state, stack, etraps := Running, [], [];
      ci := CallInfo(0, 0, 0, 0, false, 0, 0, null);
    }

    method Kill()
      modifies this`state, this`stack
      ensures state == Dead && stack == []
    {
      state, stack := Dead, [];
    }

    /** Takes the current frame of v off the stack, with its traps. */
    method Yield(v: SQVM, target: int) returns (ok: bool)
      requires v.Valid() && 0 <= v.stackbase < v.top < v.stack.Length && target <= v.top - v.stackbase
      requires v.calls != [] && 0 <= v.calls[|v.calls| - 1].etraps <= |v.etraps| && (state == Running ==> etraps == [])
      modifies this, v`b, v`etraps, v.stack
      ensures v.Valid() && ok == (old(state) == Running)
      ensures ok ==> var c, size := v.calls[|v.calls| - 1], v.top - v.stackbase;
        && state == Suspended && ci == c && Separate(old(v.b)) && v.top <= |old(v.b).slots|
        && stack == Saved(Slots(old(v.b), v.stackbase, size), target)
           && v.b == Store(old(v.b), v.stackbase, Nulls(size))
        && v.etraps == old(v.etraps)[..|old(v.etraps)| - c.etraps]
        && etraps == Reversed(old(v.etraps)[|old(v.etraps)| - c.etraps..])
      ensures !ok ==> state == old(state) && stack == old(stack) && etraps == old(etraps) && ci == old(ci)
      ensures !ok ==> v.b == old(v.b) && v.etraps == old(v.etraps)
    {
      hide Right, Separate, Store, WriteSlot;
      if state == Suspended || state == Dead { return false; }
      stack := v.SaveFrame(target);
      v.ClearFrame();
      ci := v.calls[|v.calls| - 1];
      TakeTraps(v);
      state := Suspended;
      return true;
    }

    method TakeTraps(v: SQVM)
      requires etraps == [] && 0 <= ci.etraps <= |v.etraps| && v.Valid()
      modifies this`etraps, v`etraps
      ensures v.Valid() && v.etraps == old(v.etraps)[..|old(v.etraps)| - ci.etraps]
      ensures etraps == Reversed(old(v.etraps)[|old(v.etraps)| - ci.etraps..])
    {
      hide Right, Separate;
      var i := 0;
      ghost var was := v.etraps;
      while i < ci.etraps
        invariant 0 <= i <= ci.etraps && |etraps| == i && v.Valid() && v.etraps == was[..|was| - i]
        invariant forall k :: 0 <= k < i ==> etraps[k] == was[|was| - 1 - k]
      {
        etraps := etraps + [v.etraps[|v.etraps| - 1]];
        v.etraps := v.etraps[..|v.etraps| - 1];
        i := i + 1;
      }
    }

    method GiveTraps(v: SQVM)
      requires |etraps| == ci.etraps && v.Valid()
      modifies this`etraps, v`etraps
      ensures v.Valid() && etraps == [] && v.etraps == old(v.etraps) + Reversed(old(etraps))
    {
      hide Right, Separate;
      var i := 0;
      ghost var was, mine := v.etraps, etraps;
      while i < ci.etraps
        invariant 0 <= i <= ci.etraps && |etraps| == |mine| - i && etraps == mine[..|etraps|] && v.Valid()
        invariant v.etraps == was + Reversed(mine)[..i]
      {
        v.etraps := v.etraps + [etraps[|etraps| - 1]];
        etraps := etraps[..|etraps| - 1];
        i := i + 1;
      }
    }

    /** Puts the saved slots back on the stack of v, and forgets all but the first. */
    method Refill(v: SQVM, alive: set<Val>)
      requires v.Valid() && stack != [] && 0 <= v.stackbase && v.stackbase + |stack| <= v.stack.Length
      modifies this`stack, v`b, v.stack
      ensures v.Valid() && Separate(old(v.b)) && v.stackbase + |old(stack)| <= |old(v.b).slots|
      ensures v.b == Store(old(v.b), v.stackbase, Unsaved(old(stack), alive))
    {
      hide Right, Separate, WriteSlot, Store;
      ghost var vals, b0 := Unsaved(stack, alive), v.b;
      StoreNext(b0, v.stackbase, vals, 0);
      var size, n := |stack|, 1;
      v.SetAt(v.stackbase, Restored(stack[0], alive));
      while n < size
        invariant 1 <= n <= size == |stack| == |vals| && v.Valid() && v.b.slots == b0.slots
        invariant forall k :: n <= k < size ==> stack[k] == vals[k]
        invariant Store(b0, v.stackbase, vals) == Store(v.b, v.stackbase + n, vals[n..])
      {
        StoreNext(v.b, v.stackbase, vals, n);
        v.SetAt(v.stackbase + n, stack[n]);
        stack := stack[n := Null];
        n := n + 1;
      }
      StoreNone(v.b, v.stackbase + n, vals[n..]);
    }

    /** Puts the frame back on top of the stack of v. */
    method Resume(v: SQVM, target: int, alive: set<Val>) returns (ok: bool)
      requires v.Valid() && 0 <= v.top && (state == Suspended ==> stack != [] && |etraps| == ci.etraps)
      requires state == Suspended ==> v.top + |stack| < Grown(v.stack.Length, v.top + |stack|, v.nmetamethodscall == 0)
      modifies this, v`calls, v`stackbase, v`top, v`stack, v`s, v`b, v`etraps, v.stack, v.s.look.Keys
      ensures v.Valid() && v.s.cell == old(v.s.cell) && v.s.look.Keys == old(v.s.look.Keys)
      ensures v.stack == old(v.stack) || fresh(v.stack)
      ensures old(state) != Suspended ==>
        !ok && v.Bk() == old(v.Bk()) && v.b == old(v.b) && state == old(state) && etraps == old(etraps)
      ensures old(state) == Suspended ==>
              ok == (!Tight(|old(v.b).slots|, old(v.top) + |old(stack)|) || v.nmetamethodscall == 0)
      ensures old(state) == Suspended ==> v.stackbase == old(v.top) && v.top == old(v.top) + |old(stack)|
      ensures old(state) == Suspended && !ok ==>
        && state == Suspended && stack == old(stack) && etraps == old(etraps) && ci == old(ci)
           && v.etraps == old(v.etraps)
        && v.calls == old(v.calls) + [NewCall(old(v.top) - old(v.stackbase), old(v.top) - old(v.stackbase))]
        && v.b == Room(old(v.b), v.top, v.nmetamethodscall == 0)
      ensures ok ==>
        && state == Running && etraps == [] && v.etraps == old(v.etraps) + Reversed(old(etraps))
        && v.calls == old(v.calls) + [ResumedCall(old(v.top) - old(v.stackbase), old(ci), target, this)]
        && Separate(old(v.b)) && v.top <= |Room(old(v.b), v.top, v.nmetamethodscall == 0).slots|
        && v.b == Store(Room(old(v.b), v.top, v.nmetamethodscall == 0), v.stackbase, Unsaved(old(stack), alive))
    {
      hide SQVM.Valid, Separate, Store, Room, Reversed, Unsaved;
      v.Sized();
      if state == Dead { return false; }
      if state == Running { return false; }
      ok := v.EnterFrame(v.top, v.top + |stack|, false);
      if !ok { return; }
      var c := v.calls[|v.calls| - 1];
      v.SetCall(c.(generator := this, target := target, ip := ci.ip, ncalls := ci.ncalls, etraps := ci.etraps,
                   root := ci.root));
      assert v.calls == old(v.calls) + [ResumedCall(old(v.top) - old(v.stackbase), ci, target, this)];
      GiveTraps(v);
      v.Sized();
      Refill(v, alive);
      state := Running;
    }
  }

  /** The call of a resumed generator. */
  function ResumedCall(base: int, ci: CallInfo<SQGenerator?>, target: int, o: SQGenerator): CallInfo<SQGenerator?> {
    CallInfo(base, base, ci.etraps, ci.ncalls, ci.root, target, ci.ip, o)
  }

  // ---------- Runs ----------

  /** Every run of calls, returns, traps, generators, captures, variable accesses and stack growth
      answers as the reference machine does, where variables are boxes and frames are absolute, and ends
      with the fields that stand for it.  A prefix of a run is a run, so this holds after each operation. */
  method RunAll(stacksize: nat, ops: seq<Op>) returns (outs: seq<Out>, vm: SQVM)
    requires stacksize > 0 && AllFit(Start(stacksize), ops)
    ensures outs == Run(Start(stacksize), ops).1
    ensures fresh(vm) && vm.Represents(Run(Start(stacksize), ops).0)
    ensures |vm.calls| + 1 == |Run(Start(stacksize), ops).0.frames| && |vm.etraps| == TrapCount(vm.calls)
    ensures vm.Valid() && Ordered(vm.s)
  {
    hide Step, Fits, Fine, Extend, SQVM.Represents;
    vm := new SQVM(stacksize);
    ghost var r := Start(stacksize);
    var hs: seq<Outer>, gs: seq<SQGenerator>, i := [], [], 0;
    outs := [];
    vm.Keys(r);
    while i < |ops|
      invariant 0 <= i <= |ops| && Fine(r) && AllFit(r, ops[i..])
      invariant Run(Start(stacksize), ops).1 == outs + Run(r, ops[i..]).1
      invariant Run(Start(stacksize), ops).0 == Run(r, ops[i..]).0
      invariant fresh(vm) && fresh(vm.stack) && vm.Represents(r) && vm.Held(hs, r.handles) && gs == vm.gens
      invariant vm.s.look.Keys == vm.s.cell.Keys && (forall o :: o in vm.s.cell.Keys ==> fresh(o))
      invariant forall k :: 0 <= k < |vm.gens| ==> fresh(vm.gens[k])
    {
      ghost var rest := ops[i..];
      assert rest[0] == ops[i] && rest[1..] == ops[i + 1..];
      StepFine(r, ops[i]);
      var out;
      out, hs, gs := vm.Do(r, ops[i], hs, gs);
      outs := outs + [out];
      r := Step(r, ops[i]).0;
      vm.Keys(r);
      i := i + 1;
    }
    vm.Balance(r);
  }
}
