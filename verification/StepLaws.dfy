/** What single operations of the reference machine do, slot by slot and frame by frame. */
module StepLaws {
  import opened CallFrames
  import opened FrameLaws

  // ---------- Tail calls ----------

  lemma {:induction false} MovedAt(b: Boxes, base: int, from: int, i: nat, nargs: nat, j: int)
    requires Separate(b) && i <= nargs && 0 <= base && 0 <= from && 0 <= j < |b.slots|
    requires base + from + nargs <= |b.slots| && base + nargs <= |b.slots|
    ensures At(Moved(b, base, from, i, nargs), j) == At(b, if base + i <= j < base + nargs then j + from else j)
    decreases nargs - i
  {
    hide Separate, WriteSlot, At;
    if i < nargs { MovedAt(WriteSlot(b, base + i, At(b, base + from + i)), base, from, i + 1, nargs, j); }
  }

  /** A tail call, refused or not, puts its arguments at the start of the frame, in order; every other slot
      keeps its value, and so do all other frames. */
  lemma TailCallMoves(r: Ref, from: int, nargs: nat, newtop: int, ip: int)
    requires Fine(r) && Fits(r, TailCall(from, nargs, newtop, ip))
    ensures var q, f := Step(r, TailCall(from, nargs, newtop, ip)).0, Cur(r);
      && Step(r, TailCall(from, nargs, newtop, ip)).1 == Flag(newtop + 15 <= |r.b.slots| || r.metas == 0)
      && Separate(r.b) && Separate(q.b) && |r.b.slots| <= |q.b.slots|
      && 0 <= f.base && f.base + from + nargs <= |r.b.slots| && f.base + nargs <= |r.b.slots|
      && (forall j :: f.base <= j < f.base + nargs ==> At(q.b, j) == At(r.b, j + from))
      && (forall j :: 0 <= j < |r.b.slots| && !(f.base <= j < f.base + nargs) ==> At(q.b, j) == At(r.b, j))
      && |q.frames| == |r.frames| && q.frames[..|r.frames| - 1] == r.frames[..|r.frames| - 1]
      && Cur(q) == f.(top := newtop, ncalls := f.ncalls + 1,
                      ip := if newtop + 15 <= |r.b.slots| || r.metas == 0 then ip else f.ip)
  {
    hide FramesFit, GensFit, Separate, Moved, Detach, Room;
    CurFits(r);
    var f, b := Cur(r), Detach(r.b, Cur(r).base);
    forall j | 0 <= j < |r.b.slots|
      ensures At(Moved(b, f.base, from, 0, nargs), j) ==
              At(r.b, if f.base <= j < f.base + nargs then j + from else j)
    {
      MovedAt(b, f.base, from, 0, nargs, j);
    }
    RoomAt(Moved(b, f.base, from, 0, nargs), newtop, r.metas == 0);
  }

  /** Making room keeps every slot. */
  lemma RoomAt(b: Boxes, newtop: int, mayGrow: bool)
    requires Separate(b)
    ensures var c := Room(b, newtop, mayGrow);
      && |c.slots| == |b.slots| + (if newtop + 15 > |b.slots| && mayGrow then 60 else 0)
      && forall j :: 0 <= j < |c.slots| ==> At(c, j) == if j < |b.slots| then At(b, j) else Null
  {}

  // ---------- Returns and yields ----------

  lemma CallerFits(r: Ref)
    requires Fine(r) && |r.frames| > 1
    ensures 0 <= r.frames[|r.frames| - 2].base && 0 <= r.frames[|r.frames| - 2].top < |r.b.slots| && Separate(r.b)
  {
    hide GensFit, Separate;
  }

  /** Leaving a frame clears the slots from the caller's top up to its own; no other slot changes. */
  lemma LeaveSlots(r: Ref)
    requires Fine(r) && |r.frames| > 1
    ensures var q, top := Leave(r), r.frames[|r.frames| - 2].top;
      && Separate(r.b) && Separate(q.b) && |q.b.slots| == |r.b.slots|
      && forall i :: 0 <= i < |r.b.slots| ==> At(q.b, i) == if top <= i <= Cur(r).top then Null else At(r.b, i)
  {
    hide FramesFit, GensFit, Wipe, Detach;
    CurFits(r);
    CallerFits(r);
  }

  /** What the caller finds after a return: v in the register it waits with, nothing in the slots from its
      top up, and everything else as it was. */
  ghost predicate Delivers(r: Ref, q: Ref, v: Val)
    requires Fine(r) && |r.frames| > 1
  {
    var f, c := Cur(r), r.frames[|r.frames| - 2];
    && Separate(q.b) && |q.b.slots| == |r.b.slots| && q.frames == r.frames[..|r.frames| - 1]
    && forall i :: 0 <= i < |r.b.slots| && i < f.base ==>
         At(q.b, i) == if c.top <= i <= f.top then Null
                       else if !f.root && f.target != -1 && i == c.base + f.target then v else At(r.b, i)
  }

  lemma ReturnedDelivers(r: Ref, arg0: int, arg1: int)
    requires Fine(r) && |r.frames| > 1 && (arg0 != 0xFF ==> 0 <= Cur(r).base + arg1 < |r.b.slots|)
    ensures Separate(r.b)
    ensures var v := if arg0 != 0xFF then At(r.b, Cur(r).base + arg1) else Null;
      var res := Returned(r, arg0, arg1);
      Delivers(r, res.0, v) && res.1 == if Cur(r).root then Value(v) else Nothing
  {
    hide FramesFit, GensFit, Separate, Leave, WriteSlot, At;
    CurFits(r);
    CallerFits(r);
    var f, c := Cur(r), r.frames[|r.frames| - 2];
    if f.root || f.target == -1 {
      LeaveSlots(r);
    } else {
      var v := if arg0 != 0xFF then At(r.b, f.base + arg1) else Null;
      var b := WriteSlot(r.b, c.base + f.target, v);
      BoxesFine(r, b);
      LeaveSlots(r.(b := b));
    }
  }

  /** Exactly the generator of the current frame dies with it. */
  lemma KillGens(r: Ref)
    requires Fine(r)
    ensures |Kill(r).gens| == |r.gens|
    ensures forall g :: 0 <= g < |r.gens| ==>
      Kill(r).gens[g].state == if g == Cur(r).gen then Dead else r.gens[g].state
  {
    hide FramesFit, Separate;
  }

  /** A return hands the value of its register, or null, to the register of the caller that waits for it, or
      out of a root frame; the generator that ran in the frame is dead. */
  lemma ReturnDelivers(r: Ref, arg0: int, arg1: int)
    requires Fine(r) && Fits(r, Return(arg0, arg1))
    ensures Separate(r.b) && |r.frames| > 1 && (arg0 != 0xFF ==> 0 <= Cur(r).base + arg1 < |r.b.slots|)
    ensures var res, v := Step(r, Return(arg0, arg1)), if arg0 != 0xFF then At(r.b, Cur(r).base + arg1) else Null;
      && Delivers(r, res.0, v) && res.1 == (if Cur(r).root then Value(v) else Nothing)
      && |res.0.gens| == |r.gens|
      && forall g :: 0 <= g < |r.gens| ==>
           res.0.gens[g].state == if g == Cur(r).gen then Dead else r.gens[g].state
  {
    hide FramesFit, GensFit, Separate, Returned, Kill;
    CurFits(r);
    KillGens(r);
    ReturnedDelivers(Kill(r), arg0, arg1);
  }

  /** A yield hands over the value of its register in the same way, and suspends its generator. */
  lemma YieldDelivers(r: Ref, arg0: int, arg1: int, target: int)
    requires Fine(r) && Fits(r, Yield(arg0, arg1, target)) && Cur(r).gen != -1 && (arg0 == 0xFF || arg1 != 0xFF)
    ensures Separate(r.b) && |r.frames| > 1 && (arg0 != 0xFF ==> 0 <= Cur(r).base + arg1 < |r.b.slots|)
    ensures var res, v := Step(r, Yield(arg0, arg1, target)),
                          if arg0 != 0xFF then At(r.b, Cur(r).base + arg1) else Null;
      && Delivers(r, res.0, v) && res.1 == (if Cur(r).root then Value(v) else Nothing)
      && |res.0.gens| == |r.gens|
      && forall g :: 0 <= g < |r.gens| ==>
           res.0.gens[g].state == if g == Cur(r).gen then Suspended else r.gens[g].state
  {
    hide FramesFit, GensFit, Separate, Returned, Parked, WriteSlot, At;
    CurFits(r);
    GenOf(r);
    YieldSuspends(r, arg0, arg1, target);
    var f := Cur(r);
    var p := Parked(r, f.gen, target);
    forall i | 0 <= i < f.base ensures At(p.b, i) == At(r.b, i) { ParkedBelow(r, f.gen, target, i); }
    if arg1 != 0xFF {
      var b := WriteSlot(p.b, f.base + arg1, At(r.b, f.base + arg1));
      BoxesFine(p, b);
      ReturnedDelivers(p.(b := b), arg0, arg1);
    } else {
      ReturnedDelivers(p, arg0, arg1);
    }
  }

  // ---------- Throws ----------

  /** Frame m is the one that catches: it has traps, and the frames above it have none and are not roots. */
  ghost predicate Catches(frames: seq<Frame>, m: nat) {
    0 < m < |frames| && frames[m].traps != [] && Open(frames, m + 1)
  }

  /** Frame m is the one that a throw leaves last. */
  ghost predicate Stops(frames: seq<Frame>, m: nat) {
    0 < m < |frames| && frames[m].traps == [] && frames[m].root && Open(frames, m + 1)
  }

  /** From frame m on there is neither a trap nor a root. */
  ghost predicate Open(frames: seq<Frame>, m: nat) {
    forall k :: m <= k < |frames| ==> frames[k].traps == [] && !frames[k].root
  }

  /** A throw passes frame k and clears slot i. */
  ghost predicate Passed(frames: seq<Frame>, m: nat, i: int) {
    forall k :: m <= k < |frames| ==> i < frames[k].top
  }

  /** The state after frame m has caught an error: its innermost trap is gone and says where to go on, with
      which top and base; the error is in the trap's register; the slots below all tops are as they were. */
  ghost predicate Caught(r: Ref, q: Ref, m: nat, error: Val)
    requires Fine(r) && m < |r.frames| && r.frames[m].traps != []
  {
    var n := |r.frames[m].traps| - 1;
    var t := r.frames[m].traps[n];
    var at := t.stackbase + t.extarget;
    && |q.frames| == m + 1 && Cur(q).ip == t.ip && Cur(q).top == t.stacksize && Cur(q).base == t.stackbase
    && Cur(q).traps == r.frames[m].traps[..n] && Cur(q).gen == r.frames[m].gen
    && Separate(q.b) && |q.b.slots| == |r.b.slots|
    && (0 <= at < t.stacksize && at < |r.b.slots| ==> At(q.b, at) == error)
    && forall i :: 0 <= i < |r.b.slots| && i < t.stacksize && i != at && Passed(r.frames, m, i) ==>
         At(q.b, i) == At(r.b, i)
  }

  /** A throw that is caught ends in the innermost frame with a trap, if no root frame comes before it. */
  lemma {:induction false} UnwindCaught(r: Ref, error: Val, lastTop: int, m: nat)
    requires Fine(r) && 0 <= lastTop < |r.b.slots| && Lands(r) && Catches(r.frames, m)
    ensures var u := Unwind(r, error, lastTop); u.1 && Caught(r, u.0, m, error)
    decreases |r.frames|
  {
    hide FramesFit, GensFit, Separate, Leave, Kill, Wipe, WriteSlot, At;
    CurFits(r);
    var n := |r.frames| - 1;
    if n > m {
      var l := Leave(Kill(r));
      LeaveSlots(Kill(r));
      assert l.frames == r.frames[..n];
      UnwindCaught(l, error, lastTop, m);
    }
  }

  /** If a root frame comes first, it is the last one left. */
  lemma {:induction false} UnwindStops(r: Ref, error: Val, lastTop: int, m: nat)
    requires Fine(r) && 0 <= lastTop < |r.b.slots| && Lands(r) && Stops(r.frames, m)
    ensures var u := Unwind(r, error, lastTop); !u.1 && u.0.frames == r.frames[..m]
    decreases |r.frames|
  {
    hide FramesFit, GensFit, Separate, Leave, Kill, Wipe, WriteSlot;
    CurFits(r);
    var n := |r.frames| - 1;
    assert Leave(Kill(r)).frames == r.frames[..n];
    if n > m {
      UnwindStops(Leave(Kill(r)), error, lastTop, m);
      assert r.frames[..n][..m] == r.frames[..m];
    }
  }

  /** Where there is neither, all frames but the outermost are left. */
  lemma {:induction false} UnwindAll(r: Ref, error: Val, lastTop: int)
    requires Fine(r) && 0 <= lastTop < |r.b.slots| && Lands(r) && Open(r.frames, 1)
    ensures var u := Unwind(r, error, lastTop); !u.1 && u.0.frames[..1] == r.frames[..1] && |u.0.frames| == 1
    decreases |r.frames|
  {
    hide FramesFit, GensFit, Separate, Leave, Kill, Wipe, WriteSlot;
    CurFits(r);
    var n := |r.frames| - 1;
    if n > 0 {
      assert Leave(Kill(r)).frames == r.frames[..n];
      UnwindAll(Leave(Kill(r)), error, lastTop);
    }
  }

  lemma {:induction false} UnwindGens(r: Ref, error: Val, lastTop: int)
    requires Fine(r) && 0 <= lastTop < |r.b.slots| && Lands(r)
    ensures |Unwind(r, error, lastTop).0.gens| == |r.gens|
    decreases |r.frames|
  {
    hide FramesFit, GensFit, Separate, Leave, Kill, Wipe, WriteSlot;
    CurFits(r);
    if Cur(r).traps == [] && |r.frames| > 1 {
      KillGens(r);
      if !Cur(r).root { UnwindGens(Leave(Kill(r)), error, lastTop); }
    }
  }

  /** The generator of a frame that a throw leaves is dead. */
  lemma {:induction false} UnwindKills(r: Ref, error: Val, lastTop: int, k: nat)
    requires Fine(r) && 0 <= lastTop < |r.b.slots| && Lands(r)
    requires var u := Unwind(r, error, lastTop).0; |u.frames| <= k < |r.frames|
    ensures var u := Unwind(r, error, lastTop).0;
      r.frames[k].gen != -1 ==> 0 <= r.frames[k].gen < |u.gens| && u.gens[r.frames[k].gen].state == Dead
    decreases |r.frames|
  {
    hide FramesFit, GensFit, Separate, Leave, Kill, Wipe, WriteSlot;
    CurFits(r);
    var n := |r.frames| - 1;
    if Cur(r).traps == [] && n > 0 {
      var l := Leave(Kill(r));
      KillGens(r);
      if Cur(r).gen != -1 { GenOf(r); }
      assert l.frames == r.frames[..n];
      if !Cur(r).root {
        var g := r.frames[k].gen;
        UnwindGens(l, error, lastTop);
        if k == n && g != -1 {
          UnwindKeeps(l, error, lastTop, g);
        } else if k < n {
          UnwindKills(l, error, lastTop, k);
        }
      }
    }
  }

  /** A throw meets a trap, a root frame, or the end of the frames. */
  lemma {:induction false} OneEnd(frames: seq<Frame>, k: nat)
    requires 0 < k <= |frames| && Open(frames, k)
    ensures (exists m: nat :: Catches(frames, m)) || (exists m: nat :: Stops(frames, m)) || Open(frames, 1)
    decreases k
  {
    if k > 1 {
      if frames[k - 1].traps != [] {
        assert Catches(frames, k - 1);
      } else if frames[k - 1].root {
        assert Stops(frames, k - 1);
      } else {
        OneEnd(frames, k - 1);
      }
    }
  }

  lemma NoneAbove(frames: seq<Frame>)
    ensures Open(frames, |frames|)
  {}

  /** Every throw: it is caught by the innermost frame with a trap unless a root frame comes first; then
      that one is the last to be left, and without either only the outermost frame remains. */
  lemma ThrowLands(r: Ref, error: Val)
    requires Fine(r) && Fits(r, Throw(error))
    ensures var res := Step(r, Throw(error));
      && (res.1 == Flag(true) <==> exists m: nat :: Catches(r.frames, m))
      && (forall m: nat :: Catches(r.frames, m) ==> Caught(r, res.0, m, error))
      && (forall m: nat :: Stops(r.frames, m) ==> res.0.frames == r.frames[..m])
      && (Open(r.frames, 1) ==> res.0.frames == r.frames[..1])
      && (forall k :: |res.0.frames| <= k < |r.frames| && r.frames[k].gen != -1 ==>
            0 <= r.frames[k].gen < |res.0.gens| && res.0.gens[r.frames[k].gen].state == Dead)
  {
    hide FramesFit, GensFit, Separate, Unwind, Open, Caught;
    CurFits(r);
    var top := Cur(r).top;
    NoneAbove(r.frames);
    OneEnd(r.frames, |r.frames|);
    if Open(r.frames, 1) {
      UnwindAll(r, error, top);
    }
    forall m: nat | Catches(r.frames, m) 
      ensures Unwind(r, error, top).1 && Caught(r, Unwind(r, error, top).0, m, error)
    {
      UnwindCaught(r, error, top, m);
    }
    forall m: nat | Stops(r.frames, m) 
      ensures !Unwind(r, error, top).1 && Unwind(r, error, top).0.frames == r.frames[..m]
    {
      UnwindStops(r, error, top, m);
    }
    var u := Unwind(r, error, top).0;
    forall k | |u.frames| <= k < |r.frames| && r.frames[k].gen != -1
      ensures 0 <= r.frames[k].gen < |u.gens| && u.gens[r.frames[k].gen].state == Dead
    {
      UnwindKills(r, error, top, k);
    }
  }

  /** A trap that was just pushed catches in its own frame: at its handler, with the error in its register. */
  lemma TrapCatches(r: Ref, handler: int, x: int, error: Val)
    requires Fine(r) && Fits(r, PushTrap(handler, x)) && Fine(Step(r, PushTrap(handler, x)).0)
    requires Fits(Step(r, PushTrap(handler, x)).0, Throw(error)) && Cur(r).base + x < Cur(r).top
    ensures var res, f := Step(Step(r, PushTrap(handler, x)).0, Throw(error)), Cur(r);
      && res.1 == Flag(true) && res.0.frames == r.frames[..|r.frames| - 1] + [f.(ip := handler)]
      && Separate(r.b) && Separate(res.0.b) && |res.0.b.slots| == |r.b.slots|
      && forall i :: 0 <= i < |r.b.slots| && i < f.top ==>
           At(res.0.b, i) == if i == f.base + x then error else At(r.b, i)
  {
    hide FramesFit, GensFit, Separate, Wipe, WriteSlot;
    CurFits(r);
    var f := Cur(r);
    var q := Step(r, PushTrap(handler, x)).0;
    CurFits(q);
    ShiftNone(q.frames[..|q.frames| - 1], 0);
    assert LastTrap(q) == Trap(f.top, f.base, handler, x);
    assert Cur(q).traps[..|Cur(q).traps| - 1] == f.traps;
  }

  /** Pushing a trap and dropping it again changes nothing. */
  lemma TrapDrops(r: Ref, handler: int, x: int)
    requires Fine(r) && Fits(r, PushTrap(handler, x)) && Fine(Step(r, PushTrap(handler, x)).0)
    ensures var q := Step(r, PushTrap(handler, x)).0; Fits(q, PopTrap(1)) && Step(q, PopTrap(1)) == (r, Nothing)
  {
    hide FramesFit, GensFit, Separate, StepWithin, Returned, Generated, Yielded, Resumed, Unwind, TailCalled, Called;
    CurFits(r);
    var q := Step(r, PushTrap(handler, x)).0;
    assert Cur(q).traps[..|Cur(q).traps| - 1] == Cur(r).traps;
    assert Step(q, PopTrap(1)).0.frames == r.frames;
  }

  // ---------- Variables ----------

  /** A slot holds what was last stored there. */
  lemma SlotStores(r: Ref, slot: int, v: Val)
    requires Fine(r) && Fits(r, SetSlot(slot, v))
    ensures var q, at := Step(r, SetSlot(slot, v)).0, Cur(r).base + slot;
      && q == r.(b := q.b) && Separate(r.b) && Separate(q.b) && q.b.slots == r.b.slots
      && (forall i :: 0 <= i < |r.b.slots| ==> At(q.b, i) == if i == at then v else At(r.b, i))
      && (forall c :: 0 <= c < |r.b.cells| && c != r.b.slots[at] ==> c < |q.b.cells| && q.b.cells[c] == r.b.cells[c])
      && Step(r, GetSlot(slot)) == (r, Value(At(r.b, at)))
  {
    hide FramesFit, GensFit;
    CurFits(r);
  }

  /** A closure captures the variable itself: as long as handle and slot have the same box, reading and
      writing through the closure is reading and writing the slot. */
  lemma CapturedIsSlot(r: Ref, k: nat, slot: int, v: Val)
    requires Fine(r) && Fits(r, GetSlot(slot)) && k < |r.handles| && r.handles[k] == r.b.slots[Cur(r).base + slot]
    ensures Step(r, GetOuter(k)) == Step(r, GetSlot(slot)) && Step(r, SetOuter(k, v)) == Step(r, SetSlot(slot, v))
  {
    hide FramesFit, GensFit;
    CurFits(r);
  }

  /** Capturing gives a new handle that has the box of the slot; inheriting one, that of the handle. */
  lemma CaptureShares(r: Ref, slot: int, k: nat)
    requires Fine(r) && Fits(r, Capture(slot)) && k < |r.handles|
    ensures var c, i := Step(r, Capture(slot)).0, Step(r, Inherit(k)).0;
      && 0 <= Cur(r).base + slot < |r.b.slots| && c == r.(handles := c.handles) && i == r.(handles := i.handles)
      && |c.handles| == |r.handles| + 1 == |i.handles|
      && c.handles[..|r.handles|] == r.handles == i.handles[..|r.handles|]
      && c.handles[|r.handles|] == r.b.slots[Cur(r).base + slot] && i.handles[|r.handles|] == r.handles[k]
  {
    hide FramesFit, GensFit, Separate;
    CurFits(r);
  }

  /** Writing a captured variable, on the stack or off it, is seen through every handle that has its box and
      through no other. */
  lemma OuterStores(r: Ref, k: nat, j: nat, v: Val)
    requires Fine(r) && k < |r.handles| && j < |r.handles| && Fine(Step(r, SetOuter(k, v)).0)
    ensures var q := Step(r, SetOuter(k, v)).0;
      && q == r.(b := q.b) && q.b.slots == r.b.slots
      && Step(q, GetOuter(j)).1 == if r.handles[j] == r.handles[k] then Value(v) else Step(r, GetOuter(j)).1
  {
    hide FramesFit, GensFit, Separate;
  }

  /** Closing splits the variables from a slot on off the stack: the slots keep their values in boxes of
      their own, and the closures keep the old boxes, which hold those values too.  Variables below are
      still shared. */
  lemma CloseSplits(r: Ref, slot: int)
    requires Fine(r) && Fits(r, CloseFrom(slot))
    ensures var q, n := Step(r, CloseFrom(slot)).0, Cur(r).base + slot;
      && q == r.(b := q.b) && Separate(r.b) && Separate(q.b) && |q.b.slots| == |r.b.slots|
      && (forall i :: 0 <= i < |r.b.slots| ==>
            && At(q.b, i) == At(r.b, i)
            && (i < n ==> q.b.slots[i] == r.b.slots[i])
            && (i >= n ==> Private(q.b, r.b.slots[i]) && q.b.cells[r.b.slots[i]] == At(r.b, i)))
  {
    hide FramesFit, GensFit;
    CurFits(r);
  }

  /** Pushing and popping: the pushed value is on top; popped slots become null. */
  lemma PushPops(r: Ref, v: Val, n: nat)
    requires Fine(r) && Fits(r, Push(v)) && Fits(r, Pop(n))
    ensures var p, q, f := Step(r, Push(v)).0, Step(r, Pop(n)).0, Cur(r);
      && Separate(r.b) && Separate(p.b) && Separate(q.b) && p.b.slots == r.b.slots == q.b.slots
      && p.frames == r.frames[..|r.frames| - 1] + [f.(top := f.top + 1)]
      && q.frames == r.frames[..|r.frames| - 1] + [f.(top := f.top - n)]
      && forall i :: 0 <= i < |r.b.slots| ==>
           && At(p.b, i) == (if i == f.top then v else At(r.b, i))
           && At(q.b, i) == (if f.top - n <= i < f.top then Null else At(r.b, i))
  {
    hide FramesFit, GensFit, Wipe, WriteSlot;
    CurFits(r);
  }

  // ---------- Calls ----------

  /** A call, native or not, finds every slot as it was; a stack that is tight has 60 more slots, all null,
      unless a metamethod is running, and then the call is refused. */
  lemma CallKeepsSlots(r: Ref, op: Op, newtop: int)
    requires Fine(r) && Fits(r, op) && (op.Call? || op.Native?) && newtop == op.newtop
    ensures var res, tight := Step(r, op), newtop + 15 > |r.b.slots|;
      && res.1 == Flag(!tight || r.metas == 0)
      && Separate(r.b) && Separate(res.0.b) && res.0.handles == r.handles && res.0.gens == r.gens
      && |res.0.b.slots| == |r.b.slots| + (if tight && r.metas == 0 then 60 else 0)
      && forall i :: 0 <= i < |res.0.b.slots| ==>
           At(res.0.b, i) == if i < |r.b.slots| then At(r.b, i) else Null
  {
    hide FramesFit, GensFit, Room;
    CurFits(r);
    RoomAt(r.b, newtop, r.metas == 0);
  }

  /** The frame that a native call gives, refused or not. */
  lemma NativeFrame(r: Ref, newbase: int, newtop: int)
    requires Fine(r) && Fits(r, Native(newbase, newtop))
    ensures Step(r, Native(newbase, newtop)).0.frames == r.frames + [Frame(newbase, newtop, [], 1, false, -1, 0, -1)]
  {
    hide FramesFit, GensFit, Separate, Room;
  }

  /** A code position is set in the current frame alone; metamethod calls are counted up and down. */
  lemma MarksSteps(r: Ref, ip: int)
    requires Fine(r) && |r.frames| > 1
    ensures Step(r, Go(ip)).0 == r.(frames := r.frames[..|r.frames| - 1] + [Cur(r).(ip := ip)])
    ensures var q := Step(r, BeginMeta).0;
      q == r.(metas := r.metas + 1) && (Fine(q) ==> Step(q, EndMeta) == (r, Nothing))
  {
    hide FramesFit, GensFit, Separate;
  }

  /** The frame that a call gives. */
  lemma CallFrame(r: Ref, newbase: int, newtop: int, target: int, root: bool, ip: int)
    requires Fine(r) && Fits(r, Call(newbase, newtop, target, root, ip))
    requires newtop + 15 <= |r.b.slots| || r.metas == 0
    ensures Step(r, Call(newbase, newtop, target, root, ip)).0.frames ==
      r.frames + [Frame(newbase, newtop, [], 1, root, target, ip, -1)]
  {
    hide FramesFit, GensFit, Separate, Room;
  }

  /** Only a suspended generator can be resumed; a frame without a generator cannot yield. */
  lemma Refused(r: Ref, op: Op)
    requires Fine(r) && Fits(r, op)
    requires (op.Resume? && r.gens[op.g].state != Suspended) || (op.Yield? && Cur(r).gen == -1)
    ensures Step(r, op) == (r, Flag(false))
  {
    hide FramesFit, GensFit, Separate;
    CurFits(r);
  }

  /** What a generator call puts away: the whole new frame, with its code position and no traps; its `this` only
      weakly. */
  ghost predicate Holds(gen: Gen, b: Boxes, base: int, size: nat, ip: int)
    requires Separate(b) && 0 <= base
  {
    && gen.state == Suspended && gen.traps == [] && gen.ip == ip && |gen.stack| == size
    && (forall n :: 1 <= n < size ==> gen.stack[n] == if base + n < |b.slots| then At(b, base + n) else Null)
    && (size > 0 ==>
          var v := if base < |b.slots| then At(b, base) else Null;
          gen.stack[0] == if v.Object? || v.Generator? || v.Weak? then Weak(v) else v)
  }

  lemma DeliveredGens(r: Ref, target: int)
    requires Fine(r) && |r.frames| > 1 && r.gens != [] && Cur(r).base < Cur(r).top
    requires forall k :: 0 <= k < |r.frames| ==> r.frames[k].gen != |r.gens| - 1
    requires 0 <= Cur(r).base + target < |r.b.slots| && 0 <= r.frames[|r.frames| - 2].base + target < |r.b.slots|
    ensures Separate(r.b) && 0 <= Cur(r).base < Cur(r).top <= |r.b.slots|
    ensures var f, g := Cur(r), |r.gens| - 1;
      var saved := Saved(Slots(r.b, f.base, f.top - f.base), f.top - f.base);
      Delivered(r, target).0.gens == r.gens[g := Gen(Suspended, saved, f.traps, f.ip, f.ncalls, f.root)]
  {
    hide FramesFit, GensFit, Separate, WriteSlot, Store, Slots, Saved;
    CurFits(r);
  }

  /** A generator call that succeeds makes one new generator, which holds the frame of the call. */
  lemma GenerateHolds(r: Ref, newbase: int, newtop: int, target: int, ip: int)
    requires Fine(r) && Fits(r, Generate(newbase, newtop, target, ip))
    requires Step(r, Generate(newbase, newtop, target, ip)).1 == Flag(true)
    ensures var q := Step(r, Generate(newbase, newtop, target, ip)).0;
      && |q.gens| == |r.gens| + 1 && q.gens[..|r.gens|] == r.gens && Separate(r.b) && 0 <= newbase < newtop
      && Holds(q.gens[|r.gens|], r.b, newbase, newtop - newbase, ip)
  {
    hide FramesFit, GensFit, Delivered, Separate;
    CurFits(r);
    CalledFine(r, newbase, newtop, target, false, ip);
    var e := Called(r, newbase, newtop, target, false, ip).0;
    RoomAt(r.b, newtop, r.metas == 0);
    DeliveredGens(Born(e), target);
  }
}
