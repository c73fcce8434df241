/** The steps of the reference machine spelled out, one by one, as far as the interpreter needs them. */
module FrameSteps {
  import opened CallFrames

  lemma StoreNext(b: Boxes, at: int, vals: seq<Val>, n: nat)
    requires Separate(b) && 0 <= at && at + |vals| <= |b.slots| && n < |vals|
    ensures vals[n + 1..] == vals[n..][1..]
    ensures Store(b, at + n, vals[n..]) == Store(WriteSlot(b, at + n, vals[n]), at + n + 1, vals[n + 1..])
    ensures n == 0 ==> vals[0..] == vals
  {
    hide WriteSlot;
    assert vals[n..][0] == vals[n] && vals[n..][1..] == vals[n + 1..];
  }

  lemma StoreNone(b: Boxes, at: int, vals: seq<Val>)
    requires Separate(b) && 0 <= at <= |b.slots| && vals == []
    ensures Store(b, at, vals) == b
  {}

  lemma RoomSteps(b: Boxes, newtop: int, mayGrow: bool)
    requires Separate(b)
    ensures Room(b, newtop, mayGrow) == if Tight(|b.slots|, newtop) && mayGrow then Extend(b, MIN_STACK_OVERHEAD * 4)
            else b
  {}

  lemma LeaveIs(r: Ref)
    requires Fine(r) && |r.frames| > 1
    ensures Separate(r.b) && 0 <= Cur(r).base <= |r.b.slots| && Cur(r).top < |r.b.slots|
            && 0 <= r.frames[|r.frames| - 2].top
    ensures var n := |r.frames| - 1;
      Leave(r) == r.(b := Wipe(Detach(r.b, Cur(r).base), r.frames[n - 1].top, Cur(r).top), frames := r.frames[..n])
  {}

  /** The frame that a call pushes. */
  function CallFrame(newbase: int, newtop: int, target: int, root: bool, ip: int, ok: bool): Frame {
    Frame(newbase, newtop, [], 1, ok && root, if ok then target else -1, if ok then ip else 0, -1)
  }

  lemma CallStep(r: Ref, newbase: int, newtop: int, target: int, root: bool, ip: int)
    requires Fine(r) && Fits(r, Call(newbase, newtop, target, root, ip))
    ensures var ok := !Tight(|r.b.slots|, newtop) || r.metas == 0;
      Separate(r.b) && Step(r, Call(newbase, newtop, target, root, ip)) ==
        (r.(b := Room(r.b, newtop, r.metas == 0),
            frames := r.frames + [CallFrame(newbase, newtop, target, root, ip, ok)]), Flag(ok))
  {}

  lemma TailCallStep(r: Ref, from: int, nargs: nat, newtop: int, ip: int)
    requires Fine(r) && Fits(r, TailCall(from, nargs, newtop, ip))
    ensures var f, ok, size := Cur(r), !Tight(|r.b.slots|, newtop) || r.metas == 0, |r.b.slots|;
      && |r.frames| > 1 && 0 <= from && f.base + from + nargs <= size && f.base + nargs <= size && Separate(r.b)
         && 0 <= f.base <= size
      && Step(r, TailCall(from, nargs, newtop, ip)) ==
           (r.(b := Room(Moved(Detach(r.b, f.base), f.base, from, 0, nargs), newtop, r.metas == 0),
               frames := r.frames[..|r.frames| - 1]
               + [f.(top := newtop, ncalls := f.ncalls + 1, ip := if ok then ip else f.ip)]),
            Flag(ok))
  {
    hide Moved, Room, Detach, GensFit;
  }

  lemma ReturnedIs(r: Ref, arg0: int, arg1: int)
    requires Fine(r) && |r.frames| > 1 && (arg0 != 0xFF ==> 0 <= Cur(r).base + arg1 < |r.b.slots|)
    ensures Separate(r.b)
    ensures var f := Cur(r); var v := if arg0 != 0xFF then At(r.b, f.base + arg1) else Null;
      && (f.root ==> Returned(r, arg0, arg1) == (Leave(r), Value(v)))
      && (!f.root && f.target == -1 ==> Returned(r, arg0, arg1) == (Leave(r), Nothing))
      && (!f.root && f.target != -1 ==>
            && 0 <= r.frames[|r.frames| - 2].base + f.target < |r.b.slots|
            && var r1 := r.(b := WriteSlot(r.b, r.frames[|r.frames| - 2].base + f.target, v));
               Fine(r1) && Returned(r, arg0, arg1) == (Leave(r1), Nothing))
  {
    hide FramesFit, GensFit, Leave, WriteSlot, At;
    CurFits(r);
    var f := Cur(r);
    if !f.root && f.target != -1 {
      var v := if arg0 != 0xFF then At(r.b, f.base + arg1) else Null;
      BoxesFine(r, WriteSlot(r.b, r.frames[|r.frames| - 2].base + f.target, v));
    }
  }

  lemma KillIs(r: Ref)
    requires Fine(r)
    ensures var f := Cur(r);
      if f.gen == -1 then Kill(r) == r else
      && 0 <= f.gen < |r.gens|
      && Kill(r) == r.(frames := r.frames[..|r.frames| - 1] + [f.(gen := -1)],
                       gens := r.gens[f.gen := r.gens[f.gen].(state := Dead, stack := [])])
  {}

  lemma PopNone(r: Ref, n: nat)
    requires Fine(r) && Fits(r, PopTrap(n))
    ensures Fits(r, PopTrap(0)) && Step(r, PopTrap(0)).0 == r
  {
    hide FramesFit, GensFit;
    CurFits(r);
    var f := Cur(r);
    assert f.traps[..|f.traps|] == f.traps && r.frames[..|r.frames| - 1] + [f] == r.frames;
  }

  lemma PopMore(r: Ref, i: nat, n: nat)
    requires Fine(r) && Fits(r, PopTrap(n)) && i < n
    ensures Fits(r, PopTrap(i)) && Fits(r, PopTrap(i + 1))
    ensures var cur := Step(r, PopTrap(i)).0;
      Fine(cur) && Fits(cur, PopTrap(1)) && Step(cur, PopTrap(1)).0 == Step(r, PopTrap(i + 1)).0
  {
    hide Separate, FramesFit, GensFit;
    CurFits(r);
    StepFine(r, PopTrap(i));
    var f, cur := Cur(r), Step(r, PopTrap(i)).0;
    assert cur.frames[..|cur.frames| - 1] == r.frames[..|r.frames| - 1];
    assert f.traps[..|f.traps| - i][..|f.traps| - i - 1] == f.traps[..|f.traps| - (i + 1)];
  }

  lemma ThrowStep(r: Ref, error: Val)
    requires Fine(r) && Fits(r, Throw(error))
    ensures Lands(r) && 0 <= Cur(r).top < |r.b.slots|
    ensures var u := Unwind(r, error, Cur(r).top); Step(r, Throw(error)) == (u.0, Flag(u.1))
  {
    hide FramesFit, GensFit, Unwind;
    CurFits(r);
  }

  lemma UnwindOnce(r: Ref, error: Val, lastTop: int)
    requires Fine(r) && 0 <= lastTop < |r.b.slots| && Lands(r)
    ensures |r.frames| == 1 ==> Unwind(r, error, lastTop) == (r, false)
    ensures Cur(r).traps != [] ==> Unwind(r, error, lastTop).1
    ensures Cur(r).traps == [] && |r.frames| > 1 ==>
      if Cur(r).root then Unwind(r, error, lastTop) == (Leave(Kill(r)), false)
      else Lands(Leave(Kill(r))) && Unwind(r, error, lastTop) == Unwind(Leave(Kill(r)), error, lastTop)
  {
    hide GensFit, Leave, Kill, Wipe, WriteSlot;
    CurFits(r);
  }

  lemma CaughtIs(r: Ref, error: Val, lastTop: int)
    requires Fine(r) && Cur(r).traps != [] && 0 <= lastTop < |r.b.slots| && Lands(r)
    ensures var t := LastTrap(r);
      && 0 <= t.stackbase + t.extarget < |r.b.slots| && 0 <= t.stacksize && Separate(r.b)
         && Fine(Unwind(r, error, lastTop).0)
      && Unwind(r, error, lastTop).0 ==
           r.(b := Wipe(WriteSlot(r.b, t.stackbase + t.extarget, error), t.stacksize, lastTop), frames := Landed(r))
  {
    hide GensFit, Wipe, WriteSlot, FramesFit, Landed;
    CurFits(r);
  }

  lemma ParkedIs(r: Ref, g: int, target: int)
    requires Fine(r) && 0 <= g < |r.gens| && Cur(r).base < Cur(r).top
    requires forall k :: 0 <= k < |r.frames| - 1 ==> r.frames[k].gen != g
    ensures var f := Cur(r);
      && Separate(r.b) && 0 <= f.base && f.top < |r.b.slots| && Fine(Parked(r, g, target))
      && var gen := Gen(Suspended, Saved(Slots(r.b, f.base, f.top - f.base), target), f.traps, f.ip, f.ncalls, f.root);
         Parked(r, g, target) == r.(b := Store(r.b, f.base, Nulls(f.top - f.base)), gens := r.gens[g := gen],
                                    frames := r.frames[..|r.frames| - 1] + [f.(traps := [], gen := -1)])
  {
    hide FramesFit, GensFit, Store;
    CurFits(r);
  }

  lemma YieldStep(r: Ref, arg0: int, arg1: int, target: int)
    requires Fine(r) && Fits(r, Yield(arg0, arg1, target))
    ensures var f := Cur(r);
      if f.gen == -1 then Step(r, Yield(arg0, arg1, target)) == (r, Flag(false)) else
      && |r.frames| > 1 && 0 <= f.gen < |r.gens| && r.gens[f.gen].state == Running && f.base < f.top
         && target <= f.top - f.base
      && (forall k :: 0 <= k < |r.frames| - 1 ==> r.frames[k].gen != f.gen)
      && (arg0 != 0xFF || arg1 != 0xFF ==> 0 <= f.base + arg1 < |r.b.slots|) && Separate(r.b)
      && var p := Parked(r, f.gen, target);
         && |p.b.slots| == |r.b.slots| && Separate(p.b) && |p.frames| == |r.frames| && Cur(p).base == f.base
         && (arg1 == 0xFF ==> Step(r, Yield(arg0, arg1, target)) == Returned(p, arg0, arg1))
         && (arg1 != 0xFF ==>
               var q := p.(b := WriteSlot(p.b, f.base + arg1, At(r.b, f.base + arg1)));
               Fine(q) && Step(r, Yield(arg0, arg1, target)) == Returned(q, arg0, arg1))
  {
    hide FramesFit, GensFit, Parked, Returned, WriteSlot, At;
    CurFits(r);
    if Cur(r).gen != -1 {
      GenOf(r);
      var p := Parked(r, Cur(r).gen, target);
      if arg1 != 0xFF { BoxesFine(p, WriteSlot(p.b, Cur(r).base + arg1, At(r.b, Cur(r).base + arg1))); }
    }
  }

  lemma GenerateStep(r: Ref, newbase: int, newtop: int, target: int, ip: int)
    requires Fine(r) && Fits(r, Generate(newbase, newtop, target, ip))
    ensures Fits(r, Call(newbase, newtop, target, false, ip)) && 0 <= Cur(r).base + target < |r.b.slots|
    ensures var e := Step(r, Call(newbase, newtop, target, false, ip));
      && Fine(e.0) && |e.0.frames| == |r.frames| + 1 && e.0.frames[|r.frames| - 1] == Cur(r) && e.0.gens == r.gens
      && Cur(e.0).base == newbase < newtop == Cur(e.0).top && 0 <= newbase + target < |e.0.b.slots|
         && |e.0.b.slots| >= |r.b.slots|
      && e.1.Flag? && Step(r, Generate(newbase, newtop, target, ip)) == if e.1.ok then Delivered(Born(e.0), target)
         else e
  {
    hide FramesFit, GensFit, Delivered, Room, Separate;
    CurFits(r);
    CalledFine(r, newbase, newtop, target, false, ip);
  }

  /** The frame that a resumption pushes. */
  function ResumeFrame(r: Ref, g: nat, target: int, ok: bool): Frame
    requires r.frames != [] && g < |r.gens|
  {
    var gen, base := r.gens[g], Cur(r).top;
    if ok then Frame(base, base + |gen.stack|, gen.traps, gen.ncalls, gen.root, target, gen.ip, g)
    else Frame(base, base + |gen.stack|, [], 1, false, -1, 0, -1)
  }

  lemma ResumeStep(r: Ref, g: nat, target: int, alive: set<Val>)
    requires Fine(r) && Fits(r, Resume(g, target, alive))
    ensures g < |r.gens| && Separate(r.b) && 0 <= Cur(r).top < |r.b.slots|
    ensures r.gens[g].state != Suspended ==> Step(r, Resume(g, target, alive)) == (r, Flag(false))
    ensures r.gens[g].state == Suspended ==>
      var gen, newtop := r.gens[g], Cur(r).top + |r.gens[g].stack|;
      var ok, room := !Tight(|r.b.slots|, newtop) || r.metas == 0, Room(r.b, newtop, r.metas == 0);
      && gen.stack != [] && newtop < Grown(|r.b.slots|, newtop, r.metas == 0) && newtop <= |room.slots|
      && Step(r, Resume(g, target, alive)) ==
           if ok then
             (r.(b := Store(room, Cur(r).top, Unsaved(gen.stack, alive)),
                 frames := r.frames + [ResumeFrame(r, g, target, true)],
                 gens := r.gens[g := gen.(state := Running, stack := [], traps := [])]), Flag(true))
           else (r.(b := room, frames := r.frames + [ResumeFrame(r, g, target, false)]), Flag(false))
  {
    hide FramesFit, GensFit, Store, Room;
    CurFits(r);
    if r.gens[g].state == Suspended { SuspendedFits(r, g); }
  }

  lemma BornIs(r: Ref)
    requires Fine(r)
    ensures Born(r) == r.(gens := r.gens + [Newborn])
  {}

  lemma GenRange(r: Ref)
    requires Fine(r)
    ensures forall k :: 0 <= k < |r.frames| ==> r.frames[k].gen < |r.gens|
  {}

  /** What the dispatch needs to know about an operation. */
  lemma OpFacts(r: Ref, op: Op)
    requires Fine(r) && Fits(r, op)
    ensures op.Yield? && |r.frames| == 1 ==> Step(r, op) == (r, Flag(false))
    ensures op.Resume? ==> op.g < |r.gens|
    ensures op.Inherit? ==>
            op.k < |r.handles| && Step(r, op).1 == Nothing && Step(r, op).0.handles == r.handles + [r.handles[op.k]]
    ensures op.Capture? ==> r.frames != [] && 0 <= Cur(r).base + op.slot < |r.b.slots| && Step(r, op).1 == Nothing
    ensures op.Capture? ==> Step(r, op).0.handles == r.handles + [r.b.slots[Cur(r).base + op.slot]]
    ensures !op.Inherit? && !op.Capture? ==> Step(r, op).0.handles == r.handles
    ensures op.LeaveNative? ==> |r.frames| > 1 && Cur(r).traps == [] && Cur(r).gen == -1 && Step(r, op) == (Leave(r),
            Nothing)
    ensures op.Go? || op.PushTrap? || op.PopTrap? || op.Push? || op.Pop? ==> Step(r, op).1 == Nothing
  {
    hide FramesFit, Separate, Store, Room, WriteSlot, Moved, Detach, Wipe;
    CurFits(r);
  }
}
