/** What the reference machine promises over whole runs: closed variables, callers' frames, generators. */
module FrameLaws {
  import opened CallFrames

  // ---------- Closed variables ----------

  /** Box c is not behind any slot: its variable has left the stack. */
  ghost predicate Private(b: Boxes, c: nat) { c < |b.cells| && c !in b.slots }

  lemma {:induction false} WipePrivate(b: Boxes, lo: int, hi: int, c: nat)
    requires Separate(b) && 0 <= lo && hi < |b.slots| && Private(b, c)
    ensures Private(Wipe(b, lo, hi), c) && Wipe(b, lo, hi).cells[c] == b.cells[c]
    decreases hi - lo
  {
    if lo <= hi { WipePrivate(WriteSlot(b, hi, Null), lo, hi - 1, c); }
  }

  lemma {:induction false} MovedPrivate(b: Boxes, base: int, from: int, i: nat, nargs: nat, c: nat)
    requires Separate(b) && i <= nargs && 0 <= base && 0 <= from && Private(b, c)
    requires base + from + nargs <= |b.slots| && base + nargs <= |b.slots|
    ensures Private(Moved(b, base, from, i, nargs), c) && Moved(b, base, from, i, nargs).cells[c] == b.cells[c]
    decreases nargs - i
  {
    if i < nargs { MovedPrivate(WriteSlot(b, base + i, At(b, base + from + i)), base, from, i + 1, nargs, c); }
  }

  /** Detaching makes the boxes of the detached slots private, with what they held. */
  lemma DetachPrivate(b: Boxes, n: int, c: nat)
    requires Separate(b) && 0 <= n <= |b.slots| && c < |b.cells| && c !in b.slots[..n]
    ensures Private(Detach(b, n), c) && Detach(b, n).cells[c] == b.cells[c]
  {}

  lemma RoomPrivate(b: Boxes, newtop: int, mayGrow: bool, c: nat)
    requires Separate(b) && Private(b, c)
    ensures Private(Room(b, newtop, mayGrow), c) && Room(b, newtop, mayGrow).cells[c] == b.cells[c]
  {}

  /** Leaving a frame closes its captured variables, and each keeps its value. */
  lemma LeaveCloses(r: Ref, c: nat)
    requires Fine(r) && |r.frames| > 1 && c < |r.b.cells| && c !in r.b.slots[..Cur(r).base]
    ensures Private(Leave(r).b, c) && Leave(r).b.cells[c] == r.b.cells[c]
  {
    hide Private, Wipe, Detach;
    var n := |r.frames| - 1;
    DetachPrivate(r.b, Cur(r).base, c);
    WipePrivate(Detach(r.b, Cur(r).base), r.frames[n - 1].top, r.frames[n].top, c);
  }

  /** Leaving a frame leaves the variables of the caller in their boxes, with what they held. */
  lemma LeaveKeeps(r: Ref, i: int)
    requires Fine(r) && |r.frames| > 1 && 0 <= i < Cur(r).base && i < r.frames[|r.frames| - 2].top
    ensures Leave(r).b.slots[i] == r.b.slots[i] && At(Leave(r).b, i) == At(r.b, i)
  {}

  lemma {:induction false} StorePrivate(b: Boxes, at: int, vals: seq<Val>, c: nat)
    requires Separate(b) && 0 <= at && at + |vals| <= |b.slots| && Private(b, c)
    ensures Private(Store(b, at, vals), c) && Store(b, at, vals).cells[c] == b.cells[c]
    decreases |vals|
  {
    if vals != [] { StorePrivate(WriteSlot(b, at, vals[0]), at + 1, vals[1..], c); }
  }

  lemma ReturnedPrivate(r: Ref, arg0: int, arg1: int, c: nat)
    requires Fine(r) && |r.frames| > 1 && (arg0 != 0xFF ==> 0 <= Cur(r).base + arg1 < |r.b.slots|) && Private(r.b, c)
    ensures var b := Returned(r, arg0, arg1).0.b; Private(b, c) && b.cells[c] == r.b.cells[c]
  {
    hide FramesFit, GensFit, Leave, Separate;
    var f, n := Cur(r), |r.frames| - 1;
    CurFits(r);
    if f.root || f.target == -1 {
      LeaveCloses(r, c);
    } else {
      var v := if arg0 != 0xFF then At(r.b, f.base + arg1) else Null;
      var b := WriteSlot(r.b, r.frames[n - 1].base + f.target, v);
      BoxesFine(r, b);
      LeaveCloses(r.(b := b), c);
    }
  }

  lemma ParkedPrivate(r: Ref, g: int, target: int, c: nat)
    requires Fine(r) && 0 <= g < |r.gens| && Cur(r).base < Cur(r).top
    requires forall k :: 0 <= k < |r.frames| - 1 ==> r.frames[k].gen != g
    requires Private(r.b, c)
    ensures var b := Parked(r, g, target).b; Private(b, c) && b.cells[c] == r.b.cells[c]
  {
    hide Store, Private;
    CurFits(r);
    StorePrivate(r.b, Cur(r).base, Nulls(Cur(r).top - Cur(r).base), c);
  }

  lemma YieldedPrivate(r: Ref, arg0: int, arg1: int, target: int, c: nat)
    requires Fine(r) && Fits(r, Yield(arg0, arg1, target)) && Cur(r).gen != -1 && Private(r.b, c)
    ensures var b := Yielded(r, arg0, arg1, target).0.b; Private(b, c) && b.cells[c] == r.b.cells[c]
  {
    hide FramesFit, GensFit, Parked, Returned, Separate;
    CurFits(r);
    GenOf(r);
    ParkedPrivate(r, Cur(r).gen, target, c);
    var p := Parked(r, Cur(r).gen, target);
    if arg1 == 0xFF {
      ReturnedPrivate(p, arg0, arg1, c);
    } else {
      var b := WriteSlot(p.b, Cur(r).base + arg1, At(r.b, Cur(r).base + arg1));
      BoxesFine(p, b);
      ReturnedPrivate(p.(b := b), arg0, arg1, c);
    }
  }

  lemma ResumedPrivate(r: Ref, g: nat, target: int, alive: set<Val>, c: nat)
    requires Fine(r) && Fits(r, Resume(g, target, alive)) && r.gens[g].state == Suspended && Private(r.b, c)
    ensures var b := Resumed(r, g, target, alive).0.b; Private(b, c) && b.cells[c] == r.b.cells[c]
  {
    hide FramesFit, GensFit, Room, Store, Separate, Private;
    CurFits(r);
    SuspendedFits(r, g);
    var gen, base := r.gens[g], Cur(r).top;
    var newtop := base + |gen.stack|;
    RoomPrivate(r.b, newtop, r.metas == 0, c);
    if !Tight(|r.b.slots|, newtop) || r.metas == 0 {
      StorePrivate(Room(r.b, newtop, r.metas == 0), base, Unsaved(gen.stack, alive), c);
    }
  }

  lemma DeliveredPrivate(r: Ref, target: int, c: nat)
    requires Fine(r) && |r.frames| > 1 && r.gens != [] && Cur(r).base < Cur(r).top && Private(r.b, c)
    requires forall k :: 0 <= k < |r.frames| ==> r.frames[k].gen != |r.gens| - 1
    requires 0 <= Cur(r).base + target < |r.b.slots| && 0 <= r.frames[|r.frames| - 2].base + target < |r.b.slots|
    ensures var b := Delivered(r, target).0.b; Private(b, c) && b.cells[c] == r.b.cells[c]
  {
    hide FramesFit, GensFit, Parked, Returned, Separate;
    var g, size := |r.gens| - 1, Cur(r).top - Cur(r).base;
    ParkedPrivate(r, g, size, c);
    ReturnedPrivate(Parked(r, g, size), 1, target, c);
  }

  lemma GeneratedPrivate(r: Ref, newbase: int, newtop: int, target: int, ip: int, c: nat)
    requires Fine(r) && Fits(r, Generate(newbase, newtop, target, ip)) && Private(r.b, c)
    ensures var b := Generated(r, newbase, newtop, target, ip).0.b; Private(b, c) && b.cells[c] == r.b.cells[c]
  {
    hide FramesFit, GensFit, Room, Delivered, Separate, Private;
    CurFits(r);
    RoomPrivate(r.b, newtop, r.metas == 0, c);
    CalledFine(r, newbase, newtop, target, false, ip);
    var e := Called(r, newbase, newtop, target, false, ip);
    if e.1 == Flag(true) { DeliveredPrivate(Born(e.0), target, c); }
  }

  lemma {:induction false} UnwindPrivate(r: Ref, error: Val, lastTop: int, c: nat)
    requires Fine(r) && 0 <= lastTop < |r.b.slots| && Lands(r) && Private(r.b, c)
    ensures var b := Unwind(r, error, lastTop).0.b; Private(b, c) && b.cells[c] == r.b.cells[c]
    decreases |r.frames|
  {
    hide FramesFit, GensFit, Leave, Kill, Wipe, Separate;
    CurFits(r);
    var f := Cur(r);
    if f.traps != [] {
      var t := LastTrap(r);
      WipePrivate(WriteSlot(r.b, t.stackbase + t.extarget, error), t.stacksize, lastTop, c);
    } else if |r.frames| > 1 {
      LeaveCloses(Kill(r), c);
      if !f.root { UnwindPrivate(Leave(Kill(r)), error, lastTop, c); }
    }
  }

  /** Does the operation write the captured variable in box c through a closure? */
  predicate Writes(r: Ref, op: Op, c: nat) { op.SetOuter? && op.k < |r.handles| && r.handles[op.k] == c }

  lemma WithinPrivate(r: Ref, op: Op, c: nat)
    requires Fine(r) && Fits(r, op) && Within(op) && Private(r.b, c) && !Writes(r, op, c)
    ensures var b := Step(r, op).0.b; Private(b, c) && b.cells[c] == r.b.cells[c]
  {
    hide FramesFit, GensFit, Wipe, Detach;
    CurFits(r);
    var f := Cur(r);
    match op
    case Pop(k) => WipePrivate(r.b, f.top - k, f.top - 1, c);
    case CloseFrom(slot) => DetachPrivate(r.b, f.base + slot, c);
    case _ =>
  }

  lemma StepPrivate(r: Ref, op: Op, c: nat)
    requires Fine(r) && Fits(r, op) && Private(r.b, c) && !Writes(r, op, c)
    ensures var b := Step(r, op).0.b; Private(b, c) && b.cells[c] == r.b.cells[c]
  {
    hide FramesFit, GensFit, Separate, Moved, Detach, Room, Leave, Unwind, Kill;
    hide Private, Returned, Yielded, Resumed, Generated;
    CurFits(r);
    var f := Cur(r);
    if Within(op) {
      WithinPrivate(r, op, c);
    } else {
      match op
      case Call(_, newtop, _, _, _) => RoomPrivate(r.b, newtop, r.metas == 0, c);
      case Native(_, newtop) => RoomPrivate(r.b, newtop, r.metas == 0, c);
      case TailCall(from, nargs, newtop, _) =>
        PrivateBelow(r.b, f.base, c);
        DetachPrivate(r.b, f.base, c);
        MovedPrivate(Detach(r.b, f.base), f.base, from, 0, nargs, c);
        RoomPrivate(Moved(Detach(r.b, f.base), f.base, from, 0, nargs), newtop, r.metas == 0, c);
      case LeaveNative => PrivateBelow(r.b, f.base, c); LeaveCloses(r, c);
      case Return(arg0, arg1) => ReturnedPrivate(Kill(r), arg0, arg1, c);
      case Generate(newbase, newtop, target, ip) => GeneratedPrivate(r, newbase, newtop, target, ip, c);
      case Yield(arg0, arg1, target) => if f.gen != -1 { YieldedPrivate(r, arg0, arg1, target, c); }
      case Resume(g, target, alive) => if r.gens[g].state == Suspended { ResumedPrivate(r, g, target, alive, c); }
      case Throw(error) => UnwindPrivate(r, error, f.top, c);
      case _ =>
    }
  }

  lemma PrivateBelow(b: Boxes, n: int, c: nat)
    requires Private(b, c) && 0 <= n <= |b.slots|
    ensures c < |b.cells| && c !in b.slots[..n]
  {}

  ghost predicate NeverWrites(r: Ref, ops: seq<Op>, c: nat)
    requires Fine(r) && AllFit(r, ops)
    decreases |ops|
  {
    ops != [] ==> !Writes(r, ops[0], c) && (StepFine(r, ops[0]); NeverWrites(Step(r, ops[0]).0, ops[1..], c))
  }

  /** A closed variable belongs to its closures alone: over every run it keeps its value unless a
      closure writes it, whatever happens to the stack it once lay on. */
  lemma {:induction false} ClosedKeepsValue(r: Ref, ops: seq<Op>, c: nat)
    requires Fine(r) && AllFit(r, ops) && NeverWrites(r, ops, c) && Private(r.b, c)
    ensures var b := Run(r, ops).0.b; Private(b, c) && b.cells[c] == r.b.cells[c]
    decreases |ops|
  {
    hide Fine, Fits, Step, Private, Writes;
    if ops != [] {
      StepFine(r, ops[0]);
      StepPrivate(r, ops[0], c);
      ClosedKeepsValue(Step(r, ops[0]).0, ops[1..], c);
    }
  }

  // ---------- Callers' frames ----------

  /** If the throw is caught, the trap has the base of the frame that catches. */
  ghost predicate CaughtHome(r: Ref)
    requires Fine(r)
    decreases |r.frames|
  {
    if Cur(r).traps != [] then Off(r) == 0 else |r.frames| == 1 || Cur(r).root || CaughtHome(Leave(Kill(r)))
  }

  lemma ShiftNone(frames: seq<Frame>, d: int)
    ensures frames != [] ==> (Shift(frames, d) == frames <==> d == 0)
  {
    if frames != [] && d != 0 { assert Shift(frames, d)[0].base != frames[0].base; }
  }

  /** A caught throw leaves base and callers of the frame that catches as they were, if and only if
      the trap has the base of that frame. */
  lemma {:induction false} CatchRestores(r: Ref, error: Val, lastTop: int)
    requires Fine(r) && 0 <= lastTop < |r.b.slots| && Lands(r)
    ensures var u := Unwind(r, error, lastTop); var m := |u.0.frames| - 1; u.1 ==>
      && 0 < m < |r.frames|
      && (u.0.frames[..m] == r.frames[..m] && Cur(u.0).base == r.frames[m].base <==> CaughtHome(r))
    decreases |r.frames|
  {
    hide FramesFit, GensFit, Separate, Leave, Kill, Wipe, WriteSlot;
    CurFits(r);
    var n := |r.frames| - 1;
    if Cur(r).traps != [] {
      ShiftNone(r.frames[..n], Off(r));
      assert Landed(r)[..n] == Shift(r.frames[..n], Off(r));
    } else if n > 0 && !Cur(r).root {
      var l := Leave(Kill(r));
      CatchRestores(l, error, lastTop);
      assert l.frames == r.frames[..n];
      var u := Unwind(l, error, lastTop);
      if u.1 { assert r.frames[..n][..|u.0.frames| - 1] == r.frames[..|u.0.frames| - 1]; }
    }
  }

  /** Every state of the run has more than d frames, and every throw that is caught is caught at home. */
  ghost predicate Undisturbed(r: Ref, ops: seq<Op>, d: nat)
    requires Fine(r) && AllFit(r, ops)
    decreases |ops|
  {
    && |r.frames| > d
    && (ops != [] ==>
          && (ops[0].Throw? ==> CaughtHome(r))
          && (StepFine(r, ops[0]); Undisturbed(Step(r, ops[0]).0, ops[1..], d)))
  }

  lemma {:induction false} UnwindBelow(r: Ref, error: Val, lastTop: int, d: nat)
    requires Fine(r) && 0 <= lastTop < |r.b.slots| && Lands(r) && CaughtHome(r)
    requires var u := Unwind(r, error, lastTop).0; |u.frames| > d
    ensures var u := Unwind(r, error, lastTop).0; |u.frames| <= |r.frames| && u.frames[..d] == r.frames[..d]
    decreases |r.frames|
  {
    hide FramesFit, GensFit, Separate, Leave, Kill, Wipe, WriteSlot;
    CurFits(r);
    var n := |r.frames| - 1;
    if Cur(r).traps != [] {
      ShiftNone(r.frames[..n], Off(r));
    } else if n > 0 {
      var l := Leave(Kill(r));
      assert l.frames == r.frames[..n];
      if !Cur(r).root { UnwindBelow(l, error, lastTop, d); }
    }
  }

  /** The operation leaves the current frame. */
  predicate Leaves(op: Op) { op.Return? || op.LeaveNative? || op.Yield? }

  lemma YieldedFrames(r: Ref, arg0: int, arg1: int, target: int)
    requires Fine(r) && Fits(r, Yield(arg0, arg1, target)) && Cur(r).gen != -1
    ensures Yielded(r, arg0, arg1, target).0.frames == r.frames[..|r.frames| - 1]
  {
    hide FramesFit, GensFit, Separate, WriteSlot;
    GenOf(r);
  }

  lemma GeneratedFrames(r: Ref, newbase: int, newtop: int, target: int, ip: int)
    requires Fine(r) && Fits(r, Generate(newbase, newtop, target, ip))
    ensures var res := Generated(r, newbase, newtop, target, ip); res.1 == Flag(true) ==> res.0.frames == r.frames
    ensures var res := Generated(r, newbase, newtop, target, ip); r.frames <= res.0.frames
  {
    hide FramesFit, GensFit, Separate, WriteSlot, Room;
    CurFits(r);
  }

  lemma StepBelow(r: Ref, op: Op, d: nat)
    requires Fine(r) && Fits(r, op) && |r.frames| > d && (op.Throw? ==> CaughtHome(r))
    requires |Step(r, op).0.frames| > d || Leaves(op)
    ensures Step(r, op).0.frames[..d] == r.frames[..d]
  {
    hide FramesFit, GensFit, Separate, Wipe, Moved, Detach, Room, Unwind, Yielded, Generated;
    CurFits(r);
    match op
    case Throw(error) => UnwindBelow(r, error, Cur(r).top, d);
    case Yield(arg0, arg1, target) => if Cur(r).gen != -1 { YieldedFrames(r, arg0, arg1, target); }
    case Generate(newbase, newtop, target, ip) => GeneratedFrames(r, newbase, newtop, target, ip);
    case _ =>
  }

  lemma {:induction false} RunBelow(r: Ref, ops: seq<Op>, d: nat)
    requires Fine(r) && AllFit(r, ops) && Undisturbed(r, ops, d)
    ensures var r2 := Run(r, ops).0; |r2.frames| > d && r2.frames[..d] == r.frames[..d]
    decreases |ops|
  {
    hide Fine, Fits, Step, CaughtHome;
    if ops != [] {
      StepFine(r, ops[0]);
      var r1 := Step(r, ops[0]).0;
      RunBelow(r1, ops[1..], d);
      StepBelow(r, ops[0], d);
    }
  }

  /** The operation enters one frame, and the callers' frames stay as they are. */
  lemma EntersOne(r: Ref, op: Op)
    requires Fine(r) && Fits(r, op) && (op.Call? || op.Native? || op.Resume?) && |Step(r, op).0.frames| > |r.frames|
    ensures |Step(r, op).0.frames| == |r.frames| + 1 && Step(r, op).0.frames[..|r.frames|] == r.frames
  {
    hide FramesFit, GensFit, Separate, Room, Store;
  }

  lemma LeavesOne(r: Ref, op: Op)
    requires Fine(r) && Fits(r, op) && Leaves(op) && (op.Yield? ==> Cur(r).gen != -1)
    ensures Step(r, op).0.frames == r.frames[..|r.frames| - 1]
  {
    hide FramesFit, GensFit, Separate, Wipe, Detach, Yielded, Returned, Leave, Kill;
    CurFits(r);
    if op.Yield? { YieldedFrames(r, op.arg0, op.arg1, op.target); }
  }

  /** A call or a resumption, anything that runs while its frame is there, and its return or yield
      leave every frame of the callers as it was: base, top, traps and depth. */
  lemma CallRestores(r: Ref, call: Op, body: seq<Op>, ret: Op)
    requires Fine(r) && Fits(r, call) && (call.Call? || call.Native? || call.Resume?)
    requires var r1 := Step(r, call).0; |r1.frames| > |r.frames| && Fine(r1) && AllFit(r1, body)
    requires var r1 := Step(r, call).0; Undisturbed(r1, body, |r.frames|)
    requires var r2 := Run(Step(r, call).0, body).0; |r2.frames| == |r.frames| + 1 && Fits(r2, ret)
    requires Leaves(ret) && (ret.Yield? ==> Cur(Run(Step(r, call).0, body).0).gen != -1)
    ensures Step(Run(Step(r, call).0, body).0, ret).0.frames == r.frames
  {
    hide Fine, Fits, Step, AllFit, Undisturbed, Run;
    var r1, d := Step(r, call).0, |r.frames|;
    EntersOne(r, call);
    RunBelow(r1, body, d);
    LeavesOne(Run(r1, body).0, ret);
  }

  // ---------- Traps at home ----------

  ghost predicate AtHome(traps: seq<Trap>, base: int) {
    forall k :: 0 <= k < |traps| ==> traps[k].stackbase == base
  }

  ghost predicate AllHome(frames: seq<Frame>) {
    forall k :: 0 <= k < |frames| ==> AtHome(frames[k].traps, frames[k].base)
  }

  /** Where all traps are at home, a throw always lands, and lands at home. */
  lemma {:induction false} HomeLands(r: Ref)
    requires Fine(r) && AllHome(r.frames)
    ensures Lands(r) && CaughtHome(r)
    decreases |r.frames|
  {
    hide GensFit, Separate, Leave, Kill;
    CurFits(r);
    var n := |r.frames| - 1;
    if Cur(r).traps != [] {
      ShiftNone(r.frames[..n], Off(r));
      var f := Landed(r)[n];
      assert Landed(r) == r.frames[..n] + [f];
      ReframeFits(r.frames, f, |r.b.slots|);
    } else if n > 0 && !Cur(r).root {
      assert Leave(Kill(r)).frames == r.frames[..n];
      HomeLands(Leave(Kill(r)));
    }
  }

  lemma {:induction false} UnwindHome(r: Ref, error: Val, lastTop: int)
    requires Fine(r) && 0 <= lastTop < |r.b.slots| && Lands(r) && AllHome(r.frames)
    ensures AllHome(Unwind(r, error, lastTop).0.frames)
    decreases |r.frames|
  {
    hide FramesFit, GensFit, Separate, Leave, Kill, Wipe, WriteSlot;
    CurFits(r);
    var n := |r.frames| - 1;
    if Cur(r).traps != [] {
      ShiftNone(r.frames[..n], Off(r));
    } else if n > 0 {
      assert Leave(Kill(r)).frames == r.frames[..n];
      if !Cur(r).root { UnwindHome(Leave(Kill(r)), error, lastTop); }
    }
  }

  lemma WithinHome(r: Ref, op: Op)
    requires Fine(r) && Fits(r, op) && Within(op) && AllHome(r.frames)
    ensures AllHome(StepWithin(r, op).0.frames)
  {
    hide FramesFit, GensFit, Separate, Wipe, Detach, WriteSlot, WriteCell;
    CurFits(r);
  }

  lemma WithinGens(r: Ref, op: Op)
    requires Fine(r) && Fits(r, op) && Within(op)
    ensures StepWithin(r, op).0.gens == r.gens
  {
    hide FramesFit, GensFit, Separate, Wipe, Detach, WriteSlot, WriteCell;
    CurFits(r);
  }

  lemma StepHome(r: Ref, op: Op)
    requires Fine(r) && Fits(r, op) && AllHome(r.frames) && !op.Resume?
    ensures AllHome(Step(r, op).0.frames)
  {
    hide FramesFit, GensFit, Separate, Wipe, Moved, Detach, Room, Unwind, Yielded, Generated, StepWithin;
    CurFits(r);
    if Within(op) {
      WithinHome(r, op);
      return;
    }
    match op
    case Throw(error) => UnwindHome(r, error, Cur(r).top);
    case Yield(arg0, arg1, target) => if Cur(r).gen != -1 { YieldedFrames(r, arg0, arg1, target); }
    case Generate(newbase, newtop, target, ip) => GeneratedHome(r, newbase, newtop, target, ip);
    case _ =>
  }

  lemma GeneratedHome(r: Ref, newbase: int, newtop: int, target: int, ip: int)
    requires Fine(r) && Fits(r, Generate(newbase, newtop, target, ip)) && AllHome(r.frames)
    ensures AllHome(Generated(r, newbase, newtop, target, ip).0.frames)
  {
    hide FramesFit, GensFit, Separate, WriteSlot, Room;
    CurFits(r);
  }

  /** Without resumptions every trap stays at home, so every throw of such a run lands there. */
  lemma {:induction false} RunHome(r: Ref, ops: seq<Op>)
    requires Fine(r) && AllFit(r, ops) && AllHome(r.frames) && forall k :: 0 <= k < |ops| ==> !ops[k].Resume?
    ensures AllHome(Run(r, ops).0.frames)
    decreases |ops|
  {
    hide Fine, Fits, Step, AllHome;
    if ops != [] {
      StepFine(r, ops[0]);
      StepHome(r, ops[0]);
      RunHome(Step(r, ops[0]).0, ops[1..]);
    }
  }

  // ---------- Generators ----------

  /** Generator g rests: it is dead, or suspended and not the one that is resumed. */
  predicate Rests(r: Ref, op: Op, g: nat) {
    g < |r.gens| && (r.gens[g].state == Dead || (r.gens[g].state == Suspended && !(op.Resume? && op.g == g)))
  }

  lemma KillKeeps(r: Ref, g: nat)
    requires Fine(r) && g < |r.gens| && r.gens[g].state != Running
    ensures |Kill(r).gens| == |r.gens| && Kill(r).gens[g] == r.gens[g]
  {}

  lemma {:induction false} UnwindKeeps(r: Ref, error: Val, lastTop: int, g: nat)
    requires Fine(r) && 0 <= lastTop < |r.b.slots| && Lands(r) && g < |r.gens| && r.gens[g].state != Running
    ensures var u := Unwind(r, error, lastTop).0; |u.gens| == |r.gens| && u.gens[g] == r.gens[g]
    decreases |r.frames|
  {
    hide FramesFit, GensFit, Separate, Leave, Kill, Wipe, WriteSlot;
    CurFits(r);
    if Cur(r).traps == [] && |r.frames| > 1 {
      KillKeeps(r, g);
      if !Cur(r).root { UnwindKeeps(Leave(Kill(r)), error, lastTop, g); }
    }
  }

  lemma YieldedGens(r: Ref, arg0: int, arg1: int, target: int)
    requires Fine(r) && Fits(r, Yield(arg0, arg1, target)) && Cur(r).gen != -1
    ensures Separate(r.b) && 0 <= Cur(r).base < Cur(r).top <= |r.b.slots| && 0 <= Cur(r).gen < |r.gens|
    ensures var f := Cur(r);
      var gen := Gen(Suspended, Saved(Slots(r.b, f.base, f.top - f.base), target), f.traps, f.ip, f.ncalls, f.root);
      Yielded(r, arg0, arg1, target).0.gens == r.gens[f.gen := gen]
  {
    hide FramesFit, GensFit, WriteSlot, Store;
    CurFits(r);
    GenOf(r);
  }

  lemma GeneratedGens(r: Ref, newbase: int, newtop: int, target: int, ip: int)
    requires Fine(r) && Fits(r, Generate(newbase, newtop, target, ip))
    ensures r.gens <= Generated(r, newbase, newtop, target, ip).0.gens
  {
    hide FramesFit, GensFit, Separate, WriteSlot, Room, Store;
    CurFits(r);
  }

  lemma StepKeeps(r: Ref, op: Op, g: nat)
    requires Fine(r) && Fits(r, op) && Rests(r, op, g)
    ensures var r2 := Step(r, op).0; g < |r2.gens| && r2.gens[g] == r.gens[g]
  {
    hide FramesFit, GensFit, Separate, Wipe, Moved, Detach, Room, Unwind, Yielded, Generated, Kill, Store, StepWithin;
    CurFits(r);
    if Within(op) { WithinGens(r, op); }
    match op
    case Throw(error) => UnwindKeeps(r, error, Cur(r).top, g);
    case Return(_, _) => KillKeeps(r, g);
    case Yield(arg0, arg1, target) =>
      if Cur(r).gen != -1 { GenOf(r); YieldedGens(r, arg0, arg1, target); }
    case Generate(newbase, newtop, target, ip) => GeneratedGens(r, newbase, newtop, target, ip);
    case _ =>
  }

  /** A dead generator is dead for ever and no frame runs it; a suspended one keeps its whole frame
      until it is resumed. */
  lemma {:induction false} RunKeeps(r: Ref, ops: seq<Op>, g: nat)
    requires Fine(r) && AllFit(r, ops) && g < |r.gens|
    requires r.gens[g].state == Dead ||
      (r.gens[g].state == Suspended && forall k :: 0 <= k < |ops| ==> !(ops[k].Resume? && ops[k].g == g))
    ensures var r2 := Run(r, ops).0; g < |r2.gens| && r2.gens[g] == r.gens[g]
    ensures forall k :: 0 <= k < |Run(r, ops).0.frames| ==> Run(r, ops).0.frames[k].gen != g
    decreases |ops|
  {
    hide Fits, Step, FramesFit;
    if ops != [] {
      StepFine(r, ops[0]);
      StepKeeps(r, ops[0], g);
      RunKeeps(Step(r, ops[0]).0, ops[1..], g);
    }
  }

  /** The frame that resuming gives. */
  lemma ResumedFrame(r: Ref, g: nat, target: int, alive: set<Val>)
    requires Fine(r) && Fits(r, Resume(g, target, alive)) && r.gens[g].state == Suspended
    requires !Tight(|r.b.slots|, Cur(r).top + |r.gens[g].stack|) || r.metas == 0
    ensures var gen, res := r.gens[g], Resumed(r, g, target, alive);
      var f := Frame(Cur(r).top, Cur(r).top + |gen.stack|, gen.traps, gen.ncalls, gen.root, target, gen.ip, g);
      && gen.stack != [] && res.1 == Flag(true) && res.0.frames == r.frames + [f]
      && |res.0.gens| == |r.gens| && res.0.gens[g].state == Running
      && Separate(res.0.b) && 0 <= f.base && f.top <= |res.0.b.slots|
      && Slots(res.0.b, f.base, |gen.stack|) == Unsaved(gen.stack, alive)
  {
    hide FramesFit, GensFit, Room;
    CurFits(r);
    SuspendedFits(r, g);
  }

  /** The slots of a frame after its round trip.  In slot 0 an object, a generator or a weak reference comes
      back if it is still alive, and as null if it is not; any other value comes back.  The other slots come
      back below target, and as null from there on. */
  ghost predicate Back(was: seq<Val>, now: seq<Val>, target: int, alive: set<Val>) {
    && |was| == |now| && was != []
    && (was[0].Object? || was[0].Generator? || was[0].Weak? ==> now[0] == if was[0] in alive then was[0] else Null)
    && (was[0].Null? || was[0].Thing? ==> now[0] == was[0])
    && forall n :: 1 <= n < |now| ==> now[n] == if n < target then was[n] else Null
  }

  lemma SavedBack(was: seq<Val>, target: int, alive: set<Val>)
    requires was != []
    ensures Back(was, Unsaved(Saved(was, target), alive), target, alive)
  {}

  lemma YieldSuspends(r: Ref, arg0: int, arg1: int, target: int)
    requires Fine(r) && Fits(r, Yield(arg0, arg1, target)) && Cur(r).gen != -1
    ensures var f := Cur(r);
      && Separate(r.b) && 0 <= f.base < f.top <= |r.b.slots| && 0 <= f.gen < |r.gens|
      && var gen := Gen(Suspended, Saved(Slots(r.b, f.base, f.top - f.base), target), f.traps, f.ip, f.ncalls, f.root);
         Step(r, Yield(arg0, arg1, target)).0.gens == r.gens[f.gen := gen]
  {
    hide Yielded;
    YieldedGens(r, arg0, arg1, target);
  }

  lemma ResumeSteps(r: Ref, g: nat, to: int, alive: set<Val>)
    requires Fine(r) && Fits(r, Resume(g, to, alive)) && r.gens[g].state == Suspended
    ensures Step(r, Resume(g, to, alive)) == Resumed(r, g, to, alive)
  {
    hide Resumed;
  }

  /** Every round trip: a generator's frame that yields, and is resumed after any run that does not
      resume it, on a stack that may have to grow, comes back where the stack then ends, with its code
      position, its slots below target and its traps in their order. */
  lemma RoundTrip(r: Ref, arg0: int, arg1: int, target: int, r1: Ref, ops: seq<Op>, r2: Ref, g: nat, to: int,
                  alive: set<Val>)
    requires Fine(r) && Fits(r, Yield(arg0, arg1, target)) && Cur(r).gen == g
    requires r1 == Step(r, Yield(arg0, arg1, target)).0 && Fine(r1) && AllFit(r1, ops) && r2 == Run(r1, ops).0
    requires forall k :: 0 <= k < |ops| ==> !(ops[k].Resume? && ops[k].g == g)
    requires Fits(r2, Resume(g, to, alive))
    ensures var f, res, size := Cur(r), Step(r2, Resume(g, to, alive)), Cur(r).top - Cur(r).base;
      && (res.1 == Flag(true) <==> !Tight(|r2.b.slots|, Cur(r2).top + size) || r2.metas == 0)
      && (res.1 == Flag(true) ==>
            && res.0.frames == r2.frames + [f.(base := Cur(r2).top, top := Cur(r2).top + size, target := to)]
            && g < |res.0.gens| && res.0.gens[g].state == Running)
    ensures var f, res, size := Cur(r), Step(r2, Resume(g, to, alive)), Cur(r).top - Cur(r).base;
      && Separate(r.b) && 0 <= f.base < f.top <= |r.b.slots|
      && (res.1 == Flag(true) ==>
            && Separate(res.0.b) && 0 <= Cur(r2).top && Cur(r2).top + size <= |res.0.b.slots|
            && Back(Slots(r.b, f.base, size), Slots(res.0.b, Cur(r2).top, size), target, alive))
  {
    hide Fine, Fits, Step, Run, AllFit, Resumed, Separate, Saved, Unsaved, Slots, Back;
    CurFits(r);
    CurFits(r2);
    YieldSuspends(r, arg0, arg1, target);
    RunKeeps(r1, ops, g);
    ResumeSteps(r2, g, to, alive);
    var size := Cur(r).top - Cur(r).base;
    SavedBack(Slots(r.b, Cur(r).base, size), target, alive);
    if !Tight(|r2.b.slots|, Cur(r2).top + size) || r2.metas == 0 {
      ResumedFrame(r2, g, to, alive);
    } else {
      ResumeRefused(r2, g, to, alive);
    }
  }

  lemma ResumeRefused(r: Ref, g: nat, target: int, alive: set<Val>)
    requires Fine(r) && Fits(r, Resume(g, target, alive)) && r.gens[g].state == Suspended
    requires Tight(|r.b.slots|, Cur(r).top + |r.gens[g].stack|) && r.metas != 0
    ensures Resumed(r, g, target, alive).1 == Flag(false) && Resumed(r, g, target, alive).0.gens == r.gens
  {}

  /** The trap records are not relocated: after a resumption they restore the base of the resumed frame
      exactly when it has none or lies where it lay when it pushed them. */
  lemma ResumedHome(r: Ref, g: nat, target: int, alive: set<Val>, base: int)
    requires Fine(r) && Fits(r, Resume(g, target, alive)) && r.gens[g].state == Suspended
    requires AtHome(r.gens[g].traps, base) && Resumed(r, g, target, alive).1 == Flag(true)
    ensures var f := Cur(Resumed(r, g, target, alive).0);
      AtHome(f.traps, f.base) <==> r.gens[g].traps == [] || f.base == base
  {
    if r.gens[g].traps != [] { assert r.gens[g].traps[0].stackbase == base; }
  }

  /** After a round trip, an error that the resumed frame catches puts the frame back on its own base, with
      its callers where they were, if and only if it was resumed at the base where its traps were pushed. */
  lemma StaleCatch(r: Ref, g: nat, target: int, alive: set<Val>, base: int, error: Val)
    requires Fine(r) && Fits(r, Resume(g, target, alive)) && r.gens[g].state == Suspended
    requires r.gens[g].traps != [] && AtHome(r.gens[g].traps, base) && Resumed(r, g, target, alive).1 == Flag(true)
    requires Lands(Resumed(r, g, target, alive).0)
    ensures var r1 := Resumed(r, g, target, alive).0;
      var u := Unwind(r1, error, Cur(r1).top);
      u.1 && |u.0.frames| == |r1.frames| &&
      (Cur(u.0).base == Cur(r1).base && u.0.frames[..|r.frames|] == r.frames <==> Cur(r).top == base)
  {
    hide GensFit, FramesFit, Separate, Wipe, WriteSlot, Store, Room;
    var r1 := Resumed(r, g, target, alive).0;
    CurFits(r1);
    CatchRestores(r1, error, Cur(r1).top);
    var t := r.gens[g].traps;
    assert LastTrap(r1) == t[|t| - 1] && t[|t| - 1].stackbase == base;
    assert r1.frames[..|r.frames|] == r.frames;
  }

  /** The same for a whole round trip of a frame whose traps were its own when it yielded. */
  lemma RoundTripCatch(r: Ref, arg0: int, arg1: int, target: int, r1: Ref, ops: seq<Op>, r2: Ref, g: nat, to: int,
                       alive: set<Val>, r3: Ref, error: Val)
    requires Fine(r) && Fits(r, Yield(arg0, arg1, target)) && Cur(r).gen == g
    requires r1 == Step(r, Yield(arg0, arg1, target)).0 && Fine(r1) && AllFit(r1, ops) && r2 == Run(r1, ops).0
    requires forall k :: 0 <= k < |ops| ==> !(ops[k].Resume? && ops[k].g == g)
    requires Fits(r2, Resume(g, to, alive)) && Step(r2, Resume(g, to, alive)) == (r3, Flag(true))
    requires Cur(r).traps != [] && AtHome(Cur(r).traps, Cur(r).base) && Fine(r3) && Fits(r3, Throw(error))
    ensures var u := Step(r3, Throw(error));
      u.1 == Flag(true) && |u.0.frames| == |r3.frames| == |r2.frames| + 1 &&
      (Cur(u.0).base == Cur(r3).base && u.0.frames[..|r2.frames|] == r2.frames <==> Cur(r2).top == Cur(r).base)
  {
    hide Run, AllFit, Resumed, Yielded, Unwind, FramesFit, GensFit, Separate, Saved, Slots;
    CurFits(r);
    CurFits(r2);
    YieldSuspends(r, arg0, arg1, target);
    RunKeeps(r1, ops, g);
    ResumeSteps(r2, g, to, alive);
    CurFits(r3);
    ResumedOne(r2, g, to, alive);
    StaleCatch(r2, g, to, alive, Cur(r).base, error);
  }

  lemma ResumedOne(r: Ref, g: nat, target: int, alive: set<Val>)
    requires Fine(r) && Fits(r, Resume(g, target, alive)) && r.gens[g].state == Suspended
    ensures |Resumed(r, g, target, alive).0.frames| == |r.frames| + 1
  {
    hide FramesFit, GensFit, Separate, Room, Store;
  }

  // ---------- What a call and a yield do to variables ----------

  lemma ParkedBelow(r: Ref, g: int, target: int, i: int)
    requires Fine(r) && 0 <= g < |r.gens| && Cur(r).base < Cur(r).top && 0 <= i < Cur(r).base
    requires forall k :: 0 <= k < |r.frames| - 1 ==> r.frames[k].gen != g
    ensures var p := Parked(r, g, target); Separate(p.b) && i < |p.b.slots| == |r.b.slots| && At(p.b, i) == At(r.b, i)
  {
    hide FramesFit, GensFit, Separate, Store;
    CurFits(r);
  }

  lemma ReturnedBelow(r: Ref, arg0: int, arg1: int, i: int)
    requires Fine(r) && |r.frames| > 1 && (arg0 != 0xFF ==> 0 <= Cur(r).base + arg1 < |r.b.slots|) && !Cur(r).root
    requires var c := r.frames[|r.frames| - 2]; 0 <= i < Cur(r).base && i < c.top
    requires Cur(r).target != -1 ==> i != r.frames[|r.frames| - 2].base + Cur(r).target
    ensures var q := Returned(r, arg0, arg1).0; Separate(q.b) && i < |q.b.slots| && At(q.b, i) == At(r.b, i)
  {
    hide FramesFit, GensFit, Leave, Separate, WriteSlot;
    CurFits(r);
    if Cur(r).target == -1 {
      LeaveKeeps(r, i);
    } else {
      var v := if arg0 != 0xFF then At(r.b, Cur(r).base + arg1) else Null;
      var b := WriteSlot(r.b, r.frames[|r.frames| - 2].base + Cur(r).target, v);
      BoxesFine(r, b);
      LeaveKeeps(r.(b := b), i);
    }
  }

  lemma DeliveredBelow(r: Ref, target: int, i: int)
    requires Fine(r) && |r.frames| > 1 && r.gens != [] && Cur(r).base < Cur(r).top
    requires forall k :: 0 <= k < |r.frames| ==> r.frames[k].gen != |r.gens| - 1
    requires 0 <= Cur(r).base + target < |r.b.slots| && 0 <= r.frames[|r.frames| - 2].base + target < |r.b.slots|
    requires !Cur(r).root && Cur(r).target == target
    requires 0 <= i < Cur(r).base && i < r.frames[|r.frames| - 2].top
    ensures var q := Delivered(r, target).0;
      && Separate(q.b) && i < |q.b.slots|
      && At(q.b, i) == if i == r.frames[|r.frames| - 2].base + target then Generator(|r.gens| - 1) else At(r.b, i)
  {
    hide FramesFit, GensFit, Parked, Returned, Separate, WriteSlot;
    CurFits(r);
    var g := |r.gens| - 1;
    var p := Parked(r, g, Cur(r).top - Cur(r).base);
    ParkedBelow(r, g, Cur(r).top - Cur(r).base, i);
    if i != r.frames[|r.frames| - 2].base + target { ReturnedBelow(p, 1, target, i); }
  }

  /** A generator call that succeeds changes one slot below its caller's base at most: the one that its
      target names. */
  lemma GenerateBelow(r: Ref, newbase: int, newtop: int, target: int, ip: int, i: int)
    requires Fine(r) && Fits(r, Generate(newbase, newtop, target, ip))
    requires Step(r, Generate(newbase, newtop, target, ip)).1 == Flag(true)
    requires 0 <= i < Cur(r).base <= Cur(r).top && Cur(r).base <= newbase
    ensures var q := Step(r, Generate(newbase, newtop, target, ip)).0;
      && Separate(r.b) && Separate(q.b) && i < |r.b.slots| && i < |q.b.slots|
      && At(q.b, i) == if i == Cur(r).base + target then Generator(|r.gens|) else At(r.b, i)
  {
    hide FramesFit, GensFit, Delivered, Separate;
    CurFits(r);
    CalledFine(r, newbase, newtop, target, false, ip);
    var e := Called(r, newbase, newtop, target, false, ip).0;
    assert i < |e.b.slots| && At(e.b, i) == At(r.b, i);
    DeliveredBelow(Born(e), target, i);
  }

  ghost predicate SameBelow(r: Ref, q: Ref, n: int)
    requires Fine(r) && Fine(q)
  {
    forall i :: 0 <= i < n && i < |r.b.slots| && i < |q.b.slots| ==> At(q.b, i) == At(r.b, i)
  }

  /** A generator call leaves everything below its caller's base alone if and only if its target is a
      register of the caller; a discarded result has target -1. */
  lemma GenerateSpares(r: Ref, newbase: int, newtop: int, target: int, ip: int)
    requires Fine(r) && Fits(r, Generate(newbase, newtop, target, ip))
    requires Step(r, Generate(newbase, newtop, target, ip)).1 == Flag(true)
    requires Cur(r).base <= Cur(r).top && Cur(r).base <= newbase
    requires forall i :: 0 <= i < Cur(r).base ==> At(r.b, i) != Generator(|r.gens|)
    ensures Fine(Step(r, Generate(newbase, newtop, target, ip)).0)
    ensures SameBelow(r, Step(r, Generate(newbase, newtop, target, ip)).0, Cur(r).base) <==> 0 <= target
  {
    hide FramesFit, GensFit, Separate, Step;
    StepFine(r, Generate(newbase, newtop, target, ip));
    CurFits(r);
    forall i | 0 <= i < Cur(r).base
      ensures var q := Step(r, Generate(newbase, newtop, target, ip)).0;
        && i < |r.b.slots| && i < |q.b.slots|
        && At(q.b, i) == if i == Cur(r).base + target then Generator(|r.gens|) else At(r.b, i)
    {
      GenerateBelow(r, newbase, newtop, target, ip, i);
    }
    if target < 0 { GenerateBelow(r, newbase, newtop, target, ip, Cur(r).base + target); }
  }

  /** The frame is cleared before its variables are closed: a closure over a variable of a generator finds
      null after the yield, except in the yielded register, and shares nothing with the resumed frame. */
  lemma YieldCloses(r: Ref, arg0: int, arg1: int, target: int, j: nat)
    requires Fine(r) && Fits(r, Yield(arg0, arg1, target)) && Cur(r).gen != -1 && j < Cur(r).top - Cur(r).base
    requires var f := Cur(r); !f.root && f.target != -1 ==> r.frames[|r.frames| - 2].base + f.target < f.base
    ensures var c, y := r.b.slots[Cur(r).base + j], Step(r, Yield(arg0, arg1, target)).0.b;
      Private(y, c) && y.cells[c] == if arg1 == j && arg1 != 0xFF then r.b.cells[c] else Null
  {
    hide FramesFit, GensFit, Parked, Returned, Separate, WriteSlot;
    CurFits(r);
    GenOf(r);
    var f, c := Cur(r), r.b.slots[Cur(r).base + j];
    ParkedAt(r, f.gen, target, j);
    var p := Parked(r, f.gen, target);
    if arg1 != 0xFF {
      var b := WriteSlot(p.b, f.base + arg1, At(r.b, f.base + arg1));
      BoxesFine(p, b);
      p := p.(b := b);
    }
    ReturnedCloses(p, arg0, arg1, j);
  }

  /** It stays so over every run, resumptions included, until a closure writes the variable. */
  lemma YieldLoses(r: Ref, arg0: int, arg1: int, target: int, j: nat, r1: Ref, ops: seq<Op>)
    requires Fine(r) && Fits(r, Yield(arg0, arg1, target)) && Cur(r).gen != -1 && j < Cur(r).top - Cur(r).base
    requires var f := Cur(r); !f.root && f.target != -1 ==> r.frames[|r.frames| - 2].base + f.target < f.base
    requires r1 == Step(r, Yield(arg0, arg1, target)).0 && Fine(r1) && AllFit(r1, ops)
    requires NeverWrites(r1, ops, r.b.slots[Cur(r).base + j])
    ensures var c, b := r.b.slots[Cur(r).base + j], Run(r1, ops).0.b;
      Private(b, c) && b.cells[c] == if arg1 == j && arg1 != 0xFF then r.b.cells[c] else Null
  {
    hide Fits, Step, Private, Run, AllFit, NeverWrites;
    CurFits(r);
    YieldCloses(r, arg0, arg1, target, j);
    ClosedKeepsValue(r1, ops, r.b.slots[Cur(r).base + j]);
  }

  lemma ParkedAt(r: Ref, g: int, target: int, j: nat)
    requires Fine(r) && 0 <= g < |r.gens| && Cur(r).base < Cur(r).top && j < Cur(r).top - Cur(r).base
    requires forall k :: 0 <= k < |r.frames| - 1 ==> r.frames[k].gen != g
    ensures 0 <= Cur(r).base && Cur(r).top < |r.b.slots| && Separate(r.b)
    ensures var p := Parked(r, g, target).b;
      Separate(p) && p.slots == r.b.slots && At(p, Cur(r).base + j) == Null
  {
    hide FramesFit, GensFit, Separate, Store;
    CurFits(r);
  }

  /** Returning closes the variables of the frame with what they hold. */
  lemma ReturnedCloses(r: Ref, arg0: int, arg1: int, j: nat)
    requires Fine(r) && |r.frames| > 1 && (arg0 != 0xFF ==> 0 <= Cur(r).base + arg1 < |r.b.slots|)
    requires j < Cur(r).top - Cur(r).base
    requires var f := Cur(r); !f.root && f.target != -1 ==> r.frames[|r.frames| - 2].base + f.target < f.base
    ensures 0 <= Cur(r).base + j < |r.b.slots|
    ensures var c, y := r.b.slots[Cur(r).base + j], Returned(r, arg0, arg1).0.b;
      Private(y, c) && c < |r.b.cells| && y.cells[c] == r.b.cells[c]
  {
    hide FramesFit, GensFit, Leave, WriteSlot;
    CurFits(r);
    var f, c, n := Cur(r), r.b.slots[Cur(r).base + j], |r.frames| - 1;
    if f.root || f.target == -1 {
      LeaveCloses(r, c);
    } else {
      var v := if arg0 != 0xFF then At(r.b, f.base + arg1) else Null;
      var b := WriteSlot(r.b, r.frames[n - 1].base + f.target, v);
      BoxesFine(r, b);
      assert At(b, f.base + j) == At(r.b, f.base + j);
      LeaveCloses(r.(b := b), c);
    }
  }

  /** A call pushes its frame whether or not it succeeds: it fails exactly if the stack would have to grow
      during a metamethod call. */
  lemma CallEnters(r: Ref, newbase: int, newtop: int, target: int, root: bool, ip: int)
    requires Fine(r) && Fits(r, Call(newbase, newtop, target, root, ip))
    ensures var res := Step(r, Call(newbase, newtop, target, root, ip));
      && (res.1 == Flag(false) <==> Tight(|r.b.slots|, newtop) && r.metas > 0)
      && |res.0.frames| == |r.frames| + 1 && res.0.frames[..|r.frames|] == r.frames
      && Cur(res.0).base == newbase && Cur(res.0).top == newtop
  {
    hide FramesFit, GensFit, Separate, Room;
  }
}
