/** A reference machine for captured variables, call frames and generators.  Every variable is a box
    and every frame records where it lies in absolute terms, so nothing is relocated or recomputed. */
module CallFrames {
  datatype Val = Null | Thing(id: int) | Object(id: int) | Generator(g: nat) | Weak(of: Val)

  predicate Counted(v: Val) { v.Object? || v.Generator? || v.Weak? }

  /** What a generator keeps of `this`: not the object, so that it does not keep it alive. */
  function Weakened(v: Val): Val { if Counted(v) then Weak(v) else v }

  /** What it gives back: null if the object is gone by then. */
  function Restored(v: Val, alive: set<Val>): Val {
    if v.Weak? then (if v.of in alive then v.of else Null) else v
  }

  // ---------- Boxed variables ----------

  /** The contents of all boxes ever made, and the box behind each stack slot. */
  datatype Boxes = Boxes(cells: seq<Val>, slots: seq<nat>)

  ghost predicate Separate(b: Boxes) {
    && (forall i :: 0 <= i < |b.slots| ==> b.slots[i] < |b.cells|)
    && (forall i, j :: 0 <= i < j < |b.slots| ==> b.slots[i] != b.slots[j])
  }

  function At(b: Boxes, i: int): Val
    requires Separate(b) && 0 <= i < |b.slots|
  {
    b.cells[b.slots[i]]
  }

  function WriteCell(b: Boxes, c: nat, v: Val): (r: Boxes)
    requires Separate(b) && c < |b.cells|
    ensures Separate(r) && r.slots == b.slots && |r.cells| == |b.cells|
  {
    b.(cells := b.cells[c := v])
  }

  function WriteSlot(b: Boxes, i: int, v: Val): (r: Boxes)
    requires Separate(b) && 0 <= i < |b.slots|
    ensures Separate(r) && r.slots == b.slots && |r.cells| == |b.cells| && At(r, i) == v
    ensures forall j :: 0 <= j < |b.slots| && j != i ==> At(r, j) == At(b, j)
  {
    WriteCell(b, b.slots[i], v)
  }

  /** Null in the slots from lo up to and including hi. */
  function Wipe(b: Boxes, lo: int, hi: int): (r: Boxes)
    requires Separate(b) && 0 <= lo && hi < |b.slots|
    ensures Separate(r) && r.slots == b.slots && |r.cells| == |b.cells|
    ensures forall j :: 0 <= j < |b.slots| ==> At(r, j) == if lo <= j <= hi then Null else At(b, j)
    decreases hi - lo
  {
    if lo > hi then b else Wipe(WriteSlot(b, hi, Null), lo, hi - 1)
  }

  /** The slots from n up get new boxes with the same contents; the old boxes belong to whoever captured them. */
  function Detach(b: Boxes, n: int): (r: Boxes)
    requires Separate(b) && 0 <= n <= |b.slots|
    ensures Separate(r) && |r.slots| == |b.slots| && b.cells <= r.cells
    ensures forall j :: 0 <= j < |b.slots| ==> At(r, j) == At(b, j)
  {
    var k := |b.slots| - n;
    Boxes(b.cells + seq(k, j requires 0 <= j < k => b.cells[b.slots[n + j]]),
          b.slots[..n] + seq(k, j requires 0 <= j => |b.cells| + j))
  }

  /** n more slots, all null. */
  function Extend(b: Boxes, n: nat): (r: Boxes)
    requires Separate(b)
    ensures Separate(r) && |r.slots| == |b.slots| + n && b.cells <= r.cells
    ensures forall j :: 0 <= j < |r.slots| ==> At(r, j) == if j < |b.slots| then At(b, j) else Null
  {
    Boxes(b.cells + seq(n, _ => Null), b.slots + seq(n, j requires 0 <= j => |b.cells| + j))
  }

  /** Values go into consecutive slots from `at` up, one after the other. */
  function Store(b: Boxes, at: int, vals: seq<Val>): (r: Boxes)
    requires Separate(b) && 0 <= at && at + |vals| <= |b.slots|
    ensures Separate(r) && r.slots == b.slots && |r.cells| == |b.cells|
    ensures forall j :: 0 <= j < |b.slots| ==>
      At(r, j) == if at <= j < at + |vals| then vals[j - at] else At(b, j)
    decreases |vals|
  {
    if vals == [] then b else Store(WriteSlot(b, at, vals[0]), at + 1, vals[1..])
  }

  function Slots(b: Boxes, at: int, n: nat): (s: seq<Val>)
    requires Separate(b) && 0 <= at && at + n <= |b.slots|
    ensures |s| == n
  {
    seq(n, i requires 0 <= i < n => At(b, at + i))
  }

  function Nulls(n: nat): seq<Val> { seq(n, _ => Null) }

  // ---------- Frames ----------

  /** Where to go on when something is thrown: the top to restore, the code position, and the
      register that receives the error. */
  datatype Trap = Trap(stacksize: int, stackbase: int, ip: int, extarget: int)

  /** gen is the generator that runs in the frame, or -1. */
  datatype Frame =
    Frame(base: int, top: int, traps: seq<Trap>, ncalls: nat, root: bool, target: int, ip: int, gen: int)

  datatype Status = Running | Suspended | Dead

  /** A generator: while it is suspended, its frame. */
  datatype Gen = Gen(state: Status, stack: seq<Val>, traps: seq<Trap>, ip: int, ncalls: nat, root: bool)

  /** Boxes, frames from the outermost in, the box behind each captured variable handed out, how many
      metamethod calls are under way (during those the stack cannot grow), and all generators. */
  datatype Ref = Ref(b: Boxes, frames: seq<Frame>, handles: seq<nat>, metas: nat, gens: seq<Gen>)

  const MIN_STACK_OVERHEAD := 15

  ghost predicate TrapsFit(traps: seq<Trap>, size: int) {
    forall k :: 0 <= k < |traps| ==>
      var t := traps[k];
      0 <= t.stackbase <= size && 0 <= t.stacksize < size && 0 <= t.stackbase + t.extarget < size
  }

  ghost predicate FrameFits(f: Frame, size: int) {
    0 <= f.base <= size && 0 <= f.top < size && TrapsFit(f.traps, size)
  }

  /** All frames lie on the stack, and so do the registers that wait for results. */
  ghost predicate FramesFit(frames: seq<Frame>, size: int) {
    && frames != [] && frames[0].traps == []
    && (forall k :: 0 <= k < |frames| ==> FrameFits(frames[k], size))
    && (forall j, k :: 0 <= j < |frames| && k == j + 1 < |frames| && !frames[k].root && frames[k].target != -1 ==>
          0 <= frames[j].base + frames[k].target < size)
  }

  ghost predicate GenFits(g: Gen, size: int) {
    && (g.state == Suspended ==> g.stack != [] && TrapsFit(g.traps, size))
    && (g.state == Running ==> g.traps == [])
  }

  /** A frame's generator is running, in that frame only; suspended generators can be resumed. */
  ghost predicate GensFit(frames: seq<Frame>, gens: seq<Gen>, size: int) {
    && frames != [] && frames[0].gen == -1
    && (forall k :: 0 <= k < |frames| && frames[k].gen != -1 ==>
          0 <= frames[k].gen < |gens| && gens[frames[k].gen].state == Running)
    && (forall j, k :: 0 <= j < k < |frames| && frames[j].gen != -1 ==> frames[j].gen != frames[k].gen)
    && (forall g :: 0 <= g < |gens| ==> GenFits(gens[g], size))
  }

  ghost predicate HandlesFit(handles: seq<nat>, n: nat) {
    forall k :: 0 <= k < |handles| ==> handles[k] < n
  }

  ghost predicate Fine(r: Ref) {
    && Separate(r.b) && FramesFit(r.frames, |r.b.slots|) && GensFit(r.frames, r.gens, |r.b.slots|)
    && HandlesFit(r.handles, |r.b.cells|)
  }

  function Cur(r: Ref): Frame
    requires r.frames != []
  {
    r.frames[|r.frames| - 1]
  }

  function Reframe(r: Ref, f: Frame): Ref
    requires r.frames != []
  {
    r.(frames := r.frames[..|r.frames| - 1] + [f])
  }

  /** Must the stack grow for a frame that ends at newtop, and how large is it then? */
  predicate Tight(size: int, newtop: int) { newtop + MIN_STACK_OVERHEAD > size }

  function Grown(size: int, newtop: int, mayGrow: bool): int {
    if Tight(size, newtop) && mayGrow then size + MIN_STACK_OVERHEAD * 4 else size
  }

  function Room(b: Boxes, newtop: int, mayGrow: bool): (r: Boxes)
    requires Separate(b)
    ensures Separate(r) && |r.slots| == Grown(|b.slots|, newtop, mayGrow) && b.cells <= r.cells
  {
    if Tight(|b.slots|, newtop) && mayGrow then Extend(b, MIN_STACK_OVERHEAD * 4) else b
  }

  // ---------- What keeps a state fine ----------

  lemma TrapsMore(traps: seq<Trap>, size: int, more: int)
    requires TrapsFit(traps, size) && size <= more
    ensures TrapsFit(traps, more)
  {}

  lemma FitsMore(f: Frame, size: int, more: int)
    requires FrameFits(f, size) && size <= more
    ensures FrameFits(f, more)
  {
    TrapsMore(f.traps, size, more);
  }

  lemma FramesMore(frames: seq<Frame>, size: int, more: int)
    requires FramesFit(frames, size) && size <= more
    ensures FramesFit(frames, more)
  {
    hide FrameFits;
    forall k | 0 <= k < |frames| ensures FrameFits(frames[k], more) { FitsMore(frames[k], size, more); }
  }

  lemma GensMore(frames: seq<Frame>, gens: seq<Gen>, size: int, more: int)
    requires GensFit(frames, gens, size) && size <= more
    ensures GensFit(frames, gens, more)
  {
    hide TrapsFit;
    forall g | 0 <= g < |gens| ensures GenFits(gens[g], more) {
      if gens[g].state == Suspended { TrapsMore(gens[g].traps, size, more); }
    }
  }

  /** Other boxes, and not fewer of them. */
  lemma BoxesFine(r: Ref, b: Boxes)
    requires Fine(r) && Separate(b) && |b.slots| >= |r.b.slots| && |b.cells| >= |r.b.cells|
    ensures Fine(r.(b := b))
  {
    hide FramesFit, GensFit, Separate;
    FramesMore(r.frames, |r.b.slots|, |b.slots|);
    GensMore(r.frames, r.gens, |r.b.slots|, |b.slots|);
  }

  /** The current frame changes, but not its place. */
  lemma ReframeFits(frames: seq<Frame>, f: Frame, size: int)
    requires FramesFit(frames, size) && FrameFits(f, size) && (|frames| == 1 ==> f.traps == [])
    requires var g := frames[|frames| - 1]; f.base == g.base && f.root == g.root && f.target == g.target
    ensures FramesFit(frames[..|frames| - 1] + [f], size)
  {}

  lemma SameGens(frames: seq<Frame>, f: Frame, gens: seq<Gen>, size: int)
    requires GensFit(frames, gens, size) && f.gen == frames[|frames| - 1].gen
    ensures GensFit(frames[..|frames| - 1] + [f], gens, size)
  {}

  lemma ReframeFine(r: Ref, f: Frame)
    requires Fine(r) && FrameFits(f, |r.b.slots|) && (|r.frames| == 1 ==> f.traps == [])
    requires f.base == Cur(r).base && f.root == Cur(r).root && f.target == Cur(r).target && f.gen == Cur(r).gen
    ensures Fine(Reframe(r, f))
  {
    hide FramesFit, GensFit, Separate;
    ReframeFits(r.frames, f, |r.b.slots|);
    SameGens(r.frames, f, r.gens, |r.b.slots|);
  }

  lemma EnterFits(frames: seq<Frame>, f: Frame, size: int)
    requires FramesFit(frames, size) && FrameFits(f, size)
    requires !f.root && f.target != -1 ==> 0 <= frames[|frames| - 1].base + f.target < size
    ensures FramesFit(frames + [f], size)
  {}

  lemma EnterGens(frames: seq<Frame>, f: Frame, gens: seq<Gen>, size: int)
    requires GensFit(frames, gens, size)
    requires f.gen != -1 ==>
      0 <= f.gen < |gens| && gens[f.gen].state == Running && forall k :: 0 <= k < |frames| ==> frames[k].gen != f.gen
    ensures GensFit(frames + [f], gens, size)
  {}

  lemma EnteredFine(r: Ref, f: Frame)
    requires Fine(r) && FrameFits(f, Grown(|r.b.slots|, f.top, r.metas == 0)) && f.gen == -1
    requires !f.root && f.target != -1 ==> 0 <= Cur(r).base + f.target < |r.b.slots|
    ensures Fine(Entered(r, f))
  {
    hide FramesFit, GensFit, Separate, Room;
    var size := Grown(|r.b.slots|, f.top, r.metas == 0);
    FramesMore(r.frames, |r.b.slots|, size);
    GensMore(r.frames, r.gens, |r.b.slots|, size);
    EnterFits(r.frames, f, size);
    EnterGens(r.frames, f, r.gens, size);
  }

  /** The current frame is done with its generator, whose record changes. */
  lemma RetireGens(frames: seq<Frame>, f: Frame, gens: seq<Gen>, g: int, gen: Gen, size: int)
    requires GensFit(frames, gens, size) && 0 <= g < |gens| && f.gen == -1 && GenFits(gen, size)
    requires forall k :: 0 <= k < |frames| - 1 ==> frames[k].gen != g
    ensures GensFit(frames[..|frames| - 1] + [f], gens[g := gen], size)
  {}

  // ---------- Leaving frames ----------

  function Entered(r: Ref, f: Frame): Ref
    requires Fine(r)
  {
    r.(b := Room(r.b, f.top, r.metas == 0), frames := r.frames + [f])
  }

  function Leave(r: Ref): (r2: Ref)
    requires Fine(r) && |r.frames| > 1
    ensures Fine(r2) && r2.handles == r.handles && r2.metas == r.metas && |r2.b.slots| == |r.b.slots|
    ensures r2.gens == r.gens && r2.frames == r.frames[..|r.frames| - 1]
  {
    var n := |r.frames| - 1;
    r.(b := Wipe(Detach(r.b, r.frames[n].base), r.frames[n - 1].top, r.frames[n].top), frames := r.frames[..n])
  }

  /** The generator of the current frame, if it has one, is dead and no longer the frame's. */
  function Kill(r: Ref): (r2: Ref)
    requires Fine(r)
    ensures Fine(r2) && r2.b == r.b && r2.handles == r.handles && r2.metas == r.metas && |r2.frames| == |r.frames|
    ensures Cur(r2) == Cur(r).(gen := -1) && r2.frames[..|r.frames| - 1] == r.frames[..|r.frames| - 1]
  {
    var f := Cur(r);
    if f.gen == -1 then r else
    var gen := r.gens[f.gen].(state := Dead, stack := []);
    KillFine(r, gen);
    Reframe(r, f.(gen := -1)).(gens := r.gens[f.gen := gen])
  }

  lemma KillFine(r: Ref, gen: Gen)
    requires Fine(r) && Cur(r).gen != -1 && gen.state == Dead
    ensures 0 <= Cur(r).gen < |r.gens| && Fine(Reframe(r, Cur(r).(gen := -1)).(gens := r.gens[Cur(r).gen := gen]))
  {
    hide FramesFit, Separate;
    CurFits(r);
    ReframeFits(r.frames, Cur(r).(gen := -1), |r.b.slots|);
    RetireGens(r.frames, Cur(r).(gen := -1), r.gens, Cur(r).gen, gen, |r.b.slots|);
  }

  lemma CurFits(r: Ref)
    requires Fine(r)
    ensures r.frames != [] && 0 <= Cur(r).base <= |r.b.slots| && 0 <= Cur(r).top < |r.b.slots|
            && FrameFits(Cur(r), |r.b.slots|)
    ensures |r.frames| == 1 ==> Cur(r).traps == []
    ensures |r.frames| > 1 && !Cur(r).root && Cur(r).target != -1 ==>
      0 <= r.frames[|r.frames| - 2].base + Cur(r).target < |r.b.slots|
  {}

  /** The result goes to the caller's register, to nobody, or out of a root frame; then the frame is left. */
  function Returned(r: Ref, arg0: int, arg1: int): (res: (Ref, Out))
    requires Fine(r) && |r.frames| > 1 && (arg0 != 0xFF ==> 0 <= Cur(r).base + arg1 < |r.b.slots|)
    ensures Fine(res.0) && res.0.handles == r.handles && res.0.metas == r.metas && |res.0.b.slots| == |r.b.slots|
    ensures res.0.gens == r.gens && res.0.frames == r.frames[..|r.frames| - 1]
  {
    CurFits(r);
    var f, n := Cur(r), |r.frames| - 1;
    var v := if arg0 != 0xFF then At(r.b, f.base + arg1) else Null;
    if f.root then (Leave(r), Value(v))
    else if f.target == -1 then (Leave(r), Nothing)
    else
      var b := WriteSlot(r.b, r.frames[n - 1].base + f.target, v);
      BoxesFine(r, b);
      (Leave(r.(b := b)), Nothing)
  }

  /** The frames as they are when everything lies d slots higher. */
  function Shift(frames: seq<Frame>, d: int): (s: seq<Frame>)
    ensures |s| == |frames|
  {
    seq(|frames|, k requires 0 <= k < |frames| => frames[k].(base := frames[k].base + d, top := frames[k].top + d))
  }

  /** The trap of the current frame that takes an error. */
  function LastTrap(r: Ref): Trap
    requires r.frames != [] && Cur(r).traps != []
  {
    Cur(r).traps[|Cur(r).traps| - 1]
  }

  /** How far from its frame the trap's own base is: not at all, unless the frame is a generator's
      that has moved since it pushed the trap. */
  function Off(r: Ref): int
    requires r.frames != [] && Cur(r).traps != []
  {
    LastTrap(r).stackbase - Cur(r).base
  }

  /** The frame that takes an error goes to the base of the trap.  Callers' bases are found relative
      to it, so they all move along. */
  function Landed(r: Ref): seq<Frame>
    requires r.frames != [] && Cur(r).traps != []
  {
    var f, t := Cur(r), LastTrap(r);
    Shift(r.frames[..|r.frames| - 1], Off(r))
    + [f.(traps := f.traps[..|f.traps| - 1], base := t.stackbase, top := t.stacksize, ip := t.ip)]
  }

  /** Wherever a throw lands, the frames are still on the stack. */
  ghost predicate Lands(r: Ref)
    requires Fine(r)
    decreases |r.frames|
  {
    if Cur(r).traps != [] then FramesFit(Landed(r), |r.b.slots|)
    else |r.frames| == 1 || Cur(r).root || Lands(Leave(Kill(r)))
  }

  lemma LandedGens(r: Ref, size: int)
    requires r.frames != [] && Cur(r).traps != [] && GensFit(r.frames, r.gens, size)
    ensures GensFit(Landed(r), r.gens, size)
  {}

  /** The frames are left one by one up to one with a trap, or up to and including a root frame. */
  function Unwind(r: Ref, error: Val, lastTop: int): (res: (Ref, bool))
    requires Fine(r) && 0 <= lastTop < |r.b.slots| && Lands(r)
    ensures Fine(res.0) && res.0.handles == r.handles && res.0.metas == r.metas && |res.0.b.slots| == |r.b.slots|
    decreases |r.frames|
  {
    CurFits(r);
    var f := Cur(r);
    if f.traps != [] then
      var t := LastTrap(r);
      LandedGens(r, |r.b.slots|);
      var b := Wipe(WriteSlot(r.b, t.stackbase + t.extarget, error), t.stacksize, lastTop);
      (r.(frames := Landed(r), b := b), true)
    else if |r.frames| == 1 then (r, false)
    else if f.root then (Leave(Kill(r)), false)
    else Unwind(Leave(Kill(r)), error, lastTop)
  }

  // ---------- Generators ----------

  /** The saved frame: the slots below target, the rest null. */
  function Saved(frame: seq<Val>, target: int): (s: seq<Val>)
    requires frame != []
    ensures |s| == |frame|
  {
    seq(|frame|, n requires 0 <= n < |frame| =>
      if n == 0 then Weakened(frame[0]) else if n < target then frame[n] else Null)
  }

  /** The current frame moves off the stack into generator g. */
  function Parked(r: Ref, g: int, target: int): (p: Ref)
    requires Fine(r) && 0 <= g < |r.gens| && Cur(r).base < Cur(r).top
    requires forall k :: 0 <= k < |r.frames| - 1 ==> r.frames[k].gen != g
    ensures Fine(p) && p.handles == r.handles && p.metas == r.metas && |p.b.slots| == |r.b.slots|
    ensures p.frames == r.frames[..|r.frames| - 1] + [Cur(r).(traps := [], gen := -1)]
  {
    CurFits(r);
    var f := Cur(r);
    var size := f.top - f.base;
    var gen := Gen(Suspended, Saved(Slots(r.b, f.base, size), target), f.traps, f.ip, f.ncalls, f.root);
    var b := Store(r.b, f.base, Nulls(size));
    ParkedFine(r, g, gen, b);
    Reframe(r, f.(traps := [], gen := -1)).(b := b, gens := r.gens[g := gen])
  }

  lemma ParkedFine(r: Ref, g: int, gen: Gen, b: Boxes)
    requires Fine(r) && 0 <= g < |r.gens| && gen.state == Suspended && gen.stack != [] && gen.traps == Cur(r).traps
    requires forall k :: 0 <= k < |r.frames| - 1 ==> r.frames[k].gen != g
    requires Separate(b) && |b.slots| == |r.b.slots| && |b.cells| == |r.b.cells|
    ensures Fine(Reframe(r, Cur(r).(traps := [], gen := -1)).(b := b, gens := r.gens[g := gen]))
  {
    hide FramesFit, GensFit, Separate;
    CurFits(r);
    ReframeFits(r.frames, Cur(r).(traps := [], gen := -1), |r.b.slots|);
    RetireGens(r.frames, Cur(r).(traps := [], gen := -1), r.gens, g, gen, |r.b.slots|);
  }

  function Yielded(r: Ref, arg0: int, arg1: int, target: int): (res: (Ref, Out))
    requires Fine(r) && Fits(r, Yield(arg0, arg1, target)) && Cur(r).gen != -1
    ensures Fine(res.0)
  {
    GenOf(r);
    var p := Parked(r, Cur(r).gen, target);
    if arg1 == 0xFF then Returned(p, arg0, arg1) else
    var b := WriteSlot(p.b, Cur(r).base + arg1, At(r.b, Cur(r).base + arg1));
    BoxesFine(p, b);
    Returned(p.(b := b), arg0, arg1)
  }

  lemma GenOf(r: Ref)
    requires Fine(r) && Cur(r).gen != -1
    ensures |r.frames| > 1 && 0 <= Cur(r).gen < |r.gens| && r.gens[Cur(r).gen].state == Running
    ensures forall k :: 0 <= k < |r.frames| - 1 ==> r.frames[k].gen != Cur(r).gen
  {}

  /** What comes back onto the stack. */
  function Unsaved(stack: seq<Val>, alive: set<Val>): (s: seq<Val>)
    requires stack != []
    ensures |s| == |stack|
  {
    [Restored(stack[0], alive)] + stack[1..]
  }

  function Resumed(r: Ref, g: nat, target: int, alive: set<Val>): (res: (Ref, Out))
    requires Fine(r) && Fits(r, Resume(g, target, alive)) && r.gens[g].state == Suspended
    ensures Fine(res.0)
  {
    SuspendedFits(r, g);
    var gen, base := r.gens[g], Cur(r).top;
    var newtop := base + |gen.stack|;
    if Tight(|r.b.slots|, newtop) && r.metas > 0 then
      EnteredFine(r, Frame(base, newtop, [], 1, false, -1, 0, -1));
      (Entered(r, Frame(base, newtop, [], 1, false, -1, 0, -1)), Flag(false))
    else
      var f := Frame(base, newtop, gen.traps, gen.ncalls, gen.root, target, gen.ip, g);
      var b := Store(Room(r.b, newtop, r.metas == 0), base, Unsaved(gen.stack, alive));
      ResumedFine(r, g, f, b);
      (r.(b := b, frames := r.frames + [f], gens := r.gens[g := gen.(state := Running, stack := [], traps := [])]),
       Flag(true))
  }

  lemma SuspendedFits(r: Ref, g: nat)
    requires Fine(r) && g < |r.gens| && r.gens[g].state == Suspended
    ensures r.gens[g].stack != [] && TrapsFit(r.gens[g].traps, |r.b.slots|)
    ensures forall k :: 0 <= k < |r.frames| ==> r.frames[k].gen != g
    ensures 0 <= Cur(r).top < |r.b.slots|
  {}

  lemma ResumedFine(r: Ref, g: nat, f: Frame, b: Boxes)
    requires Fine(r) && g < |r.gens| && r.gens[g].state == Suspended && f.gen == g && f.traps == r.gens[g].traps
    requires Separate(b) && |b.slots| >= |r.b.slots| && |b.cells| >= |r.b.cells|
    requires 0 <= f.base <= |b.slots| && 0 <= f.top < |b.slots|
    requires !f.root && f.target != -1 ==> 0 <= Cur(r).base + f.target < |r.b.slots|
    ensures var gen := r.gens[g].(state := Running, stack := [], traps := []);
      Fine(r.(b := b, frames := r.frames + [f], gens := r.gens[g := gen]))
  {
    hide FramesFit, Separate, TrapsFit;
    SuspendedFits(r, g);
    TrapsMore(f.traps, |r.b.slots|, |b.slots|);
    FramesMore(r.frames, |r.b.slots|, |b.slots|);
    EnterFits(r.frames, f, |b.slots|);
    ResumeGens(r, g, f, |b.slots|);
  }

  lemma ResumeGens(r: Ref, g: nat, f: Frame, size: int)
    requires GensFit(r.frames, r.gens, |r.b.slots|) && g < |r.gens| && r.gens[g].state == Suspended && f.gen == g
    requires |r.b.slots| <= size
    ensures var gen := r.gens[g].(state := Running, stack := [], traps := []);
      GensFit(r.frames + [f], r.gens[g := gen], size)
  {
    hide TrapsFit;
    GensMore(r.frames, r.gens, |r.b.slots|, size);
    var gens := r.gens[g := r.gens[g].(state := Running, stack := [], traps := [])];
    assert GensFit(r.frames, gens, size);
    EnterGens(r.frames, f, gens, size);
  }

  const Newborn := Gen(Running, [], [], 0, 0, false)

  function Born(r: Ref): (n: Ref)
    requires Fine(r)
    ensures Fine(n) && |n.gens| == |r.gens| + 1 && forall k :: 0 <= k < |n.frames| ==> n.frames[k].gen != |r.gens|
  {
    NewGenFine(r);
    r.(gens := r.gens + [Newborn])
  }

  lemma NewGenFine(r: Ref)
    requires Fine(r)
    ensures Fine(r.(gens := r.gens + [Newborn]))
    ensures forall k :: 0 <= k < |r.frames| ==> r.frames[k].gen != |r.gens|
  {}

  /** The current frame is parked in the newest generator at once, and the generator is the result. */
  function Delivered(r: Ref, target: int): (res: (Ref, Out))
    requires Fine(r) && |r.frames| > 1 && r.gens != [] && Cur(r).base < Cur(r).top
    requires forall k :: 0 <= k < |r.frames| ==> r.frames[k].gen != |r.gens| - 1
    requires 0 <= Cur(r).base + target < |r.b.slots| && 0 <= r.frames[|r.frames| - 2].base + target < |r.b.slots|
    ensures Fine(res.0) && res.0.frames == r.frames[..|r.frames| - 1] && res.0.handles == r.handles
            && res.1 == Flag(true)
  {
    var g := |r.gens| - 1;
    var q := Returned(Parked(r, g, Cur(r).top - Cur(r).base), 1, target).0;
    var b := WriteSlot(q.b, Cur(q).base + target, Generator(g));
    BoxesFine(q, b);
    (q.(b := b), Flag(true))
  }

  function Called(r: Ref, newbase: int, newtop: int, target: int, root: bool, ip: int): (Ref, Out)
    requires Fine(r)
  {
    var ok := !Tight(|r.b.slots|, newtop) || r.metas == 0;
    var f := Frame(newbase, newtop, [], 1, ok && root, if ok then target else -1, if ok then ip else 0, -1);
    (Entered(r, f), Flag(ok))
  }

  lemma CalledFine(r: Ref, newbase: int, newtop: int, target: int, root: bool, ip: int)
    requires Fine(r) && 0 <= newbase <= newtop < Grown(|r.b.slots|, newtop, r.metas == 0)
    requires !root && target != -1 ==> 0 <= Cur(r).base + target < |r.b.slots|
    ensures Fine(Called(r, newbase, newtop, target, root, ip).0)
  {
    hide FramesFit, GensFit, Room, Separate;
    CurFits(r);
    var ok := !Tight(|r.b.slots|, newtop) || r.metas == 0;
    EnteredFine(r, Frame(newbase, newtop, [], 1, ok && root, if ok then target else -1, if ok then ip else 0, -1));
  }

  /** A call of a generator function. */
  function Generated(r: Ref, newbase: int, newtop: int, target: int, ip: int): (res: (Ref, Out))
    requires Fine(r) && Fits(r, Generate(newbase, newtop, target, ip))
    ensures Fine(res.0)
  {
    CalledFine(r, newbase, newtop, target, false, ip);
    var e := Called(r, newbase, newtop, target, false, ip);
    if e.1 == Flag(false) then e else Delivered(Born(e.0), target)
  }

  // ---------- Operations ----------

  datatype Op =
    | Call(newbase: int, newtop: int, target: int, root: bool, ip: int)
    | TailCall(from: int, nargs: nat, newtop: int, ip: int)
    | Native(newbase: int, newtop: int)
    | LeaveNative
    | Return(arg0: int, arg1: int)
    | Generate(newbase: int, newtop: int, target: int, ip: int)
    | Yield(arg0: int, arg1: int, target: int)
    | Resume(g: nat, target: int, alive: set<Val>)
    | Go(ip: int)
    | PushTrap(handler: int, extarget: int)
    | PopTrap(n: nat)
    | Throw(error: Val)
    | Push(v: Val)
    | Pop(n: nat)
    | Capture(slot: int)
    | Inherit(k: nat)
    | GetOuter(k: nat)
    | SetOuter(k: nat, v: Val)
    | GetSlot(slot: int)
    | SetSlot(slot: int, v: Val)
    | CloseFrom(slot: int)
    | BeginMeta
    | EndMeta

  datatype Out = Nothing | Value(v: Val) | Flag(ok: bool)

  /** What the interpreter may count on: registers and frames lie on the stack, the new frame fits
      once the stack has grown, and a frame has popped its traps when it returns. */
  ghost predicate Fits(r: Ref, op: Op)
    requires Fine(r)
  {
    var f, size := Cur(r), |r.b.slots|;
    match op
    case Call(newbase, newtop, target, root, _) =>
      && 0 <= newbase <= newtop < Grown(size, newtop, r.metas == 0)
      && (!root && target != -1 ==> 0 <= f.base + target < size)
    case TailCall(from, nargs, newtop, _) =>
      && |r.frames| > 1 && 0 <= from && f.base + from + nargs <= size && f.base + nargs <= size
      && 0 <= newtop < Grown(size, newtop, r.metas == 0)
    case Native(newbase, newtop) => 0 <= newbase <= newtop < Grown(size, newtop, r.metas == 0)
    case LeaveNative => |r.frames| > 1 && f.traps == [] && f.gen == -1
    case Return(arg0, arg1) => |r.frames| > 1 && f.traps == [] && (arg0 != 0xFF ==> 0 <= f.base + arg1 < size)
    case Generate(newbase, newtop, target, _) =>
      && 0 <= newbase < newtop < Grown(size, newtop, r.metas == 0)
      && 0 <= f.base + target < size && 0 <= newbase + target < Grown(size, newtop, r.metas == 0)
    case Yield(arg0, arg1, target) =>
      f.gen != -1 ==>
        && f.base < f.top && target <= f.top - f.base
        && (arg0 != 0xFF || arg1 != 0xFF ==> 0 <= f.base + arg1 < size)
    case Resume(g, target, _) =>
      g < |r.gens| &&
      (r.gens[g].state == Suspended ==>
         && f.top + |r.gens[g].stack| < Grown(size, f.top + |r.gens[g].stack|, r.metas == 0)
         && 0 <= f.base + target < size)
    case Go(_) => |r.frames| > 1
    case PushTrap(_, extarget) => |r.frames| > 1 && 0 <= f.base + extarget < size
    case PopTrap(n) => |r.frames| > 1 && n <= |f.traps|
    case Throw(_) => Lands(r)
    case Push(_) => f.top + 1 < size
    case Pop(n) => n <= f.top
    case Capture(slot) => 0 <= f.base + slot < size
    case Inherit(k) => k < |r.handles|
    case GetOuter(k) => k < |r.handles|
    case SetOuter(k, _) => k < |r.handles|
    case GetSlot(slot) => 0 <= f.base + slot < size
    case SetSlot(slot, _) => 0 <= f.base + slot < size
    case CloseFrom(slot) => 0 <= f.base + slot <= size
    case BeginMeta => true
    case EndMeta => r.metas > 0
  }

  /** The arguments move down to the start of the frame, one after the other. */
  function Moved(b: Boxes, base: int, from: int, i: nat, nargs: nat): (r: Boxes)
    requires Separate(b) && i <= nargs && 0 <= base && 0 <= from
    requires base + from + nargs <= |b.slots| && base + nargs <= |b.slots|
    ensures Separate(r) && r.slots == b.slots && |r.cells| == |b.cells|
    decreases nargs - i
  {
    if i == nargs then b else Moved(WriteSlot(b, base + i, At(b, base + from + i)), base, from, i + 1, nargs)
  }

  function TailCalled(r: Ref, from: int, nargs: nat, newtop: int, ip: int): (Ref, Out)
    requires Fine(r) && Fits(r, TailCall(from, nargs, newtop, ip))
  {
    CurFits(r);
    var f, ok := Cur(r), !Tight(|r.b.slots|, newtop) || r.metas == 0;
    var b := Moved(Detach(r.b, f.base), f.base, from, 0, nargs);
    var g := f.(top := newtop, ncalls := f.ncalls + 1, ip := if ok then ip else f.ip);
    (Reframe(r.(b := Room(b, newtop, r.metas == 0)), g), Flag(ok))
  }

  /** Operations that use the current frame and keep it. */
  predicate Within(op: Op) {
    op.Push? || op.Pop? || op.Capture? || op.Inherit? || op.GetOuter? || op.SetOuter? || op.GetSlot? || op.SetSlot? ||
    op.CloseFrom? || op.BeginMeta? || op.EndMeta?
  }

  function StepWithin(r: Ref, op: Op): (res: (Ref, Out))
    requires Fine(r) && Fits(r, op) && Within(op)
  {
    CurFits(r);
    var f := Cur(r);
    match op
    case Push(v) => (Reframe(r.(b := WriteSlot(r.b, f.top, v)), f.(top := f.top + 1)), Nothing)
    case Pop(k) => (Reframe(r.(b := Wipe(r.b, f.top - k, f.top - 1)), f.(top := f.top - k)), Nothing)
    case Capture(slot) => (r.(handles := r.handles + [r.b.slots[f.base + slot]]), Nothing)
    case Inherit(k) => (r.(handles := r.handles + [r.handles[k]]), Nothing)
    case GetOuter(k) => (r, Value(r.b.cells[r.handles[k]]))
    case SetOuter(k, v) => (r.(b := WriteCell(r.b, r.handles[k], v)), Nothing)
    case GetSlot(slot) => (r, Value(At(r.b, f.base + slot)))
    case SetSlot(slot, v) => (r.(b := WriteSlot(r.b, f.base + slot, v)), Nothing)
    case CloseFrom(slot) => (r.(b := Detach(r.b, f.base + slot)), Nothing)
    case BeginMeta => (r.(metas := r.metas + 1), Nothing)
    case EndMeta => (r.(metas := r.metas - 1), Nothing)
  }

  function Step(r: Ref, op: Op): (res: (Ref, Out))
    requires Fine(r) && Fits(r, op)
  {
    if Within(op) then StepWithin(r, op) else
    CurFits(r);
    var f := Cur(r);
    match op
    case Call(newbase, newtop, target, root, ip) => Called(r, newbase, newtop, target, root, ip)
    case TailCall(from, nargs, newtop, ip) => TailCalled(r, from, nargs, newtop, ip)
    case Native(newbase, newtop) =>
      (Entered(r, Frame(newbase, newtop, [], 1, false, -1, 0, -1)), Flag(!Tight(|r.b.slots|, newtop) || r.metas == 0))
    case LeaveNative => (Leave(r), Nothing)
    case Return(arg0, arg1) => Returned(Kill(r), arg0, arg1)
    case Generate(newbase, newtop, target, ip) => Generated(r, newbase, newtop, target, ip)
    case Yield(arg0, arg1, target) => if f.gen == -1 then (r, Flag(false)) else Yielded(r, arg0, arg1, target)
    case Resume(g, target, alive) =>
      if r.gens[g].state != Suspended then (r, Flag(false)) else Resumed(r, g, target, alive)
    case Go(ip) => (Reframe(r, f.(ip := ip)), Nothing)
    case PushTrap(handler, extarget) =>
      (Reframe(r, f.(traps := f.traps + [Trap(f.top, f.base, handler, extarget)])), Nothing)
    case PopTrap(k) => (Reframe(r, f.(traps := f.traps[..|f.traps| - k])), Nothing)
    case Throw(error) => var u := Unwind(r, error, f.top); (u.0, Flag(u.1))
  }

  lemma StepFine(r: Ref, op: Op)
    requires Fine(r) && Fits(r, op)
    ensures Fine(Step(r, op).0)
  {
    if op.Call? || op.Native? || op.TailCall? { EnterFine(r, op); }
    else if op.PushTrap? || op.PopTrap? || op.Push? || op.Pop? || op.Go? { FrameFine(r, op); }
    else if op.Capture? || op.Inherit? { CaptureFine(r, op); }
    else { RestFine(r, op); }
  }

  lemma EnterFine(r: Ref, op: Op)
    requires Fine(r) && Fits(r, op) && (op.Call? || op.Native? || op.TailCall?)
    ensures Fine(Step(r, op).0)
  {
    hide Moved, Detach, Room, Separate, FramesFit, GensFit;
    CurFits(r);
    match op
    case Call(newbase, newtop, target, root, ip) => CalledFine(r, newbase, newtop, target, root, ip);
    case TailCall(from, nargs, newtop, ip) =>
      var f, ok := Cur(r), !Tight(|r.b.slots|, newtop) || r.metas == 0;
      var b := Room(Moved(Detach(r.b, f.base), f.base, from, 0, nargs), newtop, r.metas == 0);
      BoxesFine(r, b);
      FitsMore(f, |r.b.slots|, |b.slots|);
      ReframeFine(r.(b := b), f.(top := newtop, ncalls := f.ncalls + 1, ip := if ok then ip else f.ip));
    case Native(newbase, newtop) => EnteredFine(r, Frame(newbase, newtop, [], 1, false, -1, 0, -1));
  }

  lemma FrameFine(r: Ref, op: Op)
    requires Fine(r) && Fits(r, op) && (op.PushTrap? || op.PopTrap? || op.Push? || op.Pop? || op.Go?)
    ensures Fine(Step(r, op).0)
  {
    hide Wipe, WriteSlot, Separate, FramesFit, GensFit;
    CurFits(r);
    var f := Cur(r);
    match op
    case PushTrap(handler, extarget) => ReframeFine(r, f.(traps := f.traps + [Trap(f.top, f.base, handler, extarget)]));
    case PopTrap(k) => ReframeFine(r, f.(traps := f.traps[..|f.traps| - k]));
    case Push(v) =>
      BoxesFine(r, WriteSlot(r.b, f.top, v));
      ReframeFine(r.(b := WriteSlot(r.b, f.top, v)), f.(top := f.top + 1));
    case Pop(k) =>
      BoxesFine(r, Wipe(r.b, f.top - k, f.top - 1));
      ReframeFine(r.(b := Wipe(r.b, f.top - k, f.top - 1)), f.(top := f.top - k));
    case Go(ip) => ReframeFine(r, f.(ip := ip));
  }

  lemma CaptureFine(r: Ref, op: Op)
    requires Fine(r) && Fits(r, op) && (op.Capture? || op.Inherit?)
    ensures Fine(Step(r, op).0)
  {
    hide FramesFit, GensFit;
  }

  lemma RestFine(r: Ref, op: Op)
    requires Fine(r) && Fits(r, op) && !op.Call? && !op.Native? && !op.TailCall? && !op.PushTrap? && !op.PopTrap?
    requires !op.Push? && !op.Pop? && !op.Go? && !op.Capture? && !op.Inherit?
    ensures Fine(Step(r, op).0)
  {
    hide WriteCell, WriteSlot, Detach, Leave, Unwind, Separate, FramesFit, GensFit;
    hide Returned, Yielded, Resumed, Generated, Kill;
    CurFits(r);
    match op
    case SetOuter(k, v) => BoxesFine(r, WriteCell(r.b, r.handles[k], v));
    case SetSlot(slot, v) => BoxesFine(r, WriteSlot(r.b, Cur(r).base + slot, v));
    case CloseFrom(slot) => BoxesFine(r, Detach(r.b, Cur(r).base + slot));
    case _ =>
  }

  // ---------- Runs ----------

  ghost predicate AllFit(r: Ref, ops: seq<Op>)
    requires Fine(r)
    decreases |ops|
  {
    ops != [] ==> Fits(r, ops[0]) && (StepFine(r, ops[0]); AllFit(Step(r, ops[0]).0, ops[1..]))
  }

  function Run(r: Ref, ops: seq<Op>): (res: (Ref, seq<Out>))
    requires Fine(r) && AllFit(r, ops)
    ensures Fine(res.0)
    decreases |ops|
  {
    if ops == [] then (r, []) else
    StepFine(r, ops[0]);
    var s := Step(r, ops[0]);
    var rest := Run(s.0, ops[1..]);
    (rest.0, [s.1] + rest.1)
  }

  /** A new interpreter with a stack of the given size. */
  function Start(size: nat): (r: Ref)
    requires size > 0
    ensures Fine(r)
  {
    Ref(Extend(Boxes([], []), size), [Frame(0, 0, [], 0, false, -1, 0, -1)], [], 0, [])
  }
}
