/** Runs of the reference machine, from the start, that reach what one would not expect. */
module FrameExamples {
  import opened CallFrames
  import opened FrameLaws

  // ---------- A generator resumed elsewhere ----------

  /** One more operation at the end of a run. */
  lemma {:induction false} RunMore(r: Ref, ops: seq<Op>, op: Op)
    requires Fine(r) && AllFit(r, ops) && Fits(Run(r, ops).0, op)
    ensures AllFit(r, ops + [op]) && Run(r, ops + [op]).0 == Step(Run(r, ops).0, op).0
    decreases |ops|
  {
    hide Fine, Fits, Step;
    var all := ops + [op];
    if ops == [] {
      assert all[0] == op && all[1..] == [];
      StepFine(r, op);
    } else {
      StepFine(r, ops[0]);
      assert all[0] == ops[0] && all[1..] == ops[1..] + [op];
      RunMore(Step(r, ops[0]).0, ops[1..], op);
    }
  }

  /** A generator is called and resumed on slot 3, pushes a trap there, and yields. */
  const YieldedWithTrap: seq<Op> := [
    Push(Null), Push(Null), Push(Null), Generate(3, 7, 0, 10), Resume(0, 0, {}), PushTrap(20, 1), Yield(0xFF, 0xFF, 4)]

  /** One value is popped, and the generator is resumed one slot lower. */
  const ResumedLower: seq<Op> := YieldedWithTrap + [Pop(1)] + [Resume(0, 0, {})]

  /** Only the outermost frame is there, with n values in it. */
  ghost predicate Ground(r: Ref, n: nat) {
    Fine(r) && r.frames == [Frame(0, n, [], 0, false, -1, 0, -1)] && |r.b.slots| == 100 && r.metas == 0
  }

  lemma GroundPush(r: Ref, n: nat)
    requires Ground(r, n) && n < 9
    ensures Fits(r, Push(Null)) && Ground(Step(r, Push(Null)).0, n + 1) && Step(r, Push(Null)).0.gens == r.gens
  {
    hide FramesFit, GensFit, Separate, WriteSlot;
    StepFine(r, Push(Null));
  }

  lemma GroundPop(r: Ref, n: nat)
    requires Ground(r, n) && 0 < n
    ensures Fits(r, Pop(1)) && Ground(Step(r, Pop(1)).0, n - 1) && Step(r, Pop(1)).0.gens == r.gens
  {
    hide FramesFit, GensFit, Separate, Wipe;
    StepFine(r, Pop(1));
  }

  lemma GroundGenerate(r: Ref)
    requires Ground(r, 3) && r.gens == []
    ensures Fits(r, Generate(3, 7, 0, 10))
    ensures var q := Step(r, Generate(3, 7, 0, 10)).0;
      Ground(q, 3) && |q.gens| == 1 && q.gens[0].state == Suspended && q.gens[0].traps == [] && |q.gens[0].stack| == 4
  {
    hide FramesFit, GensFit, Separate, WriteSlot, Store;
    StepFine(r, Generate(3, 7, 0, 10));
  }

  /** The generator of the example is suspended, with these traps. */
  ghost predicate Waiting(r: Ref, traps: seq<Trap>) {
    |r.gens| == 1 && r.gens[0].state == Suspended && r.gens[0].traps == traps && |r.gens[0].stack| == 4
  }

  lemma GroundResume(r: Ref, n: nat, traps: seq<Trap>)
    requires Ground(r, n) && 0 < n < 9 && Waiting(r, traps)
    ensures Fits(r, Resume(0, 0, {}))
    ensures var q, gen := Step(r, Resume(0, 0, {})).0, r.gens[0];
      && Fine(q) && |q.b.slots| == 100 && q.metas == 0 && |q.gens| == 1
      && q.frames == [Frame(0, n, [], 0, false, -1, 0, -1), Frame(n, n + 4, traps, gen.ncalls, gen.root, 0, gen.ip, 0)]
  {
    hide FramesFit, GensFit, Separate, Store;
    StepFine(r, Resume(0, 0, {}));
  }

  lemma ExampleYields(r: Ref)
    requires Fine(r) && |r.frames| == 2 && r.frames[0] == Frame(0, 3, [], 0, false, -1, 0, -1)
    requires |r.b.slots| == 100 && r.metas == 0 && |r.gens| == 1
    requires Cur(r).base == 3 && Cur(r).top == 7 && Cur(r).gen == 0 && Cur(r).traps == []
    ensures Fits(r, PushTrap(20, 1)) && Fine(Step(r, PushTrap(20, 1)).0)
    ensures Fits(Step(r, PushTrap(20, 1)).0, Yield(0xFF, 0xFF, 4))
    ensures var q := Step(Step(r, PushTrap(20, 1)).0, Yield(0xFF, 0xFF, 4)).0;
            Ground(q, 3) && Waiting(q, [Trap(7, 3, 20, 1)])
  {
    hide FramesFit, GensFit, Separate, Store, WriteSlot, Yielded, Slots;
    StepFine(r, PushTrap(20, 1));
    var p := Step(r, PushTrap(20, 1)).0;
    StepFine(p, Yield(0xFF, 0xFF, 4));
    YieldedFrames(p, 0xFF, 0xFF, 4);
    YieldedGens(p, 0xFF, 0xFF, 4);
    YieldedRest(p);
  }

  lemma YieldedRest(r: Ref)
    requires Fine(r) && Fits(r, Yield(0xFF, 0xFF, 4)) && Cur(r).gen != -1
    ensures var q := Yielded(r, 0xFF, 0xFF, 4).0; |q.b.slots| == |r.b.slots| && q.metas == r.metas
  {
    hide FramesFit, GensFit, Separate;
    GenOf(r);
  }

  /** A generator with a trap that is resumed one slot lower than before: the error it catches puts it one
      slot too high, and its caller with it. */
  lemma StaleExample()
    ensures AllFit(Start(100), ResumedLower)
    ensures var r := Run(Start(100), ResumedLower).0;
      && Fits(r, Throw(Thing(9))) && |r.frames| == 2 && r.frames[0].base == 0 && r.frames[1].base == 2
      && var u := Step(r, Throw(Thing(9))).0; |u.frames| == 2 && u.frames[0].base == 1 && u.frames[1].base == 3
  {
    hide Fine, Fits, Step, Run, AllFit;
    var o, p := Start(100), Push(Null);
    assert [] + [p] == [p] && [p] + [p] == [p, p] && [p, p] + [p] == [p, p, p];
    ExampleStart();
    var r1 := Extended(o, [], o, p, 0);
    var r2 := Extended(o, [p], r1, p, 1);
    var r3 := Extended(o, [p, p], r2, p, 2);
    GroundGenerate(r3);
    var ops := [p, p, p];
    RunMore(o, ops, Generate(3, 7, 0, 10));
    var r4 := Step(r3, Generate(3, 7, 0, 10)).0;
    ops := ops + [Generate(3, 7, 0, 10)];
    GroundResume(r4, 3, []);
    RunMore(o, ops, Resume(0, 0, {}));
    var r5 := Step(r4, Resume(0, 0, {})).0;
    ops := ops + [Resume(0, 0, {})];
    ExampleYields(r5);
    RunMore(o, ops, PushTrap(20, 1));
    ops := ops + [PushTrap(20, 1)];
    RunMore(o, ops, Yield(0xFF, 0xFF, 4));
    ops := ops + [Yield(0xFF, 0xFF, 4)];
    assert ops == YieldedWithTrap;
    var r7 := Run(o, ops).0;
    GroundPop(r7, 3);
    RunMore(o, ops, Pop(1));
    var r8 := Step(r7, Pop(1)).0;
    GroundResume(r8, 2, [Trap(7, 3, 20, 1)]);
    RunMore(o, ops + [Pop(1)], Resume(0, 0, {}));
    ExampleThrows(Step(r8, Resume(0, 0, {})).0);
  }

  lemma ExampleStart()
    ensures Ground(Start(100), 0) && Start(100).gens == [] && AllFit(Start(100), [])
            && Run(Start(100), []).0 == Start(100)
  {}

  lemma Extended(o: Ref, ops: seq<Op>, r: Ref, op: Op, n: nat) returns (q: Ref)
    requires Fine(o) && AllFit(o, ops) && r == Run(o, ops).0 && Ground(r, n) && n < 9 && op == Push(Null)
    ensures Fits(r, op) && q == Step(r, op).0 && Ground(q, n + 1) && q.gens == r.gens
    ensures AllFit(o, ops + [op]) && Run(o, ops + [op]).0 == q
  {
    GroundPush(r, n);
    RunMore(o, ops, op);
    q := Step(r, op).0;
  }

  lemma ExampleThrows(r: Ref)
    requires Fine(r) && |r.frames| == 2 && r.frames[0] == Frame(0, 2, [], 0, false, -1, 0, -1) && |r.b.slots| == 100
    requires Cur(r).base == 2 && Cur(r).top == 6 && Cur(r).traps == [Trap(7, 3, 20, 1)] && Cur(r).target == 0
    ensures Fits(r, Throw(Thing(9)))
    ensures var u := Step(r, Throw(Thing(9))).0; |u.frames| == 2 && u.frames[0].base == 1 && u.frames[1].base == 3
  {
    hide GensFit, Separate, WriteSlot, Wipe;
    var t := Landed(r);
    assert FrameFits(t[0], 100) && FrameFits(t[1], 100) && t[0].traps == [];
  }

  // ---------- A generator call whose result is discarded ----------

  /** The first operation of a run. */
  lemma {:induction false} RunFirst(r: Ref, op: Op, ops: seq<Op>)
    requires Fine(r) && Fits(r, op) && Fine(Step(r, op).0) && AllFit(Step(r, op).0, ops)
    ensures AllFit(r, [op] + ops)
    ensures Run(r, [op] + ops) == (Run(Step(r, op).0, ops).0, [Step(r, op).1] + Run(Step(r, op).0, ops).1)
  {
    hide Fine, Fits, Step;
    assert ([op] + ops)[0] == op && ([op] + ops)[1..] == ops;
  }

  /** A thing is pushed, a function called above it calls a generator function for nothing and returns,
      and the thing is read again. */
  const DiscardedCall: seq<Op> := [
    Push(Thing(7)), Call(1, 5, 2, false, 10), Generate(5, 8, -1, 20), Return(0xFF, 0), GetSlot(0)]

  /** Slot 0 of a stack of 100 holds v. */
  ghost predicate Bottom(r: Ref, v: Val) {
    Fine(r) && |r.b.slots| == 100 && r.metas == 0 && Separate(r.b) && At(r.b, 0) == v
  }

  ghost predicate InCall(r: Ref) {
    r.frames == [Frame(0, 1, [], 0, false, -1, 0, -1), Frame(1, 5, [], 1, false, 2, 10, -1)]
  }

  lemma DiscardedPush(r: Ref)
    requires Ground(r, 0) && r.gens == []
    ensures Fits(r, Push(Thing(7))) && Step(r, Push(Thing(7))).1 == Nothing
    ensures var q := Step(r, Push(Thing(7))).0; Ground(q, 1) && q.gens == [] && Bottom(q, Thing(7))
  {
    hide FramesFit, GensFit, Separate, WriteSlot;
    StepFine(r, Push(Thing(7)));
  }

  lemma DiscardedEnter(r: Ref)
    requires Ground(r, 1) && r.gens == [] && Bottom(r, Thing(7))
    ensures Fits(r, Call(1, 5, 2, false, 10)) && Step(r, Call(1, 5, 2, false, 10)).1 == Flag(true)
    ensures var q := Step(r, Call(1, 5, 2, false, 10)).0; InCall(q) && q.gens == [] && Bottom(q, Thing(7))
  {
    hide FramesFit, GensFit, Separate;
    StepFine(r, Call(1, 5, 2, false, 10));
  }

  lemma DiscardedGenerate(r: Ref)
    requires InCall(r) && r.gens == [] && Bottom(r, Thing(7))
    ensures Fits(r, Generate(5, 8, -1, 20)) && Step(r, Generate(5, 8, -1, 20)).1 == Flag(true)
    ensures var q := Step(r, Generate(5, 8, -1, 20)).0; InCall(q) && Bottom(q, Generator(0))
  {
    hide FramesFit, GensFit, Separate, Store, WriteSlot;
    StepFine(r, Generate(5, 8, -1, 20));
    GenerateBelow(r, 5, 8, -1, 20, 0);
  }

  lemma DiscardedReturn(r: Ref)
    requires InCall(r) && Bottom(r, Generator(0))
    ensures Fits(r, Return(0xFF, 0)) && Step(r, Return(0xFF, 0)).1 == Nothing
    ensures var q := Step(r, Return(0xFF, 0)).0; Ground(q, 1) && Bottom(q, Generator(0))
  {
    hide FramesFit, GensFit, Separate, WriteSlot, Leave;
    StepFine(r, Return(0xFF, 0));
    ReturnedBelow(r, 0xFF, 0, 0);
  }

  /** The caller finds the generator where it had stored the thing. */
  lemma DiscardedExample()
    ensures AllFit(Start(100), DiscardedCall)
    ensures Run(Start(100), DiscardedCall).1 == [Nothing, Flag(true), Flag(true), Nothing, Value(Generator(0))]
  {
    hide Fine, Fits, Step, Ground, Bottom, InCall;
    var r := Start(100);
    ExampleStart();
    DiscardedPush(r);
    var r1 := Step(r, Push(Thing(7))).0;
    BottomFine(r1, Thing(7));
    DiscardedEnter(r1);
    var r2 := Step(r1, Call(1, 5, 2, false, 10)).0;
    BottomFine(r2, Thing(7));
    DiscardedGenerate(r2);
    var r3 := Step(r2, Generate(5, 8, -1, 20)).0;
    BottomFine(r3, Generator(0));
    DiscardedReturn(r3);
    var r4 := Step(r3, Return(0xFF, 0)).0;
    DiscardedRead(r4);
    RunFirst(r4, GetSlot(0), []);
    RunFirst(r3, Return(0xFF, 0), [GetSlot(0)]);
    RunFirst(r2, Generate(5, 8, -1, 20), [Return(0xFF, 0), GetSlot(0)]);
    RunFirst(r1, Call(1, 5, 2, false, 10), [Generate(5, 8, -1, 20), Return(0xFF, 0), GetSlot(0)]);
    RunFirst(r, Push(Thing(7)), DiscardedCall[1..]);
  }

  lemma BottomFine(r: Ref, v: Val)
    requires Bottom(r, v)
    ensures Fine(r)
  {}

  lemma DiscardedRead(r: Ref)
    requires Ground(r, 1) && Bottom(r, Generator(0))
    ensures Fine(r) && Fits(r, GetSlot(0)) && Step(r, GetSlot(0)) == (r, Value(Generator(0)))
    ensures AllFit(r, []) && Run(r, []).1 == []
  {}

  // ---------- A call that is refused with its frame pushed ----------

  /** A call during a metamethod that would need more stack. */
  const RefusedCall: seq<Op> := [BeginMeta, Call(3, 90, 0, false, 10)]

  lemma RefusedExample()
    ensures AllFit(Start(100), RefusedCall)
    ensures Run(Start(100), RefusedCall).1 == [Nothing, Flag(false)]
    ensures |Run(Start(100), RefusedCall).0.frames| == 2
  {
    hide Fine, Fits, Step;
    var r := Start(100);
    ExampleStart();
    RefusedSteps(r);
    var r1, call := Step(r, BeginMeta).0, Call(3, 90, 0, false, 10);
    RunFirst(r1, call, []);
    RunFirst(r, BeginMeta, [call]);
    assert [BeginMeta] + [call] == RefusedCall && [call] + [] == [call];
  }

  lemma RefusedSteps(r: Ref)
    requires Ground(r, 0)
    ensures Fits(r, BeginMeta) && Step(r, BeginMeta).1 == Nothing
    ensures var r1, call := Step(r, BeginMeta).0, Call(3, 90, 0, false, 10);
      && Fine(r1) && Fits(r1, call) && Step(r1, call).1 == Flag(false)
      && |Step(r1, call).0.frames| == 2 && Fine(Step(r1, call).0) && AllFit(Step(r1, call).0, [])
  {
    hide FramesFit, GensFit, Separate;
    StepFine(r, BeginMeta);
    StepFine(Step(r, BeginMeta).0, Call(3, 90, 0, false, 10));
  }
}
