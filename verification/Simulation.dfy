/** Parts of a sequence that lie at a given position. */
module Segments {
  ghost predicate CodeAt<T>(code: seq<T>, base: int, part: seq<T>) {
    0 <= base && base + |part| <= |code| && forall i :: 0 <= i < |part| ==> code[base + i] == part[i]
  }

  lemma Split<T>(code: seq<T>, base: int, a: seq<T>, b: seq<T>)
    requires CodeAt(code, base, a + b)
    ensures CodeAt(code, base, a) && CodeAt(code, base + |a|, b)
  {
    forall i | 0 <= i < |a| ensures code[base + i] == a[i] { assert (a + b)[i] == a[i]; }
    forall i | 0 <= i < |b| ensures code[base + |a| + i] == b[i] { assert (a + b)[|a| + i] == b[i]; }
  }

  /** `x` is the element after `a`. */
  lemma SplitOne<T>(code: seq<T>, base: int, a: seq<T>, x: T, b: seq<T>)
    requires CodeAt(code, base, a + [x] + b)
    ensures CodeAt(code, base, a) && CodeAt(code, base + |a| + 1, b)
    ensures 0 <= base + |a| < |code| && code[base + |a|] == x
  {
    Split(code, base, a + [x], b);
    Split(code, base, a, [x]);
    assert code[base + |a| + 0] == [x][0];
  }
}

/** The emitted code means the same as the statement it was emitted for. */
module Simulation {
  import opened Wrappers
  import opened ControlFlow
  import opened Segments

  /** Where the machine goes when a statement that ends at `end` has outcome `o`. */
  ghost function Goal(o: Outcome, end: int, k: Ctx, ts: Traps): Machine
    requires k.nb <= Depth(ts) && k.nc <= Depth(ts)
  {
    match o
    case Normal(t) => Running(end, ts, t)
    case Broke(t) => if k.brk.Some? then Running(k.brk.value, Pop(ts, k.nb), t) else Stuck
    case Continued(t) => if k.cont.Some? then Running(k.cont.value, Pop(ts, k.nc), t) else Stuck
    case Returned(t, r) => Finished(t, r, 0)
    case Thrown(t, e) => Unwind(ts, t, e)
    case OutOfFuel => Stuck
  }

  // ---------- Runs of an arbitrary step function ----------

  function Iter(f: Machine -> Machine, m: Machine, n: nat): Machine
    decreases n
  {
    if n == 0 then m else Iter(f, f(m), n - 1)
  }

  /** `f` is the machine's step function.  The trigger keeps the definition of `Step` out of
      proofs that only compose runs. */
  ghost predicate Drives(f: Machine -> Machine, env: Env, code: seq<Instr>) {
    forall m {:trigger Stepping(m)} :: Stepping(m) ==> f(m) == Step(env, code, m)
  }

  ghost predicate Stepping(m: Machine) { true }

  /** After `n` steps from `m` the machine is where the outcome says it should be.  A statement
      that runs out of fuel keeps the machine busy for at least `fuel` steps. */
  ghost predicate Agrees(f: Machine -> Machine, m: Machine, n: nat, o: Outcome,
                         end: int, k: Ctx, ts: Traps, fuel: nat)
  {
    k.nb <= Depth(ts) && k.nc <= Depth(ts) &&
    if o.OutOfFuel? then Iter(f, m, fuel).Running?
    else Iter(f, m, n) == Goal(o, end, k, ts) && (o.Broke? ==> k.brk.Some?) && (o.Continued? ==> k.cont.Some?)
  }

  lemma {:induction false} IterAdd(f: Machine -> Machine, m: Machine, a: nat, b: nat)
    ensures Iter(f, m, a + b) == Iter(f, Iter(f, m, a), b)
    decreases a
  {
    if a > 0 { IterAdd(f, f(m), a - 1, b); }
  }

  lemma {:induction false} HaltedStays(f: Machine -> Machine, m: Machine, n: nat)
    requires f(m) == m
    ensures Iter(f, m, n) == m
    decreases n
  {
    if n > 0 { HaltedStays(f, m, n - 1); }
  }

  lemma {:induction false} OneMore(f: Machine -> Machine, env: Env, code: seq<Instr>, m: Machine, n: nat)
    requires Drives(f, env, code)
    ensures Iter(f, m, n + 1) == Step(env, code, Iter(f, m, n))
  {
    var m1 := Iter(f, m, n);
    IterAdd(f, m, n, 1);
    assert Stepping(m1);
    assert Iter(f, m1, 1) == Iter(f, f(m1), 0);
  }

  /** Steps already taken can be put in front. */
  lemma {:induction false} Prepend(f: Machine -> Machine, env: Env, code: seq<Instr>, m: Machine, a: nat, m1: Machine,
                                   n: nat, o: Outcome,
                end: int, k: Ctx, ts: Traps, fuel: nat, fuel': nat)
    requires Drives(f, env, code) && Iter(f, m, a) == m1 && Agrees(f, m1, n, o, end, k, ts, fuel)
    requires fuel' <= fuel + a
    ensures Agrees(f, m, a + n, o, end, k, ts, fuel')
  {
    IterAdd(f, m, a, n);
    if o.OutOfFuel? {
      IterAdd(f, m, a, fuel);
      IterAdd(f, m, fuel', a + fuel - fuel');
      var m2 := Iter(f, m, fuel');
      if !m2.Running? {
        assert Stepping(m2);
        HaltedStays(f, m2, a + fuel - fuel');
      }
    }
  }

  lemma PopAll(ts: Traps)
    ensures Pop(ts, Depth(ts)) == Nil
  {}

  lemma {:induction false} SimulatePrims(f: Machine -> Machine, env: Env, code: seq<Instr>, ps: seq<Prim>, base: int,
                                         ts: Traps, t: Trace)
    returns (n: nat)
    requires Drives(f, env, code) && CodeAt(code, base, PrimCode(ps))
    ensures var o := RunPrims(env, ps, t);
            if o.Normal? then n == |ps| && Iter(f, Running(base, ts, t), n) == Running(base + |ps|, ts, o.t)
            else o.Thrown? && Iter(f, Running(base, ts, t), n) == Unwind(ts, o.t, o.err)
    decreases |ps|
  {
    n := 0;
    if ps != [] {
      assert code[base + 0] == PrimCode(ps)[0];
      assert Stepping(Running(base, ts, t));
      var m1 := Step(env, code, Running(base, ts, t));
      if env.throws(ps[0], t).None? {
        assert PrimCode(ps) == [Run(ps[0])] + PrimCode(ps[1..]);
        Split(code, base, [Run(ps[0])], PrimCode(ps[1..]));
        n := SimulatePrims(f, env, code, ps[1..], base + 1, ts, m1.t);
      }
      n := n + 1;
    }
  }

  ghost predicate FitsTraps(k: Ctx, ts: Traps) { Depth(ts) == k.nt && k.nb <= k.nt && k.nc <= k.nt }

  ghost predicate Fits(st: Stmt, k: Ctx, ts: Traps) {
    WellPlaced(st, k.brk.Some?, k.cont.Some?) && FitsTraps(k, ts) && PopsFit(st, k.nb, k.nc, k.nt)
  }

  function End(st: Stmt, base: int, k: Ctx): int { base + Len(st, k.nb, k.nc, k.nt) }

  // ---------- Composing runs ----------

  /** A condition and the conditional jump behind it. */
  lemma {:induction false} SimulateTest(f: Machine -> Machine, env: Env, code: seq<Instr>, c: Expr, base: int, off: int,
                                        ts: Traps, t: Trace)
    returns (n: nat)
    requires Drives(f, env, code) && CodeAt(code, base, PrimCode(c.code))
    requires 0 <= base + |c.code| < |code| && code[base + |c.code|] == Jz(c.target, off)
    ensures var m, o, next := Running(base, ts, t), RunPrims(env, c.code, t), base + |c.code| + 1;
            if o.Normal? then
              n >= 1 && Iter(f, m, n) == Running(if env.isFalse(c.target, o.t) then next + off else next, ts, o.t)
            else o.Thrown? && Iter(f, m, n) == Unwind(ts, o.t, o.err)
  {
    n := SimulatePrims(f, env, code, c.code, base, ts, t);
    if RunPrims(env, c.code, t).Normal? {
      OneMore(f, env, code, Running(base, ts, t), n);
      n := n + 1;
    }
  }

  /** Code ending at `mid` where a jump to `end` follows. */
  lemma {:induction false} JumpOver(f: Machine -> Machine, env: Env, code: seq<Instr>, m: Machine, n: nat, o: Outcome,
                                    mid: int, end: int, k: Ctx, ts: Traps, fuel: nat)
    returns (r: nat)
    requires Drives(f, env, code) && Agrees(f, m, n, o, mid, k, ts, fuel)
    requires 0 <= mid < |code| && code[mid] == Jmp(end - mid - 1)
    ensures Agrees(f, m, r, o, end, k, ts, fuel)
  {
    r := n;
    if o.Normal? {
      OneMore(f, env, code, m, n);
      r := n + 1;
    }
  }

  /** One piece of code after another. */
  lemma {:induction false} Compose(f: Machine -> Machine, env: Env, code: seq<Instr>, m: Machine, n1: nat, o1: Outcome,
                                   mid: int,
                                   n2: nat, o2: Outcome, end: int, k: Ctx, ts: Traps, fuel: nat)
    returns (n: nat)
    requires Drives(f, env, code) && Agrees(f, m, n1, o1, mid, k, ts, fuel)
    requires o1.Normal? ==> Agrees(f, Running(mid, ts, o1.t), n2, o2, end, k, ts, fuel)
    ensures Agrees(f, m, n, if o1.Normal? then o2 else o1, end, k, ts, fuel)
  {
    n := n1;
    if o1.Normal? {
      Prepend(f, env, code, m, n1, Running(mid, ts, o1.t), n2, o2, end, k, ts, fuel, fuel);
      n := n1 + n2;
    }
  }

  /** What a loop does with the outcome of its body; `next` is what another round leads to. */
  function LoopOutcome(b: Outcome, next: Outcome): Outcome {
    if b.Normal? || b.Continued? then next else if b.Broke? then Normal(b.t) else b
  }

  /** One round of a loop: having reached `m1` in at least one step, the body runs to outcome `b`.
      If it ends normally a jump leads back to `again`, where `continue` leads as well. */
  lemma {:induction false} Round(f: Machine -> Machine, env: Env, code: seq<Instr>, m: Machine, a: nat, m1: Machine,
                                 n: nat, b: Outcome,
                                 endBody: int, again: int, n3: nat, next: Outcome, end: int, k: Ctx, ts: Traps,
                                 fuel: nat)
    returns (r: nat)
    requires Drives(f, env, code) && a >= 1 && Iter(f, m, a) == m1 && FitsTraps(k, ts) && fuel > 0
    requires Agrees(f, m1, n, b, endBody, k.InLoop(end, again), ts, fuel)
    requires 0 <= endBody < |code| && code[endBody] == Jmp(again - endBody - 1)
    requires b.Normal? || b.Continued? ==> Agrees(f, Running(again, ts, b.t), n3, next, end, k, ts, fuel - 1)
    ensures Agrees(f, m, r, LoopOutcome(b, next), end, k, ts, fuel)
  {
    Prepend(f, env, code, m, a, m1, n, b, endBody, k.InLoop(end, again), ts, fuel, fuel);
    r := a + n;
    if b.Normal? {
      OneMore(f, env, code, m, r);
      r := r + 1;
    }
    if b.Normal? || b.Continued? {
      Prepend(f, env, code, m, r, Running(again, ts, b.t), n3, next, end, k, ts, fuel - 1, fuel);
      r := r + n3;
    }
  }

  // ---------- One lemma for each kind of statement ----------

  /** Running the code of a statement agrees with the statement's meaning. */
  lemma {:induction false} Simulate(f: Machine -> Machine, env: Env, code: seq<Instr>, st: Stmt, base: int, k: Ctx,
                                    ts: Traps, t: Trace, fuel: nat)
    returns (n: nat)
    requires Drives(f, env, code) && Fits(st, k, ts) && CodeAt(code, base, Code(st, base, k))
    ensures Agrees(f, Running(base, ts, t), n, Exec(env, st, t, fuel), End(st, base, k), k, ts, fuel)
    decreases fuel, st, 1
  {
    match st
    case Skip => n := 0;
    case Do(ps) => n := SimulatePrims(f, env, code, ps, base, ts, t);
    case Seq(_, _) => n := SimulateSeq(f, env, code, st, base, k, ts, t, fuel);
    case If(_, _) => n := SimulateIf(f, env, code, st, base, k, ts, t, fuel);
    case IfElse(_, _, _) => n := SimulateIfElse(f, env, code, st, base, k, ts, t, fuel);
    case While(_, _) => n := SimulateWhile(f, env, code, st, base, k, ts, t, fuel);
    case DoWhile(_, _) => n := SimulateDoWhile(f, env, code, st, base, k, ts, t, fuel);
    case ForEach(_, _, _) => n := SimulateForEach(f, env, code, st, base, k, ts, t, fuel);
    case Switch(_, _) => n := SimulateSwitch(f, env, code, st, base, k, ts, t, fuel);
    case Break => n := SimulateLeave(f, env, code, base, k.nb, k.brk, ts, t);
    case Continue => n := SimulateLeave(f, env, code, base, k.nc, k.cont, ts, t);
    case Return(_) => n := SimulateReturn(f, env, code, st, base, k, ts, t, fuel);
    case Throw(_) => n := SimulateThrow(f, env, code, st, base, k, ts, t, fuel);
    case TryCatch(_, _, _) => n := SimulateTry(f, env, code, st, base, k, ts, t, fuel);
  }

  lemma {:induction false} SimulateSeq(f: Machine -> Machine, env: Env, code: seq<Instr>, st: Stmt, base: int, k: Ctx,
                                       ts: Traps, t: Trace, fuel: nat)
    returns (n: nat)
    requires Drives(f, env, code) && st.Seq? && Fits(st, k, ts) && CodeAt(code, base, Code(st, base, k))
    ensures Agrees(f, Running(base, ts, t), n, Exec(env, st, t, fuel), End(st, base, k), k, ts, fuel)
    decreases fuel, st, 0
  {
    var mid := End(st.first, base, k);
    Split(code, base, Code(st.first, base, k), Code(st.second, mid, k));
    var n1 := Simulate(f, env, code, st.first, base, k, ts, t, fuel);
    var o1 := Exec(env, st.first, t, fuel);
    var n2, o2 := 0, o1;
    if o1.Normal? {
      n2 := Simulate(f, env, code, st.second, mid, k, ts, o1.t, fuel);
      o2 := Exec(env, st.second, o1.t, fuel);
    }
    n := Compose(f, env, code, Running(base, ts, t), n1, o1, mid, n2, o2, End(st, base, k), k, ts, fuel);
  }

  lemma {:induction false} LayoutIf(code: seq<Instr>, st: Stmt, base: int, k: Ctx)
    requires st.If? && CodeAt(code, base, Code(st, base, k))
    ensures var pos := base + |st.cond.code|;
            && CodeAt(code, base, PrimCode(st.cond.code))
            && 0 <= pos < |code| && code[pos] == Jz(st.cond.target, End(st, base, k) - pos - 1)
            && CodeAt(code, pos + 1, Code(st.thn, pos + 1, k))
            && End(st.thn, pos + 1, k) == End(st, base, k)
  {
    var pos := base + |st.cond.code|;
    var ca := Code(st.thn, pos + 1, k);
    SplitOne(code, base, PrimCode(st.cond.code), Jz(st.cond.target, |ca|), ca);
  }

  lemma {:induction false} SimulateIf(f: Machine -> Machine, env: Env, code: seq<Instr>, st: Stmt, base: int, k: Ctx,
                                      ts: Traps, t: Trace, fuel: nat)
    returns (n: nat)
    requires Drives(f, env, code) && st.If? && Fits(st, k, ts) && CodeAt(code, base, Code(st, base, k))
    ensures Agrees(f, Running(base, ts, t), n, Exec(env, st, t, fuel), End(st, base, k), k, ts, fuel)
    decreases fuel, st, 0
  {
    hide CodeAt, Code;
    var If(c, a) := st;
    var next, end := base + |c.code| + 1, End(st, base, k);
    LayoutIf(code, st, base, k);
    n := SimulateTest(f, env, code, c, base, end - next, ts, t);
    var o := RunPrims(env, c.code, t);
    if o.Normal? && !env.isFalse(c.target, o.t) {
      var n2 := Simulate(f, env, code, a, next, k, ts, o.t, fuel);
      Prepend(f, env, code, Running(base, ts, t), n, Running(next, ts, o.t), n2, Exec(env, a, o.t, fuel), end, k, ts,
              fuel, fuel);
      n := n + n2;
    }
  }

  lemma {:induction false} LayoutIfElse(code: seq<Instr>, st: Stmt, base: int, k: Ctx)
    requires st.IfElse? && CodeAt(code, base, Code(st, base, k))
    ensures var pos := base + |st.cond.code|;
            var mid := End(st.thn, pos + 1, k);
            && CodeAt(code, base, PrimCode(st.cond.code))
            && 0 <= pos < mid < |code| && code[pos] == Jz(st.cond.target, mid - pos)
            && CodeAt(code, pos + 1, Code(st.thn, pos + 1, k))
            && code[mid] == Jmp(End(st, base, k) - mid - 1)
            && CodeAt(code, mid + 1, Code(st.els, mid + 1, k))
            && End(st.els, mid + 1, k) == End(st, base, k)
  {
    var IfElse(c, a, b) := st;
    var pos := base + |c.code|;
    var ca := Code(a, pos + 1, k);
    var cb := Code(b, pos + 1 + |ca| + 1, k);
    SplitOne(code, base, PrimCode(c.code) + [Jz(c.target, |ca| + 1)] + ca, Jmp(|cb|), cb);
    SplitOne(code, base, PrimCode(c.code), Jz(c.target, |ca| + 1), ca);
  }

  lemma {:induction false} SimulateIfElse(f: Machine -> Machine, env: Env, code: seq<Instr>, st: Stmt, base: int,
                                          k: Ctx, ts: Traps, t: Trace, fuel: nat)
    returns (n: nat)
    requires Drives(f, env, code) && st.IfElse? && Fits(st, k, ts) && CodeAt(code, base, Code(st, base, k))
    ensures Agrees(f, Running(base, ts, t), n, Exec(env, st, t, fuel), End(st, base, k), k, ts, fuel)
    decreases fuel, st, 0
  {
    hide CodeAt, Code;
    var IfElse(c, a, b) := st;
    var m, next, end := Running(base, ts, t), base + |c.code| + 1, End(st, base, k);
    var mid := End(a, next, k);
    LayoutIfElse(code, st, base, k);
    n := SimulateTest(f, env, code, c, base, mid + 1 - next, ts, t);
    var o := RunPrims(env, c.code, t);
    if o.Normal? {
      if env.isFalse(c.target, o.t) {
        var n2 := Simulate(f, env, code, b, mid + 1, k, ts, o.t, fuel);
        Prepend(f, env, code, m, n, Running(mid + 1, ts, o.t), n2, Exec(env, b, o.t, fuel), end, k, ts, fuel, fuel);
        n := n + n2;
      } else {
        var n2 := Simulate(f, env, code, a, next, k, ts, o.t, fuel);
        Prepend(f, env, code, m, n, Running(next, ts, o.t), n2, Exec(env, a, o.t, fuel), mid, k, ts, fuel, fuel);
        n := JumpOver(f, env, code, m, n + n2, Exec(env, a, o.t, fuel), mid, end, k, ts, fuel);
      }
    }
  }

  lemma {:induction false} LayoutWhile(code: seq<Instr>, st: Stmt, base: int, k: Ctx)
    requires st.While? && CodeAt(code, base, Code(st, base, k))
    ensures var pos, end := base + |st.cond.code|, End(st, base, k);
            && CodeAt(code, base, PrimCode(st.cond.code))
            && 0 <= pos < end - 1 < |code|
            && code[pos] == Jz(st.cond.target, end - pos - 1)
            && CodeAt(code, pos + 1, Code(st.body, pos + 1, k.InLoop(end, base)))
            && End(st.body, pos + 1, k.InLoop(end, base)) == end - 1
            && code[end - 1] == Jmp(base - end)
  {
    var While(c, a) := st;
    var pos, end := base + |c.code|, End(st, base, k);
    var ca := Code(a, pos + 1, k.InLoop(end, base));
    var jz, back := Jz(c.target, |ca| + 1), Jmp(-(|c.code| + |ca| + 2));
    assert PrimCode(c.code) + [jz] + ca + [back] + [] == Code(st, base, k);
    SplitOne(code, base, PrimCode(c.code) + [jz] + ca, back, []);
    SplitOne(code, base, PrimCode(c.code), jz, ca);
  }

  lemma {:induction false} SimulateWhile(f: Machine -> Machine, env: Env, code: seq<Instr>, st: Stmt, base: int, k: Ctx,
                                         ts: Traps, t: Trace, fuel: nat)
    returns (n: nat)
    requires Drives(f, env, code) && st.While? && Fits(st, k, ts) && CodeAt(code, base, Code(st, base, k))
    ensures Agrees(f, Running(base, ts, t), n, Exec(env, st, t, fuel), End(st, base, k), k, ts, fuel)
    decreases fuel, st, 0
  {
    hide CodeAt, Code;
    var While(c, a) := st;
    var m, pos, end := Running(base, ts, t), base + |c.code|, End(st, base, k);
    LayoutWhile(code, st, base, k);
    n := 0;
    if fuel > 0 {
      n := SimulateTest(f, env, code, c, base, end - pos - 1, ts, t);
      var o := RunPrims(env, c.code, t);
      if o.Normal? && !env.isFalse(c.target, o.t) {
        var b := Exec(env, a, o.t, fuel);
        var n2 := Simulate(f, env, code, a, pos + 1, k.InLoop(end, base), ts, o.t, fuel);
        var n3, next := 0, b;
        if b.Normal? || b.Continued? {
          n3 := SimulateWhile(f, env, code, st, base, k, ts, b.t, fuel - 1);
          next := Exec(env, st, b.t, fuel - 1);
        }
        n := Round(f, env, code, m, n, Running(pos + 1, ts, o.t), n2, b, end - 1, base, n3, next, end, k, ts, fuel);
      }
    }
  }

  lemma {:induction false} LayoutDoWhile(code: seq<Instr>, st: Stmt, base: int, k: Ctx)
    requires st.DoWhile? && CodeAt(code, base, Code(st, base, k))
    ensures var end := End(st, base, k);
            var test := base + Len(st.body, 0, 0, k.nt);
            && CodeAt(code, base, Code(st.body, base, k.InLoop(end, test)))
            && CodeAt(code, test, PrimCode(st.cond.code))
            && test + |st.cond.code| + 2 == end && 0 <= test && end <= |code|
            && code[end - 2] == Jz(st.cond.target, 1) && code[end - 1] == Jmp(base - end)
  {
    var DoWhile(a, c) := st;
    var test, end := base + Len(a, 0, 0, k.nt), End(st, base, k);
    var ca := Code(a, base, k.InLoop(end, test));
    var jz, back := Jz(c.target, 1), Jmp(-(|ca| + |c.code| + 2));
    assert ca + PrimCode(c.code) + [jz] + [back] == Code(st, base, k);
    SplitOne(code, base, ca + PrimCode(c.code), jz, [back]);
    Split(code, base, ca, PrimCode(c.code));
    assert code[end - 1 + 0] == [back][0];
  }

  lemma {:induction false} SimulateDoWhile(f: Machine -> Machine, env: Env, code: seq<Instr>, st: Stmt, base: int,
                                           k: Ctx, ts: Traps, t: Trace, fuel: nat)
    returns (n: nat)
    requires Drives(f, env, code) && st.DoWhile? && Fits(st, k, ts) && CodeAt(code, base, Code(st, base, k))
    ensures Agrees(f, Running(base, ts, t), n, Exec(env, st, t, fuel), End(st, base, k), k, ts, fuel)
    decreases fuel, st, 0
  {
    hide CodeAt, Code;
    var DoWhile(a, c) := st;
    var end := End(st, base, k);
    var test := base + Len(a, 0, 0, k.nt);
    LayoutDoWhile(code, st, base, k);
    n := 0;
    if fuel > 0 {
      var b := Exec(env, a, t, fuel);
      n := Simulate(f, env, code, a, base, k.InLoop(end, test), ts, t, fuel);
      if b.Normal? || b.Continued? {
        var o := RunPrims(env, c.code, b.t);
        var n2 := SimulateTest(f, env, code, c, test, 1, ts, b.t);
        var n3, next := 0, o;
        if o.Normal? && !env.isFalse(c.target, o.t) {
          n3 := SimulateDoWhile(f, env, code, st, base, k, ts, o.t, fuel - 1);
          next := Exec(env, st, o.t, fuel - 1);
        }
        n := Repeat(f, env, code, Running(base, ts, t), n, Running(test, ts, b.t), n2, c, o, n3, next, base, end, k, ts,
                    fuel);
      }
    }
  }

  /** The end of a `do` loop's round: the test at `m1`, and if it holds the jump back to `again`. */
  lemma {:induction false} Repeat(f: Machine -> Machine, env: Env, code: seq<Instr>, m: Machine, a: nat, m1: Machine,
                                  n: nat, c: Expr, o: Outcome,
                                  n3: nat, next: Outcome, again: int, end: int, k: Ctx, ts: Traps, fuel: nat)
    returns (r: nat)
    requires Drives(f, env, code) && Iter(f, m, a) == m1 && FitsTraps(k, ts) && fuel > 0
    requires 0 < end <= |code| && code[end - 1] == Jmp(again - end)
    requires if o.Normal? then Iter(f, m1, n) == Running(if env.isFalse(c.target, o.t) then end else end - 1, ts, o.t)
             else o.Thrown? && Iter(f, m1, n) == Unwind(ts, o.t, o.err)
    requires o.Normal? && !env.isFalse(c.target, o.t) ==>
             Agrees(f, Running(again, ts, o.t), n3, next, end, k, ts, fuel - 1)
    ensures Agrees(f, m, r, if !o.Normal? || env.isFalse(c.target, o.t) then o else next, end, k, ts, fuel)
  {
    IterAdd(f, m, a, n);
    r := a + n;
    if o.Normal? && !env.isFalse(c.target, o.t) {
      OneMore(f, env, code, m, r);
      r := r + 1;
      Prepend(f, env, code, m, r, Running(again, ts, o.t), n3, next, end, k, ts, fuel - 1, fuel);
      r := r + n3;
    }
  }

  /** The part of a `foreach` that is repeated. */
  function IterationCode(container: int, idx: int, a: Stmt, head: int, k: Ctx): seq<Instr> {
    var n := Len(a, 0, 0, k.nt);
    [ForEachNext(container, n + 2, idx), PostForEach(container, n + 2, idx)]
    + Code(a, head + 2, k.InLoop(head + n + 3, head)) + [Jmp(-(n + 3))]
  }

  lemma {:induction false} LayoutForEach(code: seq<Instr>, st: Stmt, base: int, k: Ctx)
    requires st.ForEach? && CodeAt(code, base, Code(st, base, k))
    ensures var ForEach(c, idx, a) := st;
            var head := base + |c.code| + 3;
            && CodeAt(code, base, PrimCode(c.code + ForEachInit(idx)))
            && CodeAt(code, head, IterationCode(c.target, idx, a, head, k))
            && End(st, base, k) == head + Len(a, 0, 0, k.nt) + 3
  {
    var ForEach(c, idx, a) := st;
    var ps, head := c.code + ForEachInit(idx), base + |c.code| + 3;
    assert PrimCode(ps) + IterationCode(c.target, idx, a, head, k) == Code(st, base, k);
    Split(code, base, PrimCode(ps), IterationCode(c.target, idx, a, head, k));
  }

  lemma {:induction false} SimulateForEach(f: Machine -> Machine, env: Env, code: seq<Instr>, st: Stmt, base: int,
                                           k: Ctx, ts: Traps, t: Trace, fuel: nat)
    returns (n: nat)
    requires Drives(f, env, code) && st.ForEach? && Fits(st, k, ts) && CodeAt(code, base, Code(st, base, k))
    ensures Agrees(f, Running(base, ts, t), n, Exec(env, st, t, fuel), End(st, base, k), k, ts, fuel)
    decreases fuel, st, 0
  {
    var ForEach(c, idx, a) := st;
    var ps, head := c.code + ForEachInit(idx), base + |c.code| + 3;
    LayoutForEach(code, st, base, k);
    hide CodeAt, Code, IterationCode;
    n := SimulatePrims(f, env, code, ps, base, ts, t);
    var o := RunPrims(env, ps, t);
    if o.Normal? {
      var n2 := SimulateIterate(f, env, code, c.target, idx, a, head, k, ts, o.t, fuel);
      Prepend(f, env, code, Running(base, ts, t), n, Running(head, ts, o.t), n2,
              Iterate(env, c.target, idx, a, o.t, fuel), End(st, base, k), k, ts, fuel, fuel);
      n := n + n2;
    }
  }

  lemma {:induction false} LayoutIterate(code: seq<Instr>, c: int, idx: int, a: Stmt, head: int, k: Ctx)
    requires CodeAt(code, head, IterationCode(c, idx, a, head, k))
    ensures var end := head + Len(a, 0, 0, k.nt) + 3;
            && 0 <= head && end <= |code|
            && code[head] == ForEachNext(c, end - head - 1, idx)
               && code[head + 1] == PostForEach(c, end - head - 1, idx)
            && CodeAt(code, head + 2, Code(a, head + 2, k.InLoop(end, head)))
            && code[end - 1] == Jmp(head - end)
  {
    var end := head + Len(a, 0, 0, k.nt) + 3;
    var ca := Code(a, head + 2, k.InLoop(end, head));
    var next, post, back := ForEachNext(c, |ca| + 2, idx), PostForEach(c, |ca| + 2, idx), Jmp(-(|ca| + 3));
    assert [next, post] + ca + [back] + [] == IterationCode(c, idx, a, head, k);
    SplitOne(code, head, [next, post] + ca, back, []);
    Split(code, head, [next, post], ca);
    assert code[head + 0] == [next, post][0] && code[head + 1] == [next, post][1];
  }

  /** One execution of FOREACH, and of POSTFOREACH when a generator was resumed. */
  lemma {:induction false} SimulateNext(f: Machine -> Machine, env: Env, code: seq<Instr>, c: int, idx: int, off: int,
                                        head: int, ts: Traps, t: Trace)
    returns (n: nat)
    requires Drives(f, env, code) && 0 <= head < head + 1 < |code|
    requires code[head] == ForEachNext(c, off, idx) && code[head + 1] == PostForEach(c, off, idx)
    ensures var i, t1, m := env.next(c, idx, t), Then(t, Iterated(c)), Running(head, ts, t);
            n >= 1 && Iter(f, m, n) ==
              if i.Fail? then Unwind(ts, t1, i.err)
              else if i.Exit? || (i.Resumed? && env.dead(c, t1)) then Running(head + 1 + off, ts, t1)
              else Running(head + 2, ts, t1)
  {
    var m := Running(head, ts, t);
    OneMore(f, env, code, m, 0);
    n := 1;
    if env.next(c, idx, t).Resumed? {
      OneMore(f, env, code, m, 1);
      n := 2;
    }
  }

  lemma {:induction false} SimulateIterate(f: Machine -> Machine, env: Env, code: seq<Instr>, c: int, idx: int, a: Stmt,
                                           head: int, k: Ctx, ts: Traps, t: Trace, fuel: nat)
    returns (n: nat)
    requires Drives(f, env, code) && WellPlaced(a, true, true) && FitsTraps(k, ts) && PopsFit(a, 0, 0, k.nt)
    requires CodeAt(code, head, IterationCode(c, idx, a, head, k))
    ensures Agrees(f, Running(head, ts, t), n, Iterate(env, c, idx, a, t, fuel), head + Len(a, 0, 0, k.nt) + 3, k, ts,
                   fuel)
    decreases fuel, a, 2
  {
    hide CodeAt, Code, IterationCode, Exec, WellPlaced, PopsFit, Len;
    var end := head + Len(a, 0, 0, k.nt) + 3;
    LayoutIterate(code, c, idx, a, head, k);
    n := 0;
    if fuel > 0 {
      var i, t1 := env.next(c, idx, t), Then(t, Iterated(c));
      n := SimulateNext(f, env, code, c, idx, end - head - 1, head, ts, t);
      if i.Item? || (i.Resumed? && !env.dead(c, t1)) {
        var b := Exec(env, a, t1, fuel);
        var n2 := Simulate(f, env, code, a, head + 2, k.InLoop(end, head), ts, t1, fuel);
        var n3, next := 0, b;
        if b.Normal? || b.Continued? {
          n3 := SimulateIterate(f, env, code, c, idx, a, head, k, ts, b.t, fuel - 1);
          next := Iterate(env, c, idx, a, b.t, fuel - 1);
        }
        n := Round(f, env, code, Running(head, ts, t), n, Running(head + 2, ts, t1), n2, b, end - 1, head, n3, next,
                   end, k, ts, fuel);
      }
    }
  }

  lemma {:induction false} SimulateSwitch(f: Machine -> Machine, env: Env, code: seq<Instr>, st: Stmt, base: int,
                                          k: Ctx, ts: Traps, t: Trace, fuel: nat)
    returns (n: nat)
    requires Drives(f, env, code) && st.Switch? && Fits(st, k, ts) && CodeAt(code, base, Code(st, base, k))
    ensures Agrees(f, Running(base, ts, t), n, Exec(env, st, t, fuel), End(st, base, k), k, ts, fuel)
    decreases fuel, st, 0
  {
    var Switch(e, cs) := st;
    var pos, end := base + |e.code|, End(st, base, k);
    var k' := k.InSwitch(end);
    Split(code, base, PrimCode(e.code), CodeCases(e.target, cs, pos, k'));
    n := SimulatePrims(f, env, code, e.code, base, ts, t);
    var o := RunPrims(env, e.code, t);
    if o.Normal? {
      var n2 := SimulateCases(f, env, code, e.target, cs, false, pos, k', ts, o.t, fuel);
      Prepend(f, env, code, Running(base, ts, t), n, Running(pos, ts, o.t), n2,
              ExecCases(env, e.target, cs, false, o.t, fuel), end, k', ts, fuel, fuel);
      n := n + n2;
    }
  }

  /** Where control enters the clauses: at the first label test, or behind it when falling through. */
  function Entry(cs: Cases, falling: bool, base: int): int {
    if falling && cs.Case? then base + |cs.test.code| + 2 else base
  }

  lemma {:induction false} LayoutCase(code: seq<Instr>, subject: int, cs: Cases, base: int, k: Ctx)
    requires k.nb == 0 && cs.Case? && CodeAt(code, base, CodeCases(subject, cs, base, k))
    ensures var clause := base + |cs.test.code| + 2;
            var mid := End(cs.body, clause, k);
            var next := if cs.rest.Case? then mid + 1 else mid;
            && CodeAt(code, base, PrimCode(LabelCode(cs.test, subject)))
            && 0 <= clause - 1 < |code| && code[clause - 1] == Jz(cs.test.target, next - clause)
            && CodeAt(code, clause, Code(cs.body, clause, k))
            && (cs.rest.Case? ==> 0 <= mid < |code| && code[mid] == Jmp(Entry(cs.rest, true, next) - mid - 1))
            && CodeAt(code, next, CodeCases(subject, cs.rest, next, k))
            && next + LenCases(cs.rest, k.nc, k.nt) == base + LenCases(cs, k.nc, k.nt)
  {
    var Case(l, b, rest) := cs;
    var clause := base + |l.code| + 2;
    var cb, skip := Code(b, clause, k), SkipTest(rest);
    var next := clause + |cb| + |skip|;
    var test, jz := PrimCode(LabelCode(l, subject)), Jz(l.target, |cb| + |skip|);
    Split(code, base, test + [jz] + cb + skip, CodeCases(subject, rest, next, k));
    Split(code, base, test + [jz] + cb, skip);
    SplitOne(code, base, test, jz, cb);
    assert rest.Case? ==> code[clause + |cb| + 0] == skip[0];
  }

  /** A label test, or nothing when falling through. */
  lemma {:induction false} SimulateLabel(f: Machine -> Machine, env: Env, code: seq<Instr>, l: Expr, subject: int,
                                         falling: bool, base: int, off: int, ts: Traps, t: Trace)
    returns (n: nat)
    requires Drives(f, env, code) && CodeAt(code, base, PrimCode(LabelCode(l, subject)))
    requires 0 <= base + |l.code| + 1 < |code| && code[base + |l.code| + 1] == Jz(l.target, off)
    ensures var clause := base + |l.code| + 2;
            var o := if falling then Normal(t) else RunPrims(env, LabelCode(l, subject), t);
            var m := Running(if falling then clause else base, ts, t);
            if o.Normal? then
              Iter(f, m, n) == Running(if !falling && env.isFalse(l.target, o.t) then clause + off else clause, ts, o.t)
            else o.Thrown? && Iter(f, m, n) == Unwind(ts, o.t, o.err)
  {
    n := 0;
    if !falling {
      n := SimulateTest(f, env, code, Expr(LabelCode(l, subject), l.target), base, off, ts, t);
    }
  }

  lemma {:induction false} SimulateCases(f: Machine -> Machine, env: Env, code: seq<Instr>, subject: int, cs: Cases,
                                         falling: bool, base: int, k: Ctx, ts: Traps, t: Trace, fuel: nat)
    returns (n: nat)
    requires Drives(f, env, code) && k.nb == 0 && k.brk.Some? && WellPlacedCases(cs, k.cont.Some?) && FitsTraps(k, ts)
    requires PopsFitCases(cs, k.nc, k.nt) && CodeAt(code, base, CodeCases(subject, cs, base, k))
    ensures Agrees(f, Running(Entry(cs, falling, base), ts, t), n,
                   ExecCases(env, subject, cs, falling, t, fuel), base + LenCases(cs, k.nc, k.nt), k, ts, fuel)
    decreases fuel, cs, 3
  {
    match cs
    case Default(b) => n := Simulate(f, env, code, b, base, k, ts, t, fuel);
    case Case(_, _, _) => n := SimulateCase(f, env, code, subject, cs, falling, base, k, ts, t, fuel);
  }

  lemma {:induction false} SimulateCase(f: Machine -> Machine, env: Env, code: seq<Instr>, subject: int, cs: Cases,
                                        falling: bool, base: int, k: Ctx, ts: Traps, t: Trace, fuel: nat)
    returns (n: nat)
    requires cs.Case? && Drives(f, env, code) && k.nb == 0 && k.brk.Some? && WellPlacedCases(cs, k.cont.Some?)
             && FitsTraps(k, ts)
    requires PopsFitCases(cs, k.nc, k.nt) && CodeAt(code, base, CodeCases(subject, cs, base, k))
    ensures Agrees(f, Running(Entry(cs, falling, base), ts, t), n,
                   ExecCases(env, subject, cs, falling, t, fuel), base + LenCases(cs, k.nc, k.nt), k, ts, fuel)
    decreases fuel, cs, 2
  {
    hide CodeAt, CodeCases, Code, PrimCode, Exec, WellPlaced, PopsFit, Len;
    var Case(l, b, rest) := cs;
    var m, end := Running(Entry(cs, falling, base), ts, t), base + LenCases(cs, k.nc, k.nt);
    var clause := base + |l.code| + 2;
    var mid := End(b, clause, k);
    var next := if rest.Case? then mid + 1 else mid;
    LayoutCase(code, subject, cs, base, k);
    n := SimulateLabel(f, env, code, l, subject, falling, base, next - clause, ts, t);
    var o := if falling then Normal(t) else RunPrims(env, LabelCode(l, subject), t);
    if o.Normal? {
      if !falling && env.isFalse(l.target, o.t) {
        var n2 := SimulateCases(f, env, code, subject, rest, false, next, k, ts, o.t, fuel);
        Prepend(f, env, code, m, n, Running(next, ts, o.t), n2, ExecCases(env, subject, rest, false, o.t, fuel), end, k,
                ts, fuel, fuel);
        n := n + n2;
      } else {
        var n2 := SimulateClause(f, env, code, subject, cs, b, rest, clause, k, ts, o.t, fuel);
        Prepend(f, env, code, m, n, Running(clause, ts, o.t), n2, ClauseOutcome(env, subject, b, rest, o.t, fuel), end,
                k, ts, fuel, fuel);
        n := n + n2;
      }
    }
  }

  /** A clause that is entered runs its statements and then falls through into the next one. */
  function ClauseOutcome(env: Env, subject: int, b: Stmt, rest: Cases, t: Trace, fuel: nat): Outcome {
    var r := Exec(env, b, t, fuel);
    if r.Normal? then ExecCases(env, subject, rest, true, r.t, fuel) else r
  }

  lemma {:induction false} SimulateClause(f: Machine -> Machine, env: Env, code: seq<Instr>, subject: int, cs: Cases,
                                          b: Stmt, rest: Cases, clause: int, k: Ctx, ts: Traps, t: Trace, fuel: nat)
    returns (n: nat)
    requires Drives(f, env, code) && k.nb == 0 && k.brk.Some? && FitsTraps(k, ts)
    requires cs.Case? && cs.body == b && cs.rest == rest
    requires WellPlaced(b, true, k.cont.Some?) && WellPlacedCases(rest, k.cont.Some?)
    requires PopsFit(b, 0, k.nc, k.nt) && PopsFitCases(rest, k.nc, k.nt)
    requires CodeAt(code, clause, Code(b, clause, k))
    requires var mid := End(b, clause, k);
             var next := if rest.Case? then mid + 1 else mid;
             && (rest.Case? ==> 0 <= mid < |code| && code[mid] == Jmp(Entry(rest, true, next) - mid - 1))
             && CodeAt(code, next, CodeCases(subject, rest, next, k))
    ensures Agrees(f, Running(clause, ts, t), n, ClauseOutcome(env, subject, b, rest, t, fuel),
                   End(b, clause, k) + (if rest.Case? then 1 else 0) + LenCases(rest, k.nc, k.nt), k, ts, fuel)
    decreases fuel, cs, 1
  {
    hide CodeAt, CodeCases, Code;
    var m, mid := Running(clause, ts, t), End(b, clause, k);
    var next := if rest.Case? then mid + 1 else mid;
    var r := Exec(env, b, t, fuel);
    n := Simulate(f, env, code, b, clause, k, ts, t, fuel);
    if rest.Case? {
      n := JumpOver(f, env, code, m, n, r, mid, Entry(rest, true, next), k, ts, fuel);
    }
    if r.Normal? {
      var n3 := SimulateCases(f, env, code, subject, rest, true, next, k, ts, r.t, fuel);
      n := Compose(f, env, code, m, n, r, Entry(rest, true, next), n3, ExecCases(env, subject, rest, true, r.t, fuel),
                   next + LenCases(rest, k.nc, k.nt), k, ts, fuel);
    }
  }

  /** `break` and `continue`: drop the traps pushed since the target's block began, then jump. */
  lemma {:induction false} SimulateLeave(f: Machine -> Machine, env: Env, code: seq<Instr>, base: int, np: nat,
                                         target: Option<int>, ts: Traps, t: Trace)
    returns (n: nat)
    requires Drives(f, env, code) && target.Some? && np <= Depth(ts)
    requires CodeAt(code, base, Pops(np) + [JumpTo(base + |Pops(np)|, target)])
    ensures Iter(f, Running(base, ts, t), n) == Running(target.value, Pop(ts, Byte(np)), t)
  {
    var m, jump := Running(base, ts, t), JumpTo(base + |Pops(np)|, target);
    assert Pops(np) + [jump] + [] == Pops(np) + [jump];
    SplitOne(code, base, Pops(np), jump, []);
    n := SimulatePops(f, env, code, base, np, ts, t);
    OneMore(f, env, code, m, n);
    n := n + 1;
  }

  lemma {:induction false} SimulatePops(f: Machine -> Machine, env: Env, code: seq<Instr>, base: int, np: nat,
                                        ts: Traps, t: Trace)
    returns (n: nat)
    requires Drives(f, env, code) && np <= Depth(ts) && CodeAt(code, base, Pops(np))
    ensures Iter(f, Running(base, ts, t), n) == Running(base + |Pops(np)|, Pop(ts, Byte(np)), t)
  {
    n := 0;
    if np > 0 {
      assert code[base + 0] == Pops(np)[0];
      OneMore(f, env, code, Running(base, ts, t), 0);
      n := 1;
    }
  }

  lemma {:induction false} SimulateThrow(f: Machine -> Machine, env: Env, code: seq<Instr>, st: Stmt, base: int, k: Ctx,
                                         ts: Traps, t: Trace, fuel: nat)
    returns (n: nat)
    requires Drives(f, env, code) && st.Throw? && Fits(st, k, ts) && CodeAt(code, base, Code(st, base, k))
    ensures Agrees(f, Running(base, ts, t), n, Exec(env, st, t, fuel), End(st, base, k), k, ts, fuel)
  {
    var ps, raise := PrimCode(st.error.code), Raise(st.error.target);
    assert ps + [raise] + [] == Code(st, base, k);
    SplitOne(code, base, ps, raise, []);
    n := SimulatePrims(f, env, code, st.error.code, base, ts, t);
    if RunPrims(env, st.error.code, t).Normal? {
      OneMore(f, env, code, Running(base, ts, t), n);
      n := n + 1;
    }
  }

  lemma {:induction false} LayoutReturn(code: seq<Instr>, st: Stmt, base: int, k: Ctx, ps: seq<Prim>, ret: Instr)
    requires st.Return? && CodeAt(code, base, Code(st, base, k))
    requires ps == if st.result.Some? then st.result.value.code else []
    requires ret == if st.result.Some? then Ret(1, st.result.value.target) else Ret(NO_VALUE, 0)
    ensures CodeAt(code, base, PrimCode(ps)) && CodeAt(code, base + |ps|, Pops(k.nt))
    ensures var pos := base + |ps| + |Pops(k.nt)|; 0 <= pos < |code| && code[pos] == ret
  {
    assert PrimCode(ps) + Pops(k.nt) + [ret] + [] == Code(st, base, k);
    SplitOne(code, base, PrimCode(ps) + Pops(k.nt), ret, []);
    Split(code, base, PrimCode(ps), Pops(k.nt));
  }

  lemma {:induction false} SimulateReturn(f: Machine -> Machine, env: Env, code: seq<Instr>, st: Stmt, base: int,
                                          k: Ctx, ts: Traps, t: Trace, fuel: nat)
    returns (n: nat)
    requires Drives(f, env, code) && st.Return? && Fits(st, k, ts) && CodeAt(code, base, Code(st, base, k))
    ensures Agrees(f, Running(base, ts, t), n, Exec(env, st, t, fuel), End(st, base, k), k, ts, fuel)
  {
    var ps := if st.result.Some? then st.result.value.code else [];
    var ret := if st.result.Some? then Ret(1, st.result.value.target) else Ret(NO_VALUE, 0);
    LayoutReturn(code, st, base, k, ps, ret);
    var m := Running(base, ts, t);
    n := SimulatePrims(f, env, code, ps, base, ts, t);
    var o := RunPrims(env, ps, t);
    if o.Normal? {
      var n2 := SimulatePops(f, env, code, base + |ps|, k.nt, ts, o.t);
      IterAdd(f, m, n, n2);
      n := n + n2;
      OneMore(f, env, code, m, n);
      n := n + 1;
      PopAll(ts);
    }
  }

  lemma {:induction false} LayoutTry(code: seq<Instr>, st: Stmt, base: int, k: Ctx)
    requires st.TryCatch? && CodeAt(code, base, Code(st, base, k))
    ensures var handler := End(st.body, base + 1, k.InTry()) + 2;
            && 0 <= base && base + 3 <= handler <= |code|
            && code[base] == PushTrap(st.slot, handler - base - 1)
            && CodeAt(code, base + 1, Code(st.body, base + 1, k.InTry()))
            && code[handler - 2] == PopTrap(1) && code[handler - 1] == Jmp(End(st, base, k) - handler)
            && CodeAt(code, handler, Code(st.handler, handler, k))
            && End(st.handler, handler, k) == End(st, base, k)
  {
    var TryCatch(a, x, h) := st;
    var ca := Code(a, base + 1, k.InTry());
    var handler := base + 1 + |ca| + 2;
    var ch := Code(h, handler, k);
    var push, leave := [PushTrap(x, |ca| + 2)], [PopTrap(1), Jmp(|ch|)];
    Split(code, base, push + ca + leave, ch);
    Split(code, base, push + ca, leave);
    Split(code, base, push, ca);
    assert code[base + 0] == push[0] && code[handler - 2 + 0] == leave[0] && code[handler - 2 + 1] == leave[1];
  }

  lemma {:induction false} Guard(f: Machine -> Machine, env: Env, code: seq<Instr>, base: int, x: int, handler: int,
                                 n1: nat, o: Outcome,
                                 n2: nat, r: Outcome, end: int, k: Ctx, ts: Traps, t: Trace, fuel: nat)
    returns (n: nat)
    requires Drives(f, env, code) && 0 <= base && base + 3 <= handler <= |code|
    requires k.nb <= Depth(ts) && k.nc <= Depth(ts)
    requires code[base] == PushTrap(x, handler - base - 1)
    requires code[handler - 2] == PopTrap(1) && code[handler - 1] == Jmp(end - handler)
    requires Agrees(f, Running(base + 1, Trap(handler, x, ts), t), n1, o, handler - 2, k.InTry(), Trap(handler, x, ts),
                    fuel)
    requires o.Thrown? ==> Agrees(f, Running(handler, ts, Then(o.t, Caught(x, o.err))), n2, r, end, k, ts, fuel)
    ensures Agrees(f, Running(base, ts, t), n, if o.Thrown? then r else o, end, k, ts, fuel)
  {
    var m, ts' := Running(base, ts, t), Trap(handler, x, ts);
    OneMore(f, env, code, m, 0);
    Prepend(f, env, code, m, 1, Running(base + 1, ts', t), n1, o, handler - 2, k.InTry(), ts', fuel, fuel);
    n := 1 + n1;
    if o.Normal? {
      OneMore(f, env, code, m, n);
      assert Pop(ts', 1) == ts;
      OneMore(f, env, code, m, n + 1);
      n := n + 2;
    } else if o.Thrown? {
      Prepend(f, env, code, m, n, Running(handler, ts, Then(o.t, Caught(x, o.err))), n2, r, end, k, ts, fuel, fuel);
      n := n + n2;
    }
  }

  lemma {:induction false} SimulateTry(f: Machine -> Machine, env: Env, code: seq<Instr>, st: Stmt, base: int, k: Ctx,
                                       ts: Traps, t: Trace, fuel: nat)
    returns (n: nat)
    requires Drives(f, env, code) && st.TryCatch? && Fits(st, k, ts) && CodeAt(code, base, Code(st, base, k))
    ensures Agrees(f, Running(base, ts, t), n, Exec(env, st, t, fuel), End(st, base, k), k, ts, fuel)
    decreases fuel, st, 0
  {
    hide CodeAt, Code;
    var TryCatch(a, x, h) := st;
    var handler := End(a, base + 1, k.InTry()) + 2;
    LayoutTry(code, st, base, k);
    var o := Exec(env, a, t, fuel);
    var n1 := Simulate(f, env, code, a, base + 1, k.InTry(), Trap(handler, x, ts), t, fuel);
    var n2, r := 0, o;
    if o.Thrown? {
      var t1 := Then(o.t, Caught(x, o.err));
      n2 := Simulate(f, env, code, h, handler, k, ts, t1, fuel);
      r := Exec(env, h, t1, fuel);
    }
    n := Guard(f, env, code, base, x, handler, n1, o, n2, r, End(st, base, k), k, ts, t, fuel);
  }

  // ---------- Whole functions ----------

  /** The machine state in which a function with this outcome ends. */
  function Final(o: Outcome): Machine
    requires o.Normal? || o.Returned? || o.Thrown?
  {
    match o
    case Normal(t) => Finished(t, None, 0)
    case Returned(t, r) => Finished(t, r, 0)
    case Thrown(t, e) => Uncaught(t, e)
  }

  ghost function Entered(): Machine { Running(0, Nil, Start) }

  lemma {:induction false} LayoutFunction(st: Stmt)
    ensures var k, code := Ctx(None, None, 0, 0, 0), FunctionCode(st);
            && CodeAt(code, 0, Code(st, 0, k))
            && 0 <= End(st, 0, k) < |code| && code[End(st, 0, k)] == Ret(NO_VALUE, 0)
  {}

  /** At function level nothing breaks or continues out of the body. */
  lemma {:induction false} SimulateFunction(f: Machine -> Machine, env: Env, st: Stmt, fuel: nat) returns (n: nat)
    requires WellPlaced(st, false, false) && PopsFit(st, 0, 0, 0) && Drives(f, env, FunctionCode(st))
    ensures var o := Exec(env, st, Start, fuel);
            if o.OutOfFuel? then Iter(f, Entered(), fuel).Running?
            else (o.Normal? || o.Returned? || o.Thrown?) && Iter(f, Entered(), n) == Final(o)
  {
    LayoutFunction(st);
    hide FunctionCode, CodeAt, Code, Len, PopsFit;
    var k, code := Ctx(None, None, 0, 0, 0), FunctionCode(st);
    var o := Exec(env, st, Start, fuel);
    n := Simulate(f, env, code, st, 0, k, Nil, Start, fuel);
    if o.Normal? {
      OneMore(f, env, code, Entered(), n);
      n := n + 1;
    }
  }

  lemma {:induction false} StepsIter(f: Machine -> Machine, env: Env, code: seq<Instr>, m: Machine, n: nat)
    requires Drives(f, env, code)
    ensures Iter(f, m, n) == Steps(env, code, m, n)
    decreases n
  {
    if n > 0 {
      assert Stepping(m);
      StepsIter(f, env, code, f(m), n - 1);
    }
  }

  /** Compiler correctness.  The machine halts on the code of a function exactly when the
      function's statement terminates, with the same trace and the same result, the same error
      when it is not caught, and no trap left behind. */
  lemma {:induction false} FunctionCorrect(env: Env, st: Stmt, final: Machine)
    requires WellPlaced(st, false, false) && PopsFit(st, 0, 0, 0)
    ensures (!final.Running? && exists n: nat :: Steps(env, FunctionCode(st), Entered(), n) == final)
       <==> (exists fuel: nat :: var o := Exec(env, st, Start, fuel);
             (o.Normal? || o.Returned? || o.Thrown?) && Final(o) == final)
  {
    var code := FunctionCode(st);
    var f := m => Step(env, code, m);
    if fuel: nat :| var o := Exec(env, st, Start, fuel); (o.Normal? || o.Returned? || o.Thrown?) && Final(o) == final {
      var n := SimulateFunction(f, env, st, fuel);
      StepsIter(f, env, code, Entered(), n);
    }
    if n: nat :| !final.Running? && Steps(env, code, Entered(), n) == final {
      StepsIter(f, env, code, Entered(), n);
      var n' := SimulateFunction(f, env, st, n);
      SameHalt(f, Entered(), n, n');
    }
  }

  lemma {:induction false} SameHalt(f: Machine -> Machine, m: Machine, a: nat, b: nat)
    requires var x, y := Iter(f, m, a), Iter(f, m, b); f(x) == x && f(y) == y
    ensures Iter(f, m, a) == Iter(f, m, b)
  {
    var lo, hi := if a < b then a else b, if a < b then b else a;
    IterAdd(f, m, lo, hi - lo);
    HaltedStays(f, Iter(f, m, lo), hi - lo);
  }
}
