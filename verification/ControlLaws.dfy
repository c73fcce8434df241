/** What `switch` and `foreach` mean in terms of the values in registers, for the statement and for its
    code alike.  The environment decides what primitives do, so what EQ and LOADNULLS do is a premise. */
module ControlLaws {
  import opened Wrappers
  import opened ControlFlow
  import opened Segments
  import opened Simulation

  lemma {:induction false} RunAppend(env: Env, a: seq<Prim>, b: seq<Prim>, t: Trace)
    ensures var o := RunPrims(env, a, t); RunPrims(env, a + b, t) == if o.Normal? then RunPrims(env, b, o.t) else o
    decreases |a|
  {
    if a == [] {
      assert a + b == b;
    } else {
      assert (a + b)[0] == a[0] && (a + b)[1..] == a[1..] + b;
      if env.throws(a[0], t).None? { RunAppend(env, a[1..], b, Then(t, Ran(a[0]))); }
    }
  }

  // ---------- Which clause of a switch is entered ----------

  /** EQ makes its target false exactly when two registers hold different values; no other register changes. */
  ghost predicate HonestEq(env: Env) {
    && (forall r, a, b, t :: env.isFalse(r, Then(t, Ran(Eq(r, a, b)))) <==> env.value(a, t) != env.value(b, t))
    && (forall x, r, a, b, t :: x != r ==> env.value(x, Then(t, Ran(Eq(r, a, b)))) == env.value(x, t))
  }

  /** The code leaves the value in register x alone. */
  ghost predicate Spares(env: Env, code: seq<Prim>, x: int) {
    forall t :: RunPrims(env, code, t).Normal? ==> env.value(x, RunPrims(env, code, t).t) == env.value(x, t)
  }

  ghost predicate LabelsSpare(env: Env, cs: Cases, subject: int) {
    match cs
    case Default(_) => true
    case Case(l, _, rest) => l.target != subject && Spares(env, l.code, subject) && LabelsSpare(env, rest, subject)
  }

  function Labels(cs: Cases): nat { match cs case Default(_) => 0 case Case(_, _, rest) => 1 + Labels(rest) }

  /** The clauses from the n-th on; behind the last label, the default. */
  function From(cs: Cases, n: nat): (r: Cases)
    requires n <= Labels(cs)
    ensures Labels(r) == Labels(cs) - n
  {
    if n == 0 then cs else From(cs.rest, n - 1)
  }

  /** The first n labels are computed in order, each one compared with the subject right away. */
  function Tests(env: Env, subject: int, cs: Cases, n: nat, t: Trace): Outcome
    requires n <= Labels(cs)
  {
    if n == 0 then Normal(t) else
    var o := RunPrims(env, cs.test.code + [Eq(cs.test.target, cs.test.target, subject)], t);
    if o.Normal? then Tests(env, subject, cs.rest, n - 1, o.t) else o
  }

  /** The n-th label can be computed, and has the value v. */
  ghost predicate Matches(env: Env, subject: int, v: int, cs: Cases, n: nat, t: Trace)
    requires n < Labels(cs)
  {
    var l, o := From(cs, n).test, Tests(env, subject, cs, n, t);
    o.Normal? && var p := RunPrims(env, l.code, o.t); p.Normal? && env.value(l.target, p.t) == v
  }

  /** The first clause whose label has the value v, or the default. */
  ghost predicate First(env: Env, subject: int, v: int, cs: Cases, n: nat, t: Trace) {
    && n <= Labels(cs) && (n < Labels(cs) ==> Matches(env, subject, v, cs, n, t))
    && forall i :: 0 <= i < n ==> !Matches(env, subject, v, cs, i, t)
  }

  /** There is one, and only one. */
  lemma {:induction false} OneFirst(env: Env, subject: int, v: int, cs: Cases, t: Trace, i: nat) returns (n: nat)
    requires i <= Labels(cs) && forall j :: 0 <= j < i ==> !Matches(env, subject, v, cs, j, t)
    ensures First(env, subject, v, cs, n, t) && forall m :: First(env, subject, v, cs, m, t) ==> m == n
    decreases Labels(cs) - i
  {
    if i == Labels(cs) || Matches(env, subject, v, cs, i, t) {
      n := i;
    } else {
      n := OneFirst(env, subject, v, cs, t, i + 1);
    }
  }

  /** What has been tested when clause n is entered: its own label too, if it has one. */
  function Tested(env: Env, subject: int, cs: Cases, n: nat, t: Trace): Outcome
    requires n <= Labels(cs)
  {
    Tests(env, subject, cs, if n < Labels(cs) then n + 1 else n, t)
  }

  /** One label test: what it decides, and that it leaves the subject alone. */
  lemma TestDecides(env: Env, subject: int, cs: Cases, t: Trace)
    requires cs.Case? && HonestEq(env) && LabelsSpare(env, cs, subject)
    ensures var l := cs.test;
      var o, p := RunPrims(env, l.code + [Eq(l.target, l.target, subject)], t), RunPrims(env, l.code, t);
      && (o.Normal? ==>
            && p.Normal? && env.value(subject, o.t) == env.value(subject, t)
            && (env.isFalse(l.target, o.t) <==> env.value(l.target, p.t) != env.value(subject, t)))
      && (!p.Normal? ==> o == p)
  {
    var l := cs.test;
    var eq := Eq(l.target, l.target, subject);
    var p := RunPrims(env, l.code, t);
    RunAppend(env, l.code, [eq], t);
    if p.Normal? && env.throws(eq, p.t).None? {
      var t1 := Then(p.t, Ran(eq));
      assert RunPrims(env, [eq], p.t) == RunPrims(env, [], t1);
    }
  }

  /** Testing one label, and then those behind it. */
  lemma {:induction false} FirstOfRest(env: Env, subject: int, v: int, cs: Cases, n: nat, t: Trace)
    requires cs.Case? && n > 0 && First(env, subject, v, cs, n, t)
    requires Tests(env, subject, cs, 1, t).Normal?
    ensures var t1 := Tests(env, subject, cs, 1, t).t;
      First(env, subject, v, cs.rest, n - 1, t1) && Tested(env, subject, cs, n, t) ==
      Tested(env, subject, cs.rest, n - 1, t1)
  {
    var t1 := Tests(env, subject, cs, 1, t).t;
    forall i | 0 <= i < Labels(cs.rest)
      ensures Matches(env, subject, v, cs.rest, i, t1) <==> Matches(env, subject, v, cs, i + 1, t)
    {
      assert From(cs, i + 1) == From(cs.rest, i);
      assert Tests(env, subject, cs, i + 1, t) == Tests(env, subject, cs.rest, i, t1);
    }
  }

  /** The first label test leads on exactly if its clause is not the one sought. */
  lemma {:induction false} FirstTest(env: Env, subject: int, cs: Cases, n: nat, t: Trace)
    requires HonestEq(env) && LabelsSpare(env, cs, subject) && First(env, subject, env.value(subject, t), cs, n, t)
    requires cs.Case?
    ensures var o := RunPrims(env, cs.test.code + [Eq(cs.test.target, cs.test.target, subject)], t);
      && (!o.Normal? ==> Tested(env, subject, cs, n, t) == o)
      && (o.Normal? ==>
            && env.value(subject, o.t) == env.value(subject, t) && (env.isFalse(cs.test.target, o.t) <==> n > 0)
            && (n == 0 ==> Tested(env, subject, cs, n, t) == o)
            && (n > 0 ==>
                  && First(env, subject, env.value(subject, o.t), cs.rest, n - 1, o.t)
                  && Tested(env, subject, cs, n, t) == Tested(env, subject, cs.rest, n - 1, o.t)))
  {
    TestDecides(env, subject, cs, t);
    var o := RunPrims(env, cs.test.code + [Eq(cs.test.target, cs.test.target, subject)], t);
    if o.Normal? {
      assert Tests(env, subject, cs, 1, t) == Tests(env, subject, cs.rest, 0, o.t);
      assert From(cs, 0) == cs;
      if n > 0 {
        assert !Matches(env, subject, env.value(subject, t), cs, 0, t);
        FirstOfRest(env, subject, env.value(subject, t), cs, n, t);
      }
    }
  }

  /** The statement enters the first clause whose label has the value of the subject, and the default
      exactly if no label has it. */
  lemma {:induction false} SwitchEnters(env: Env, subject: int, cs: Cases, n: nat, t: Trace, fuel: nat)
    requires HonestEq(env) && LabelsSpare(env, cs, subject) && n <= Labels(cs)
    requires First(env, subject, env.value(subject, t), cs, n, t)
    ensures var o := Tested(env, subject, cs, n, t);
      ExecCases(env, subject, cs, false, t, fuel) ==
      if o.Normal? then ExecCases(env, subject, From(cs, n), true, o.t, fuel) else o
    decreases n
  {
    hide HonestEq, First, Tested;
    if cs.Case? {
      FirstTest(env, subject, cs, n, t);
      var o := RunPrims(env, cs.test.code + [Eq(cs.test.target, cs.test.target, subject)], t);
      if o.Normal? && n > 0 { SwitchEnters(env, subject, cs.rest, n - 1, o.t, fuel); }
    } else {
      OnlyDefault(env, subject, cs, n, t);
    }
  }

  lemma OnlyDefault(env: Env, subject: int, cs: Cases, n: nat, t: Trace)
    requires cs.Default? && First(env, subject, env.value(subject, t), cs, n, t)
    ensures n == 0 && Tested(env, subject, cs, n, t) == Normal(t)
  {}

  /** Where the test of label n begins in the code of the clauses. */
  function TestPos(cs: Cases, n: nat, base: int, k: Ctx): int
    requires n <= Labels(cs)
  {
    if n == 0 then base else
    var mid := End(cs.body, base + |cs.test.code| + 2, k);
    TestPos(cs.rest, n - 1, if cs.rest.Case? then mid + 1 else mid, k)
  }

  /** The code does the same: before it has done anything but compute and compare labels, it stands at the
      start of that clause, or has failed as the last label did. */
  lemma {:induction false} CodeEnters(f: Machine -> Machine, env: Env, code: seq<Instr>, subject: int, cs: Cases,
                                      n: nat, base: int, k: Ctx, ts: Traps, t: Trace)
    returns (steps: nat)
    requires HonestEq(env) && LabelsSpare(env, cs, subject) && n <= Labels(cs)
    requires First(env, subject, env.value(subject, t), cs, n, t)
    requires Drives(f, env, code) && k.nb == 0 && CodeAt(code, base, CodeCases(subject, cs, base, k))
    ensures var o := Tested(env, subject, cs, n, t);
      if o.Normal? then
        Iter(f, Running(base, ts, t), steps) == Running(Entry(From(cs, n), true, TestPos(cs, n, base, k)), ts, o.t)
      else o.Thrown? && Iter(f, Running(base, ts, t), steps) == Unwind(ts, o.t, o.err)
    decreases n
  {
    hide CodeAt, CodeCases, Code, Len, LenCases, RunPrims, HonestEq, Spares, First, Tested, Drives;
    steps := 0;
    if cs.Case? {
      var clause := base + |cs.test.code| + 2;
      var mid := End(cs.body, clause, k);
      var next := if cs.rest.Case? then mid + 1 else mid;
      LayoutCase(code, subject, cs, base, k);
      FirstTest(env, subject, cs, n, t);
      steps := SimulateLabel(f, env, code, cs.test, subject, false, base, next - clause, ts, t);
      var o := RunPrims(env, cs.test.code + [Eq(cs.test.target, cs.test.target, subject)], t);
      if o.Normal? && n > 0 {
        var more := CodeEnters(f, env, code, subject, cs.rest, n - 1, next, k, ts, o.t);
        IterAdd(f, Running(base, ts, t), steps, more);
        steps := steps + more;
      }
    } else {
      OnlyDefault(env, subject, cs, n, t);
    }
  }

  // ---------- What foreach starts with ----------

  /** Clearing a register always succeeds, makes it null, and changes no other. */
  ghost predicate HonestLoadNull(env: Env, null_: int) {
    forall r, t {:trigger Then(t, Ran(LoadNull(r)))} ::
      env.throws(LoadNull(r), t).None? && env.value(r, Then(t, Ran(LoadNull(r)))) == null_
      && forall x :: x != r ==> env.value(x, Then(t, Ran(LoadNull(r)))) == env.value(x, t)
  }

  /** Three registers have become null since t, and no other has changed. */
  ghost predicate Nulled(env: Env, null_: int, idx: int, t: Trace, t1: Trace) {
    forall x :: env.value(x, t1) == if idx <= x < idx + 3 then null_ else env.value(x, t)
  }

  lemma InitNulls(env: Env, null_: int, idx: int, t: Trace)
    requires HonestLoadNull(env, null_)
    ensures var o := RunPrims(env, ForEachInit(idx), t); o.Normal? && Nulled(env, null_, idx, t, o.t)
  {
    var ps := ForEachInit(idx);
    var t1 := Then(t, Ran(ps[0]));
    var t2 := Then(t1, Ran(ps[1]));
    var t3 := Then(t2, Ran(ps[2]));
    assert RunPrims(env, ps, t) == RunPrims(env, ps[1..], t1);
    assert RunPrims(env, ps[1..], t1) == RunPrims(env, ps[1..][1..], t2);
    assert RunPrims(env, ps[1..][1..], t2) == RunPrims(env, [], t3);
  }

  /** Once the container is computed, iteration starts with index, value and iterator null, and with every
      other register as it was. */
  lemma ForEachStarts(env: Env, null_: int, c: Expr, idx: int, a: Stmt, t: Trace, fuel: nat) returns (t1: Trace)
    requires HonestLoadNull(env, null_) && RunPrims(env, c.code, t).Normal?
    ensures Nulled(env, null_, idx, RunPrims(env, c.code, t).t, t1)
    ensures Exec(env, ForEach(c, idx, a), t, fuel) == Iterate(env, c.target, idx, a, t1, fuel)
  {
    InitNulls(env, null_, idx, RunPrims(env, c.code, t).t);
    RunAppend(env, c.code, ForEachInit(idx), t);
    t1 := RunPrims(env, c.code + ForEachInit(idx), t).t;
  }

  /** The code reaches its first FOREACH in such a state. */
  lemma {:induction false} ForEachReaches(f: Machine -> Machine, env: Env, null_: int, code: seq<Instr>, c: Expr,
                                          idx: int, a: Stmt, base: int, k: Ctx, ts: Traps, t: Trace)
    returns (steps: nat, pc: int, t1: Trace)
    requires HonestLoadNull(env, null_) && RunPrims(env, c.code, t).Normal? && Drives(f, env, code)
    requires CodeAt(code, base, Code(ForEach(c, idx, a), base, k))
    ensures Nulled(env, null_, idx, RunPrims(env, c.code, t).t, t1)
    ensures Iter(f, Running(base, ts, t), steps) == Running(pc, ts, t1)
    ensures 0 <= pc < |code| && code[pc] == ForEachNext(c.target, End(ForEach(c, idx, a), base, k) - pc - 1, idx)
  {
    hide CodeAt, Code, IterationCode;
    t1 := ForEachStarts(env, null_, c, idx, a, t, 0);
    RunAppend(env, c.code, ForEachInit(idx), t);
    InitNulls(env, null_, idx, RunPrims(env, c.code, t).t);
    t1 := RunPrims(env, c.code + ForEachInit(idx), t).t;
    pc := base + |c.code| + 3;
    LayoutForEach(code, ForEach(c, idx, a), base, k);
    LayoutIterate(code, c.target, idx, a, pc, k);
    steps := SimulatePrims(f, env, code, c.code + ForEachInit(idx), base, ts, t);
  }
}
