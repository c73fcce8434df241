/** Structured statements, their meaning, the bytecode that the compiler emits for them,
    and the part of the interpreter loop that runs that bytecode.

    Expression code is abstract: it is a sequence of primitive instructions, each of which may
    raise an error.  What a primitive does is decided by an `Env`, whose functions look at the
    whole history of the run, so every deterministic environment is covered. */
module ControlFlow {
  import opened Wrappers

  /** Instructions that stay inside straight-line code: one step of an expression, the
      comparison of a `case` label with the value switched on, or clearing a register. */
  datatype Prim = Op(id: int) | Eq(trg: int, lhs: int, rhs: int) | LoadNull(reg: int)

  /** The observable history of a run. */
  datatype Event = Ran(p: Prim) | Caught(slot: int, err: int) | Iterated(container: int)
  datatype Trace = Start | Then(prev: Trace, ev: Event)

  datatype Iteration = Exit | Item | Resumed | Fail(err: int)

  datatype Env = Env(
    throws: (Prim, Trace) -> Option<int>,   // the error a primitive raises, if any
    isFalse: (int, Trace) -> bool,          // IsFalse(STK(r))
    value: (int, Trace) -> int,             // the value in a register
    next: (int, int, Trace) -> Iteration,   // FOREACH_OP on a container and an index register
    dead: (int, Trace) -> bool)             // is the generator in this register dead

  // ---------- Source language ----------

  /** An expression: its code, and the register its value ends up in. */
  datatype Expr = Expr(code: seq<Prim>, target: int)

  datatype Stmt =
    | Skip
    | Do(code: seq<Prim>)
    | Seq(first: Stmt, second: Stmt)
    | If(cond: Expr, thn: Stmt)
    | IfElse(cond: Expr, thn: Stmt, els: Stmt)
    | While(cond: Expr, body: Stmt)
    | DoWhile(body: Stmt, cond: Expr)
    | ForEach(container: Expr, index: int, body: Stmt)
    | Switch(subject: Expr, cases: Cases)
    | Break
    | Continue
    | Return(result: Option<Expr>)
    | Throw(error: Expr)
    | TryCatch(body: Stmt, slot: int, handler: Stmt)

  /** `case` clauses in order, ending in the `default` clause (`Skip` when there is none). */
  datatype Cases = Default(body: Stmt) | Case(test: Expr, body: Stmt, rest: Cases)

  /** `break` and `continue` occur only where the compiler accepts them. */
  predicate WellPlaced(st: Stmt, inBreakable: bool, inLoop: bool) {
    match st
    case Skip | Do(_) | Return(_) | Throw(_) => true
    case Seq(a, b) => WellPlaced(a, inBreakable, inLoop) && WellPlaced(b, inBreakable, inLoop)
    case If(_, a) => WellPlaced(a, inBreakable, inLoop)
    case IfElse(_, a, b) => WellPlaced(a, inBreakable, inLoop) && WellPlaced(b, inBreakable, inLoop)
    case While(_, a) => WellPlaced(a, true, true)
    case DoWhile(a, _) => WellPlaced(a, true, true)
    case ForEach(_, _, a) => WellPlaced(a, true, true)
    case Switch(_, cs) => WellPlacedCases(cs, inLoop)
    case Break => inBreakable
    case Continue => inLoop
    case TryCatch(a, _, h) => WellPlaced(a, inBreakable, inLoop) && WellPlaced(h, inBreakable, inLoop)
  }

  predicate WellPlacedCases(cs: Cases, inLoop: bool) {
    match cs
    case Default(b) => WellPlaced(b, true, inLoop)
    case Case(_, b, rest) => WellPlaced(b, true, inLoop) && WellPlacedCases(rest, inLoop)
  }

  // ---------- Meaning of statements ----------

  datatype Outcome =
    | Normal(t: Trace)
    | Broke(t: Trace)
    | Continued(t: Trace)
    | Returned(t: Trace, result: Option<int>)
    | Thrown(t: Trace, err: int)
    | OutOfFuel

  function RunPrims(env: Env, code: seq<Prim>, t: Trace): Outcome {
    if code == [] then Normal(t) else
    match env.throws(code[0], t)
    case Some(e) => Thrown(Then(t, Ran(code[0])), e)
    case None => RunPrims(env, code[1..], Then(t, Ran(code[0])))
  }

  /** The meaning of a statement, allowing at most `fuel` iterations of nested loops. */
  function Exec(env: Env, st: Stmt, t: Trace, fuel: nat): Outcome
    decreases fuel, st, 0
  {
    match st
    case Skip => Normal(t)
    case Do(code) => RunPrims(env, code, t)
    case Seq(a, b) =>
      var o := Exec(env, a, t, fuel);
      if o.Normal? then Exec(env, b, o.t, fuel) else o
    case If(c, a) =>
      var o := RunPrims(env, c.code, t);
      if !o.Normal? || env.isFalse(c.target, o.t) then o else Exec(env, a, o.t, fuel)
    case IfElse(c, a, b) =>
      var o := RunPrims(env, c.code, t);
      if !o.Normal? then o
      else if env.isFalse(c.target, o.t) then Exec(env, b, o.t, fuel)
      else Exec(env, a, o.t, fuel)
    case While(c, a) =>
      if fuel == 0 then OutOfFuel else
      var o := RunPrims(env, c.code, t);
      if !o.Normal? || env.isFalse(c.target, o.t) then o else
      var b := Exec(env, a, o.t, fuel);
      if b.Normal? || b.Continued? then Exec(env, st, b.t, fuel - 1)
      else if b.Broke? then Normal(b.t) else b
    case DoWhile(a, c) =>
      if fuel == 0 then OutOfFuel else
      var b := Exec(env, a, t, fuel);
      if b.Normal? || b.Continued? then
        var o := RunPrims(env, c.code, b.t);
        if !o.Normal? || env.isFalse(c.target, o.t) then o else Exec(env, st, o.t, fuel - 1)
      else if b.Broke? then Normal(b.t) else b
    case ForEach(c, idx, a) =>
      var o := RunPrims(env, c.code + ForEachInit(idx), t);
      if o.Normal? then Iterate(env, c.target, idx, a, o.t, fuel) else o
    case Switch(e, cs) =>
      var o := RunPrims(env, e.code, t);
      if !o.Normal? then o else
      var r := ExecCases(env, e.target, cs, false, o.t, fuel);
      if r.Broke? then Normal(r.t) else r
    case Break => Broke(t)
    case Continue => Continued(t)
    case Return(None) => Returned(t, None)
    case Return(Some(e)) =>
      var o := RunPrims(env, e.code, t);
      if o.Normal? then Returned(o.t, Some(e.target)) else o
    case Throw(e) =>
      var o := RunPrims(env, e.code, t);
      if o.Normal? then Thrown(o.t, env.value(e.target, o.t)) else o
    case TryCatch(a, x, h) =>
      var o := Exec(env, a, t, fuel);
      if o.Thrown? then Exec(env, h, Then(o.t, Caught(x, o.err)), fuel) else o
  }

  /** The three hidden locals of a `foreach` start out null. */
  function ForEachInit(idx: int): seq<Prim> { [LoadNull(idx), LoadNull(idx + 1), LoadNull(idx + 2)] }

  function Iterate(env: Env, container: int, idx: int, body: Stmt, t: Trace, fuel: nat): Outcome
    decreases fuel, body, 1
  {
    if fuel == 0 then OutOfFuel else
    var t1 := Then(t, Iterated(container));
    var i := env.next(container, idx, t);
    if i.Fail? then Thrown(t1, i.err)
    else if i.Exit? || (i.Resumed? && env.dead(container, t1)) then Normal(t1) else
    var b := Exec(env, body, t1, fuel);
    if b.Normal? || b.Continued? then Iterate(env, container, idx, body, b.t, fuel - 1)
    else if b.Broke? then Normal(b.t) else b
  }

  /** Clauses from some point on; `falling` says that an earlier clause matched and fell through. */
  function ExecCases(env: Env, subject: int, cs: Cases, falling: bool, t: Trace, fuel: nat): Outcome
    decreases fuel, cs, 0
  {
    match cs
    case Default(b) => Exec(env, b, t, fuel)
    case Case(l, b, rest) =>
      var o := if falling then Normal(t) else RunPrims(env, LabelCode(l, subject), t);
      if !o.Normal? then o
      else if !falling && env.isFalse(l.target, o.t) then ExecCases(env, subject, rest, false, o.t, fuel)
      else
        var r := Exec(env, b, o.t, fuel);
        if r.Normal? then ExecCases(env, subject, rest, true, r.t, fuel) else r
  }

  function LabelCode(l: Expr, subject: int): seq<Prim> { l.code + [Eq(l.target, l.target, subject)] }

  // ---------- Bytecode ----------

  /** Jump offsets count from the instruction after the jump. */
  datatype Instr =
    | Run(p: Prim)
    | Jmp(off: int)
    | Jz(reg: int, off: int)
    | PushTrap(slot: int, off: int)
    | PopTrap(n: nat)
    | Raise(reg: int)
    | Ret(arg0: int, reg: int)
    | ForEachNext(container: int, off: int, index: int)
    | PostForEach(container: int, off: int, index: int)

  const NO_VALUE := 0xFF
  const UNRESOLVED := -1234

  /** What surrounds a statement: where `break` and `continue` go (`None` while the target is
      not known yet), and how many traps lie between here and the enclosing breakable block,
      the enclosing loop and the function's entry. */
  datatype Ctx = Ctx(brk: Option<int>, cont: Option<int>, nb: nat, nc: nat, nt: nat)
  {
    function InTry(): Ctx { Ctx(brk, cont, nb + 1, nc + 1, nt + 1) }
    function InLoop(b: int, c: int): Ctx { Ctx(Some(b), Some(c), 0, 0, nt) }
    function InSwitch(b: int): Ctx { Ctx(Some(b), cont, 0, nc, nt) }
  }

  function JumpTo(pos: int, target: Option<int>): Instr {
    match target case None => Jmp(UNRESOLVED) case Some(d) => Jmp(d - pos - 1)
  }

  function PrimCode(ps: seq<Prim>): (r: seq<Instr>)
    ensures |r| == |ps|
  {
    seq(|ps|, i requires 0 <= i < |ps| => Run(ps[i]))
  }

  /** The first argument of an instruction is kept in a byte. */
  function Byte(n: nat): nat { n % 256 }

  function Pops(n: nat): seq<Instr> { if n > 0 then [PopTrap(Byte(n))] else [] }

  /** Every `break`, `continue` and `return` has to drop fewer than 256 traps. */
  predicate PopsFit(st: Stmt, nb: nat, nc: nat, nt: nat) {
    match st
    case Skip | Do(_) | Throw(_) => true
    case Seq(a, b) => PopsFit(a, nb, nc, nt) && PopsFit(b, nb, nc, nt)
    case If(_, a) => PopsFit(a, nb, nc, nt)
    case IfElse(_, a, b) => PopsFit(a, nb, nc, nt) && PopsFit(b, nb, nc, nt)
    case While(_, a) => PopsFit(a, 0, 0, nt)
    case DoWhile(a, _) => PopsFit(a, 0, 0, nt)
    case ForEach(_, _, a) => PopsFit(a, 0, 0, nt)
    case Switch(_, cs) => PopsFitCases(cs, nc, nt)
    case Break => nb < 256
    case Continue => nc < 256
    case Return(_) => nt < 256
    case TryCatch(a, _, h) => PopsFit(a, nb + 1, nc + 1, nt + 1) && PopsFit(h, nb, nc, nt)
  }

  predicate PopsFitCases(cs: Cases, nc: nat, nt: nat) {
    match cs
    case Default(b) => PopsFit(b, 0, nc, nt)
    case Case(_, b, rest) => PopsFit(b, 0, nc, nt) && PopsFitCases(rest, nc, nt)
  }

  /** Number of instructions emitted; it does not depend on where jumps go. */
  function Len(st: Stmt, nb: nat, nc: nat, nt: nat): nat {
    match st
    case Skip => 0
    case Do(code) => |code|
    case Seq(a, b) => Len(a, nb, nc, nt) + Len(b, nb, nc, nt)
    case If(c, a) => |c.code| + 1 + Len(a, nb, nc, nt)
    case IfElse(c, a, b) => |c.code| + 1 + Len(a, nb, nc, nt) + 1 + Len(b, nb, nc, nt)
    case While(c, a) => |c.code| + 1 + Len(a, 0, 0, nt) + 1
    case DoWhile(a, c) => Len(a, 0, 0, nt) + |c.code| + 2
    case ForEach(c, _, a) => |c.code| + 3 + 2 + Len(a, 0, 0, nt) + 1
    case Switch(e, cs) => |e.code| + LenCases(cs, nc, nt)
    case Break => |Pops(nb)| + 1
    case Continue => |Pops(nc)| + 1
    case Return(None) => |Pops(nt)| + 1
    case Return(Some(e)) => |e.code| + |Pops(nt)| + 1
    case Throw(e) => |e.code| + 1
    case TryCatch(a, _, h) => 1 + Len(a, nb + 1, nc + 1, nt + 1) + 2 + Len(h, nb, nc, nt)
  }

  function LenCases(cs: Cases, nc: nat, nt: nat): nat {
    match cs
    case Default(b) => Len(b, 0, nc, nt)
    case Case(l, b, rest) =>
      |l.code| + 2 + Len(b, 0, nc, nt) + (if rest.Case? then 1 else 0) + LenCases(rest, nc, nt)
  }

  /** The finished code of a statement whose first instruction has index `base`. */
  function Code(st: Stmt, base: int, k: Ctx): (r: seq<Instr>)
    ensures |r| == Len(st, k.nb, k.nc, k.nt)
    decreases st
  {
    match st
    case Skip => []
    case Do(code) => PrimCode(code)
    case Seq(a, b) =>
      var ca := Code(a, base, k);
      ca + Code(b, base + |ca|, k)
    case If(c, a) =>
      var ca := Code(a, base + |c.code| + 1, k);
      PrimCode(c.code) + [Jz(c.target, |ca|)] + ca
    case IfElse(c, a, b) =>
      var ca := Code(a, base + |c.code| + 1, k);
      var cb := Code(b, base + |c.code| + 1 + |ca| + 1, k);
      PrimCode(c.code) + [Jz(c.target, |ca| + 1)] + ca + [Jmp(|cb|)] + cb
    case While(c, a) =>
      var n := Len(a, 0, 0, k.nt);
      PrimCode(c.code) + [Jz(c.target, n + 1)]
      + Code(a, base + |c.code| + 1, k.InLoop(base + |c.code| + n + 2, base))
      + [Jmp(-(|c.code| + n + 2))]
    case DoWhile(a, c) =>
      var n := Len(a, 0, 0, k.nt);
      Code(a, base, k.InLoop(base + n + |c.code| + 2, base + n))
      + PrimCode(c.code) + [Jz(c.target, 1), Jmp(-(n + |c.code| + 2))]
    case ForEach(c, idx, a) =>
      var n := Len(a, 0, 0, k.nt);
      var head := base + |c.code| + 3;
      PrimCode(c.code + ForEachInit(idx))
      + [ForEachNext(c.target, n + 2, idx), PostForEach(c.target, n + 2, idx)]
      + Code(a, head + 2, k.InLoop(head + n + 3, head)) + [Jmp(-(n + 3))]
    case Switch(e, cs) =>
      PrimCode(e.code)
      + CodeCases(e.target, cs, base + |e.code|, k.InSwitch(base + Len(st, k.nb, k.nc, k.nt)))
    case Break => Pops(k.nb) + [JumpTo(base + |Pops(k.nb)|, k.brk)]
    case Continue => Pops(k.nc) + [JumpTo(base + |Pops(k.nc)|, k.cont)]
    case Return(None) => Pops(k.nt) + [Ret(NO_VALUE, 0)]
    case Return(Some(e)) => PrimCode(e.code) + Pops(k.nt) + [Ret(1, e.target)]
    case Throw(e) => PrimCode(e.code) + [Raise(e.target)]
    case TryCatch(a, x, h) =>
      var ca := Code(a, base + 1, k.InTry());
      var ch := Code(h, base + 1 + |ca| + 2, k);
      [PushTrap(x, |ca| + 2)] + ca + [PopTrap(1), Jmp(|ch|)] + ch
  }

  /** Each label test is followed by its clause.  A clause that falls through into another
      labelled clause jumps over that clause's test. */
  function CodeCases(subject: int, cs: Cases, base: int, k: Ctx): (r: seq<Instr>)
    requires k.nb == 0
    ensures |r| == LenCases(cs, k.nc, k.nt)
    decreases cs
  {
    match cs
    case Default(b) => Code(b, base, k)
    case Case(l, b, rest) =>
      var cb := Code(b, base + |l.code| + 2, k);
      var skip := SkipTest(rest);
      PrimCode(LabelCode(l, subject)) + [Jz(l.target, |cb| + |skip|)] + cb + skip
      + CodeCases(subject, rest, base + |l.code| + 2 + |cb| + |skip|, k)
  }

  function SkipTest(rest: Cases): seq<Instr> {
    match rest case Default(_) => [] case Case(l, _, _) => [Jmp(|l.code| + 2)]
  }

  /** A function body: the code of its statement and the closing RETURN. */
  function FunctionCode(st: Stmt): seq<Instr> {
    Code(st, 0, Ctx(None, None, 0, 0, 0)) + [Ret(NO_VALUE, 0)]
  }

  // ---------- The interpreter loop ----------

  /** The exception traps of the running frame, innermost first. */
  datatype Traps = Nil | Trap(pc: int, slot: int, rest: Traps)

  function Depth(ts: Traps): nat { match ts case Nil => 0 case Trap(_, _, r) => 1 + Depth(r) }

  function Pop(ts: Traps, n: nat): Traps
    requires n <= Depth(ts)
  {
    if n == 0 then ts else Pop(ts.rest, n - 1)
  }

  datatype Machine =
    | Running(pc: int, traps: Traps, t: Trace)
    | Finished(t: Trace, result: Option<int>, trapsLeft: nat)
    | Uncaught(t: Trace, err: int)
    | Stuck

  /** exception_trap: enter the innermost handler of the frame, or leave the frame. */
  function Unwind(ts: Traps, t: Trace, err: int): Machine {
    match ts
    case Nil => Uncaught(t, err)
    case Trap(pc, x, rest) => Running(pc, rest, Then(t, Caught(x, err)))
  }

  function Step(env: Env, code: seq<Instr>, m: Machine): Machine {
    if !m.Running? then m
    else if !(0 <= m.pc < |code|) then Stuck
    else
      var ip := m.pc + 1;
      match code[m.pc]
      case Run(p) =>
        (match env.throws(p, m.t)
         case None => Running(ip, m.traps, Then(m.t, Ran(p)))
         case Some(e) => Unwind(m.traps, Then(m.t, Ran(p)), e))
      case Jmp(off) => Running(ip + off, m.traps, m.t)
      case Jz(r, off) => Running(if env.isFalse(r, m.t) then ip + off else ip, m.traps, m.t)
      case PushTrap(x, off) => Running(ip, Trap(ip + off, x, m.traps), m.t)
      case PopTrap(n) => if n <= Depth(m.traps) then Running(ip, Pop(m.traps, n), m.t) else Stuck
      case Raise(r) => Unwind(m.traps, m.t, env.value(r, m.t))
      case Ret(a, r) => Finished(m.t, if a != NO_VALUE then Some(r) else None, Depth(m.traps))
      case ForEachNext(c, off, idx) =>
        var t1 := Then(m.t, Iterated(c));
        (match env.next(c, idx, m.t)
         case Fail(e) => Unwind(m.traps, t1, e)
         case Exit => Running(ip + off, m.traps, t1)
         case Item => Running(ip + 1, m.traps, t1)
         case Resumed => Running(ip, m.traps, t1))
      case PostForEach(c, off, _) =>
        Running(if env.dead(c, m.t) then ip + off - 1 else ip, m.traps, m.t)
  }

  function Steps(env: Env, code: seq<Instr>, m: Machine, n: nat): Machine
    decreases n
  {
    if n == 0 then m else Steps(env, code, Step(env, code, m), n - 1)
  }
}
