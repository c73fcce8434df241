/** Traps are balanced on every path: the exception traps of a frame are determined by the
    position in the code alone. */
module TrapBalance {
  import opened Wrappers
  import opened ControlFlow
  import opened Segments
  import opened Simulation

  /** The traps in force before each instruction of a statement, when `ts` is in force around it. */
  function Map(st: Stmt, base: int, nb: nat, nc: nat, nt: nat, ts: Traps): (r: seq<Traps>)
    ensures |r| == Len(st, nb, nc, nt)
    ensures r != [] && nb <= Depth(ts) && nc <= Depth(ts) && nt == Depth(ts) ==> r[0] == ts
    decreases st
  {
    match st
    case Seq(a, b) => Map(a, base, nb, nc, nt, ts) + Map(b, base + Len(a, nb, nc, nt), nb, nc, nt, ts)
    case If(c, a) => Same(|c.code| + 1, ts) + Map(a, base + |c.code| + 1, nb, nc, nt, ts)
    case IfElse(c, a, b) =>
      var pos := base + |c.code| + 1;
      Same(|c.code| + 1, ts) + Map(a, pos, nb, nc, nt, ts) + [ts] + Map(b, pos + Len(a, nb, nc, nt) + 1, nb, nc, nt, ts)
    case While(c, a) => Same(|c.code| + 1, ts) + Map(a, base + |c.code| + 1, 0, 0, nt, ts) + [ts]
    case DoWhile(a, c) => Map(a, base, 0, 0, nt, ts) + Same(|c.code| + 2, ts)
    case ForEach(c, _, a) => Same(|c.code| + 5, ts) + Map(a, base + |c.code| + 5, 0, 0, nt, ts) + [ts]
    case Switch(e, cs) => Same(|e.code|, ts) + MapCases(cs, base + |e.code|, nc, nt, ts)
    case Break => Same(|Pops(nb)|, ts) + [Dropped(ts, nb)]
    case Continue => Same(|Pops(nc)|, ts) + [Dropped(ts, nc)]
    case Return(None) => Same(|Pops(nt)|, ts) + [Nil]
    case Return(Some(e)) => Same(|e.code| + |Pops(nt)|, ts) + [Nil]
    case TryCatch(a, x, h) =>
      var handler := base + 3 + Len(a, nb + 1, nc + 1, nt + 1);
      var ts' := Trap(handler, x, ts);
      [ts] + Map(a, base + 1, nb + 1, nc + 1, nt + 1, ts') + [ts', ts] + Map(h, handler, nb, nc, nt, ts)
    case _ => Same(Len(st, nb, nc, nt), ts)
  }

  function MapCases(cs: Cases, base: int, nc: nat, nt: nat, ts: Traps): (r: seq<Traps>)
    ensures |r| == LenCases(cs, nc, nt)
    ensures r != [] && nc <= Depth(ts) && nt == Depth(ts) ==> r[0] == ts
    decreases cs
  {
    match cs
    case Default(b) => Map(b, base, 0, nc, nt, ts)
    case Case(l, b, rest) =>
      var clause := base + |l.code| + 2;
      var next := clause + Len(b, 0, nc, nt) + |SkipTest(rest)|;
      Same(|l.code| + 2, ts) + Map(b, clause, 0, nc, nt, ts) + Same(|SkipTest(rest)|, ts) + MapCases(rest, next, nc, nt,
          ts)
  }

  function Same(n: nat, ts: Traps): (r: seq<Traps>)
    ensures |r| == n
  {
    seq(n, _ => ts)
  }

  function Dropped(ts: Traps, n: nat): Traps { if n <= Depth(ts) then Pop(ts, n) else Nil }

  // ---------- A map that every instruction respects ----------

  /** The traps before instruction `pc`; nothing runs outside the code. */
  ghost predicate At(d: seq<Traps>, pc: int, ts: Traps) { 0 <= pc < |d| && d[pc] == ts }

  /** Every handler in force lies in the code, and there the traps around it are in force. */
  ghost predicate Handled(d: seq<Traps>, ts: Traps) {
    ts.Trap? ==> At(d, ts.pc, ts.rest) && Handled(d, ts.rest)
  }

  /** Whatever the instruction does next, the map is right about the traps there. */
  ghost predicate Respects(i: Instr, pc: int, d: seq<Traps>, ts: Traps) {
    match i
    case Run(_) => At(d, pc + 1, ts)
    case Jmp(off) => At(d, pc + 1 + off, ts)
    case Jz(_, off) => At(d, pc + 1, ts) && At(d, pc + 1 + off, ts)
    case PushTrap(x, off) => At(d, pc + 1, Trap(pc + 1 + off, x, ts)) && At(d, pc + 1 + off, ts)
    case PopTrap(n) => n <= Depth(ts) && At(d, pc + 1, Pop(ts, n))
    case Raise(_) => true
    case Ret(_, _) => ts == Nil
    case ForEachNext(_, off, _) => At(d, pc + 1, ts) && At(d, pc + 2, ts) && At(d, pc + 1 + off, ts)
    case PostForEach(_, off, _) => At(d, pc + 1, ts) && At(d, pc + off, ts)
  }

  ghost predicate Typed(code: seq<Instr>, d: seq<Traps>, lo: int, hi: int) {
    && 0 <= lo <= hi <= |code| && |code| <= |d|
    && forall pc :: lo <= pc < hi ==> Respects(code[pc], pc, d, d[pc]) && Handled(d, d[pc])
  }

  // ---------- Emitted code respects its map ----------

  /** `break` and `continue` lead to places where the traps pushed since then are gone. */
  ghost predicate Around(d: seq<Traps>, k: Ctx, ts: Traps) {
    && FitsTraps(k, ts) && Handled(d, ts)
    && (k.brk.Some? ==> At(d, k.brk.value, Pop(ts, k.nb)))
    && (k.cont.Some? ==> At(d, k.cont.value, Pop(ts, k.nc)))
  }

  ghost predicate Placed(code: seq<Instr>, d: seq<Traps>, st: Stmt, base: int, k: Ctx, ts: Traps) {
    && |d| == |code|
    && CodeAt(code, base, Code(st, base, k)) && CodeAt(d, base, Map(st, base, k.nb, k.nc, k.nt, ts))
    && At(d, End(st, base, k), ts)
  }

  ghost predicate Ready(code: seq<Instr>, d: seq<Traps>, st: Stmt, base: int, k: Ctx, ts: Traps) {
    Placed(code, d, st, base, k, ts) && Around(d, k, ts) && WellPlaced(st, k.brk.Some?, k.cont.Some?)
  }

  lemma HandledPop(d: seq<Traps>, ts: Traps, n: nat)
    requires Handled(d, ts) && n <= Depth(ts)
    ensures Handled(d, Pop(ts, n))
  {}

  lemma Join(code: seq<Instr>, d: seq<Traps>, lo: int, mid: int, hi: int)
    requires lo <= mid <= hi
    ensures Typed(code, d, lo, hi) <==> Typed(code, d, lo, mid) && Typed(code, d, mid, hi)
  {}

  lemma JoinOne(code: seq<Instr>, d: seq<Traps>, lo: int, mid: int)
    requires 0 <= lo <= mid < |code| <= |d| && Respects(code[mid], mid, d, d[mid]) && Handled(d, d[mid])
    ensures Typed(code, d, lo, mid + 1) <==> Typed(code, d, lo, mid)
  {}

  lemma TypePrims(code: seq<Instr>, d: seq<Traps>, ps: seq<Prim>, base: int, ts: Traps)
    requires |d| == |code| && CodeAt(code, base, PrimCode(ps)) && CodeAt(d, base, Same(|ps|, ts))
    requires At(d, base + |ps|, ts) && Handled(d, ts)
    ensures Typed(code, d, base, base + |ps|) && At(d, base, ts)
  {
    SameAt(d, base, |ps|, ts);
    forall pc | base <= pc < base + |ps| ensures Respects(code[pc], pc, d, d[pc]) && Handled(d, d[pc]) {
      assert code[base + (pc - base)] == PrimCode(ps)[pc - base];
    }
  }

  lemma SameAt(d: seq<Traps>, base: int, n: nat, ts: Traps)
    requires CodeAt(d, base, Same(n, ts))
    ensures forall pc :: base <= pc < base + n ==> d[pc] == ts
  {
    forall pc | base <= pc < base + n ensures d[pc] == ts {
      assert d[base + (pc - base)] == Same(n, ts)[pc - base];
    }
  }

  /** Control enters a statement with the surrounding traps in force. */
  lemma {:induction false} EntersWith(d: seq<Traps>, st: Stmt, base: int, nb: nat, nc: nat, nt: nat, ts: Traps)
    requires CodeAt(d, base, Map(st, base, nb, nc, nt, ts)) && At(d, base + Len(st, nb, nc, nt), ts)
    requires nb <= Depth(ts) && nc <= Depth(ts) && nt == Depth(ts)
    ensures At(d, base, ts)
  {
    hide Map, Len;
    var m := Map(st, base, nb, nc, nt, ts);
    if m != [] { assert d[base + 0] == m[0]; }
  }

  lemma {:induction false} Type(code: seq<Instr>, d: seq<Traps>, st: Stmt, base: int, k: Ctx, ts: Traps)
    requires Ready(code, d, st, base, k, ts)
    ensures Typed(code, d, base, End(st, base, k)) <==> PopsFit(st, k.nb, k.nc, k.nt)
    ensures At(d, base, ts)
    decreases st, 1
  {
    hide CodeAt;
    EntersWith(d, st, base, k.nb, k.nc, k.nt, ts);
    match st
    case Skip =>
    case Do(ps) => TypePrims(code, d, ps, base, ts);
    case Seq(_, _) => TypeSeq(code, d, st, base, k, ts);
    case If(_, _) => TypeIf(code, d, st, base, k, ts);
    case IfElse(_, _, _) => TypeIfElse(code, d, st, base, k, ts);
    case While(_, _) => TypeWhile(code, d, st, base, k, ts);
    case DoWhile(_, _) => TypeDoWhile(code, d, st, base, k, ts);
    case ForEach(_, _, _) => TypeForEach(code, d, st, base, k, ts);
    case Switch(_, _) => TypeSwitch(code, d, st, base, k, ts);
    case Break => TypeLeave(code, d, base, k.nb, k.brk, ts);
    case Continue => TypeLeave(code, d, base, k.nc, k.cont, ts);
    case Return(_) => TypeReturn(code, d, st, base, k, ts);
    case Throw(_) => TypeThrow(code, d, st, base, k, ts);
    case TryCatch(_, _, _) => TypeTry(code, d, st, base, k, ts);
  }

  lemma {:induction false} TypeSeq(code: seq<Instr>, d: seq<Traps>, st: Stmt, base: int, k: Ctx, ts: Traps)
    requires st.Seq? && Ready(code, d, st, base, k, ts)
    ensures Typed(code, d, base, End(st, base, k)) <==> PopsFit(st, k.nb, k.nc, k.nt)
    decreases st, 0
  {
    hide Code, Map, Len, CodeAt;
    SeqParts(code, d, st, base, k, ts);
    var mid := End(st.first, base, k);
    EntersWith(d, st.second, mid, k.nb, k.nc, k.nt, ts);
    Type(code, d, st.second, mid, k, ts);
    Type(code, d, st.first, base, k, ts);
    Join(code, d, base, mid, End(st, base, k));
  }

  lemma {:induction false} SeqParts(code: seq<Instr>, d: seq<Traps>, st: Stmt, base: int, k: Ctx, ts: Traps)
    requires st.Seq? && Placed(code, d, st, base, k, ts)
    ensures var mid := End(st.first, base, k);
            && CodeAt(code, base, Code(st.first, base, k)) && CodeAt(code, mid, Code(st.second, mid, k))
            && CodeAt(d, base, Map(st.first, base, k.nb, k.nc, k.nt, ts))
               && CodeAt(d, mid, Map(st.second, mid, k.nb, k.nc, k.nt, ts))
            && End(st.second, mid, k) == End(st, base, k)
  {
    var mid := End(st.first, base, k);
    Split(code, base, Code(st.first, base, k), Code(st.second, mid, k));
    Split(d, base, Map(st.first, base, k.nb, k.nc, k.nt, ts), Map(st.second, mid, k.nb, k.nc, k.nt, ts));
  }

  lemma {:induction false} TypeIf(code: seq<Instr>, d: seq<Traps>, st: Stmt, base: int, k: Ctx, ts: Traps)
    requires st.If? && Ready(code, d, st, base, k, ts)
    ensures Typed(code, d, base, End(st, base, k)) <==> PopsFit(st, k.nb, k.nc, k.nt)
    decreases st, 0
  {
    hide Code, Map, Len, CodeAt;
    LayoutIf(code, st, base, k);
    IfParts(d, st, base, k, ts);
    var pos := base + |st.cond.code|;
    Type(code, d, st.thn, pos + 1, k, ts);
    TypeTest(code, d, st.cond, base, End(st, base, k) - pos - 1, ts);
    Join(code, d, base, pos + 1, End(st, base, k));
  }

  lemma {:induction false} IfParts(d: seq<Traps>, st: Stmt, base: int, k: Ctx, ts: Traps)
    requires st.If? && CodeAt(d, base, Map(st, base, k.nb, k.nc, k.nt, ts))
    ensures var next := base + |st.cond.code| + 1;
            CodeAt(d, base, Same(|st.cond.code| + 1, ts)) && CodeAt(d, next, Map(st.thn, next, k.nb, k.nc, k.nt, ts))
  {
    var next := base + |st.cond.code| + 1;
    Split(d, base, Same(|st.cond.code| + 1, ts), Map(st.thn, next, k.nb, k.nc, k.nt, ts));
  }

  /** A condition with its conditional jump. */
  lemma {:induction false} TypeTest(code: seq<Instr>, d: seq<Traps>, c: Expr, base: int, off: int, ts: Traps)
    requires |d| == |code| && CodeAt(code, base, PrimCode(c.code)) && CodeAt(d, base, Same(|c.code| + 1, ts))
             && Handled(d, ts)
    requires var pos := base + |c.code|;
             pos < |code| && code[pos] == Jz(c.target, off) && At(d, pos + 1, ts) && At(d, pos + 1 + off, ts)
    ensures Typed(code, d, base, base + |c.code| + 1) && At(d, base, ts)
  {
    var n := |c.code|;
    SameAt(d, base, n + 1, ts);
    TypePrims(code, d, c.code, base, ts);
    JoinOne(code, d, base, base + n);
  }

  lemma {:induction false} TypeIfElse(code: seq<Instr>, d: seq<Traps>, st: Stmt, base: int, k: Ctx, ts: Traps)
    requires st.IfElse? && Ready(code, d, st, base, k, ts)
    ensures Typed(code, d, base, End(st, base, k)) <==> PopsFit(st, k.nb, k.nc, k.nt)
    decreases st, 0
  {
    hide Code, Map, Len, CodeAt;
    LayoutIfElse(code, st, base, k);
    IfElseParts(d, st, base, k, ts);
    var pos := base + |st.cond.code|;
    var mid := End(st.thn, pos + 1, k);
    Type(code, d, st.els, mid + 1, k, ts);
    Type(code, d, st.thn, pos + 1, k, ts);
    TypeTest(code, d, st.cond, base, mid - pos, ts);
    Join(code, d, base, pos + 1, mid);
    JoinOne(code, d, base, mid);
    Join(code, d, base, mid + 1, End(st, base, k));
  }

  lemma {:induction false} IfElseParts(d: seq<Traps>, st: Stmt, base: int, k: Ctx, ts: Traps)
    requires st.IfElse? && CodeAt(d, base, Map(st, base, k.nb, k.nc, k.nt, ts))
    ensures var next := base + |st.cond.code| + 1;
            var mid := End(st.thn, next, k);
            && CodeAt(d, base, Same(|st.cond.code| + 1, ts)) && CodeAt(d, next, Map(st.thn, next, k.nb, k.nc, k.nt, ts))
            && At(d, mid, ts) && CodeAt(d, mid + 1, Map(st.els, mid + 1, k.nb, k.nc, k.nt, ts))
  {
    var next := base + |st.cond.code| + 1;
    var mid := End(st.thn, next, k);
    var test, thn := Same(|st.cond.code| + 1, ts), Map(st.thn, next, k.nb, k.nc, k.nt, ts);
    SplitOne(d, base, test + thn, ts, Map(st.els, mid + 1, k.nb, k.nc, k.nt, ts));
    Split(d, base, test, thn);
  }

  lemma {:induction false} TypeWhile(code: seq<Instr>, d: seq<Traps>, st: Stmt, base: int, k: Ctx, ts: Traps)
    requires st.While? && Ready(code, d, st, base, k, ts) && At(d, base, ts)
    ensures Typed(code, d, base, End(st, base, k)) <==> PopsFit(st, k.nb, k.nc, k.nt)
    decreases st, 0
  {
    hide Code, Map, Len, CodeAt;
    LayoutWhile(code, st, base, k);
    WhileParts(d, st, base, k, ts);
    var pos, end := base + |st.cond.code|, End(st, base, k);
    Type(code, d, st.body, pos + 1, k.InLoop(end, base), ts);
    TypeTest(code, d, st.cond, base, end - pos - 1, ts);
    Join(code, d, base, pos + 1, end - 1);
    JoinOne(code, d, base, end - 1);
  }

  lemma {:induction false} WhileParts(d: seq<Traps>, st: Stmt, base: int, k: Ctx, ts: Traps)
    requires st.While? && CodeAt(d, base, Map(st, base, k.nb, k.nc, k.nt, ts))
    ensures var next := base + |st.cond.code| + 1;
            && CodeAt(d, base, Same(|st.cond.code| + 1, ts)) && CodeAt(d, next, Map(st.body, next, 0, 0, k.nt, ts))
            && At(d, End(st, base, k) - 1, ts)
  {
    var next := base + |st.cond.code| + 1;
    var test, body := Same(|st.cond.code| + 1, ts), Map(st.body, next, 0, 0, k.nt, ts);
    assert test + body + [ts] + [] == Map(st, base, k.nb, k.nc, k.nt, ts);
    SplitOne(d, base, test + body, ts, []);
    Split(d, base, test, body);
  }

  lemma {:induction false} TypeDoWhile(code: seq<Instr>, d: seq<Traps>, st: Stmt, base: int, k: Ctx, ts: Traps)
    requires st.DoWhile? && Ready(code, d, st, base, k, ts) && At(d, base, ts)
    ensures Typed(code, d, base, End(st, base, k)) <==> PopsFit(st, k.nb, k.nc, k.nt)
    decreases st, 0
  {
    hide Code, Map, Len, CodeAt;
    LayoutDoWhile(code, st, base, k);
    DoWhileParts(d, st, base, k, ts);
    var test, end := base + Len(st.body, 0, 0, k.nt), End(st, base, k);
    TypeTest(code, d, st.cond, test, 1, ts);
    JoinOne(code, d, test, end - 1);
    Type(code, d, st.body, base, k.InLoop(end, test), ts);
    Join(code, d, base, test, end);
  }

  lemma {:induction false} DoWhileParts(d: seq<Traps>, st: Stmt, base: int, k: Ctx, ts: Traps)
    requires st.DoWhile? && CodeAt(d, base, Map(st, base, k.nb, k.nc, k.nt, ts))
    ensures var test := base + Len(st.body, 0, 0, k.nt);
            && CodeAt(d, base, Map(st.body, base, 0, 0, k.nt, ts)) && CodeAt(d, test, Same(|st.cond.code| + 1, ts))
            && At(d, End(st, base, k) - 1, ts)
  {
    var n := |st.cond.code|;
    var body := Map(st.body, base, 0, 0, k.nt, ts);
    assert body + Same(n + 1, ts) + [ts] + [] == Map(st, base, k.nb, k.nc, k.nt, ts);
    SplitOne(d, base, body + Same(n + 1, ts), ts, []);
    Split(d, base, body, Same(n + 1, ts));
  }

  lemma {:induction false} TypeForEach(code: seq<Instr>, d: seq<Traps>, st: Stmt, base: int, k: Ctx, ts: Traps)
    requires st.ForEach? && Ready(code, d, st, base, k, ts)
    ensures Typed(code, d, base, End(st, base, k)) <==> PopsFit(st, k.nb, k.nc, k.nt)
    decreases st, 0
  {
    hide Code, Map, Len, CodeAt, IterationCode;
    var ForEach(c, idx, a) := st;
    var ps, head, end := c.code + ForEachInit(idx), base + |c.code| + 3, End(st, base, k);
    LayoutForEach(code, st, base, k);
    LayoutIterate(code, c.target, idx, a, head, k);
    ForEachParts(d, st, base, k, ts);
    Type(code, d, a, head + 2, k.InLoop(end, head), ts);
    TypePrims(code, d, ps, base, ts);
    JoinOne(code, d, base, head);
    JoinOne(code, d, base, head + 1);
    Join(code, d, base, head + 2, end - 1);
    JoinOne(code, d, base, end - 1);
  }

  lemma {:induction false} ForEachParts(d: seq<Traps>, st: Stmt, base: int, k: Ctx, ts: Traps)
    requires st.ForEach? && CodeAt(d, base, Map(st, base, k.nb, k.nc, k.nt, ts))
    ensures var head := base + |st.container.code| + 3;
            && CodeAt(d, base, Same(|st.container.code + ForEachInit(st.index)|, ts)) && At(d, head, ts)
               && At(d, head + 1, ts)
            && CodeAt(d, head + 2, Map(st.body, head + 2, 0, 0, k.nt, ts)) && At(d, End(st, base, k) - 1, ts)
  {
    var n := |st.container.code| + 3;
    var body := Map(st.body, base + n + 2, 0, 0, k.nt, ts);
    assert Same(n + 2, ts) + body + [ts] + [] == Map(st, base, k.nb, k.nc, k.nt, ts);
    SplitOne(d, base, Same(n + 2, ts) + body, ts, []);
    Split(d, base, Same(n + 2, ts), body);
    SameAt(d, base, n + 2, ts);
  }

  lemma {:induction false} TypeSwitch(code: seq<Instr>, d: seq<Traps>, st: Stmt, base: int, k: Ctx, ts: Traps)
    requires st.Switch? && Ready(code, d, st, base, k, ts)
    ensures Typed(code, d, base, End(st, base, k)) <==> PopsFit(st, k.nb, k.nc, k.nt)
    decreases st, 0
  {
    SwitchParts(code, d, st, base, k, ts);
    hide Code, Map, Len, CodeAt, CodeCases, MapCases, LenCases;
    var Switch(e, cs) := st;
    var pos, end := base + |e.code|, End(st, base, k);
    TypeCases(code, d, e.target, cs, pos, k.InSwitch(end), ts);
    TypePrims(code, d, e.code, base, ts);
    Join(code, d, base, pos, end);
  }

  lemma {:induction false} SwitchParts(code: seq<Instr>, d: seq<Traps>, st: Stmt, base: int, k: Ctx, ts: Traps)
    requires st.Switch? && Placed(code, d, st, base, k, ts)
    ensures var Switch(e, cs) := st;
            var pos, k' := base + |e.code|, k.InSwitch(End(st, base, k));
            && CodeAt(code, base, PrimCode(e.code)) && CodeAt(code, pos, CodeCases(e.target, cs, pos, k'))
            && CodeAt(d, base, Same(|e.code|, ts)) && CodeAt(d, pos, MapCases(cs, pos, k.nc, k.nt, ts))
            && pos + LenCases(cs, k.nc, k.nt) == End(st, base, k)
  {
    var Switch(e, cs) := st;
    var pos := base + |e.code|;
    Split(code, base, PrimCode(e.code), CodeCases(e.target, cs, pos, k.InSwitch(End(st, base, k))));
    Split(d, base, Same(|e.code|, ts), MapCases(cs, pos, k.nc, k.nt, ts));
  }

  lemma {:induction false} TypeCases(code: seq<Instr>, d: seq<Traps>, subject: int, cs: Cases, base: int, k: Ctx,
                                     ts: Traps)
    requires k.nb == 0 && k.brk.Some? && |d| == |code| && Around(d, k, ts) && WellPlacedCases(cs, k.cont.Some?)
    requires CodeAt(code, base, CodeCases(subject, cs, base, k)) && CodeAt(d, base, MapCases(cs, base, k.nc, k.nt, ts))
    requires At(d, base + LenCases(cs, k.nc, k.nt), ts)
    ensures Typed(code, d, base, base + LenCases(cs, k.nc, k.nt)) <==> PopsFitCases(cs, k.nc, k.nt)
    ensures At(d, base, ts)
    ensures At(d, Entry(cs, true, base), ts)
    decreases cs, 1
  {
    match cs
    case Default(b) => Type(code, d, b, base, k, ts);
    case Case(_, _, _) => TypeCase(code, d, subject, cs, base, k, ts);
  }

  lemma {:induction false} TypeCase(code: seq<Instr>, d: seq<Traps>, subject: int, cs: Cases, base: int, k: Ctx,
                                    ts: Traps)
    requires cs.Case? && k.nb == 0 && k.brk.Some? && |d| == |code| && Around(d, k, ts)
             && WellPlacedCases(cs, k.cont.Some?)
    requires CodeAt(code, base, CodeCases(subject, cs, base, k)) && CodeAt(d, base, MapCases(cs, base, k.nc, k.nt, ts))
    requires At(d, base + LenCases(cs, k.nc, k.nt), ts)
    ensures Typed(code, d, base, base + LenCases(cs, k.nc, k.nt)) <==> PopsFitCases(cs, k.nc, k.nt)
    ensures At(d, base, ts)
    ensures At(d, Entry(cs, true, base), ts)
    decreases cs, 0
  {
    hide Code, Map, Len, CodeAt, CodeCases, MapCases, LenCases;
    var Case(l, b, rest) := cs;
    var clause := base + |l.code| + 2;
    var mid := End(b, clause, k);
    var next := if rest.Case? then mid + 1 else mid;
    LayoutCase(code, subject, cs, base, k);
    CaseParts(d, cs, base, k, ts);
    TypeCases(code, d, subject, rest, next, k, ts);
    Type(code, d, b, clause, k, ts);
    TypeTest(code, d, Expr(LabelCode(l, subject), l.target), base, next - clause, ts);
    Join(code, d, base, clause, mid);
    if rest.Case? { JoinOne(code, d, base, mid); }
    Join(code, d, base, next, base + LenCases(cs, k.nc, k.nt));
  }

  lemma {:induction false} CaseParts(d: seq<Traps>, cs: Cases, base: int, k: Ctx, ts: Traps)
    requires cs.Case? && k.nb == 0 && CodeAt(d, base, MapCases(cs, base, k.nc, k.nt, ts))
    ensures var clause := base + |cs.test.code| + 2;
            var mid := End(cs.body, clause, k);
            var next := if cs.rest.Case? then mid + 1 else mid;
            && CodeAt(d, base, Same(|cs.test.code| + 2, ts))
               && CodeAt(d, clause, Map(cs.body, clause, 0, k.nc, k.nt, ts))
            && (cs.rest.Case? ==> At(d, mid, ts)) && CodeAt(d, next, MapCases(cs.rest, next, k.nc, k.nt, ts))
  {
    hide Map, Len;
    var Case(l, b, rest) := cs;
    var clause := base + |l.code| + 2;
    var body, skip := Map(b, clause, 0, k.nc, k.nt, ts), Same(|SkipTest(rest)|, ts);
    var next := clause + |body| + |skip|;
    Split(d, base, Same(|l.code| + 2, ts) + body + skip, MapCases(rest, next, k.nc, k.nt, ts));
    Split(d, base, Same(|l.code| + 2, ts) + body, skip);
    Split(d, base, Same(|l.code| + 2, ts), body);
    SameAt(d, clause + |body|, |skip|, ts);
  }

  lemma DepthPop(ts: Traps, n: nat)
    requires n <= Depth(ts)
    ensures Depth(Pop(ts, n)) == Depth(ts) - n
  {}

  /** Dropping as many traps as the byte says is right exactly for fewer than 256. */
  lemma {:induction false} PopExact(ts: Traps, n: nat)
    requires n <= Depth(ts)
    ensures Pop(ts, Byte(n)) == Pop(ts, n) <==> n < 256
  {
    DepthPop(ts, n);
    DepthPop(ts, Byte(n));
  }

  lemma {:induction false} TypePops(code: seq<Instr>, d: seq<Traps>, base: int, n: nat, ts: Traps)
    requires |d| == |code| && n <= Depth(ts) && Handled(d, ts) && CodeAt(code, base, Pops(n))
    requires At(d, base, ts) && At(d, base + |Pops(n)|, Pop(ts, n))
    ensures Typed(code, d, base, base + |Pops(n)|) <==> n < 256
  {
    if n > 0 {
      assert code[base + 0] == Pops(n)[0];
      PopExact(ts, n);
    }
  }

  lemma {:induction false} TypeLeave(code: seq<Instr>, d: seq<Traps>, base: int, n: nat, target: Option<int>, ts: Traps)
    requires |d| == |code| && target.Some? && n <= Depth(ts) && Handled(d, ts) && At(d, target.value, Pop(ts, n))
    requires CodeAt(code, base, Pops(n) + [JumpTo(base + |Pops(n)|, target)])
    requires CodeAt(d, base, Same(|Pops(n)|, ts) + [Dropped(ts, n)])
    ensures Typed(code, d, base, base + |Pops(n)| + 1) <==> n < 256
  {
    var pos := base + |Pops(n)|;
    Split(code, base, Pops(n), [JumpTo(pos, target)]);
    Split(d, base, Same(|Pops(n)|, ts), [Dropped(ts, n)]);
    assert code[pos + 0] == [JumpTo(pos, target)][0] && d[pos + 0] == [Dropped(ts, n)][0];
    SameAt(d, base, |Pops(n)|, ts);
    HandledPop(d, ts, n);
    TypePops(code, d, base, n, ts);
    JoinOne(code, d, base, pos);
  }

  lemma {:induction false} TypeThrow(code: seq<Instr>, d: seq<Traps>, st: Stmt, base: int, k: Ctx, ts: Traps)
    requires st.Throw? && Ready(code, d, st, base, k, ts)
    ensures Typed(code, d, base, End(st, base, k)) <==> PopsFit(st, k.nb, k.nc, k.nt)
  {
    var e := st.error;
    Split(code, base, PrimCode(e.code), [Raise(e.target)]);
    assert code[base + |e.code| + 0] == [Raise(e.target)][0];
    SameAt(d, base, |e.code| + 1, ts);
    assert Same(|e.code| + 1, ts) == Same(|e.code|, ts) + [ts];
    Split(d, base, Same(|e.code|, ts), [ts]);
    TypePrims(code, d, e.code, base, ts);
    JoinOne(code, d, base, base + |e.code|);
  }

  lemma {:induction false} TypeReturn(code: seq<Instr>, d: seq<Traps>, st: Stmt, base: int, k: Ctx, ts: Traps)
    requires st.Return? && Ready(code, d, st, base, k, ts)
    ensures Typed(code, d, base, End(st, base, k)) <==> PopsFit(st, k.nb, k.nc, k.nt)
  {
    hide Code, Map, Len, CodeAt;
    var ps := if st.result.Some? then st.result.value.code else [];
    var ret := if st.result.Some? then Ret(1, st.result.value.target) else Ret(NO_VALUE, 0);
    LayoutReturn(code, st, base, k, ps, ret);
    ReturnParts(d, st, base, k, ts, ps);
    var pos := base + |ps|;
    PopAll(ts);
    TypePrims(code, d, ps, base, ts);
    TypePops(code, d, pos, k.nt, ts);
    Join(code, d, base, pos, pos + |Pops(k.nt)|);
    JoinOne(code, d, base, pos + |Pops(k.nt)|);
  }

  lemma {:induction false} ReturnParts(d: seq<Traps>, st: Stmt, base: int, k: Ctx, ts: Traps, ps: seq<Prim>)
    requires st.Return? && CodeAt(d, base, Map(st, base, k.nb, k.nc, k.nt, ts)) && k.nt == Depth(ts)
    requires ps == if st.result.Some? then st.result.value.code else []
    ensures CodeAt(d, base, Same(|ps|, ts)) && At(d, base + |ps|, ts) && At(d, base + |ps| + |Pops(k.nt)|, Nil)
    ensures End(st, base, k) == base + |ps| + |Pops(k.nt)| + 1
  {
    var n := |Pops(k.nt)|;
    assert Same(|ps|, ts) + Same(n, ts) + [Nil] + [] == Map(st, base, k.nb, k.nc, k.nt, ts);
    SplitOne(d, base, Same(|ps|, ts) + Same(n, ts), Nil, []);
    Split(d, base, Same(|ps|, ts), Same(n, ts));
    SameAt(d, base + |ps|, n, ts);
  }

  lemma {:induction false} TypeTry(code: seq<Instr>, d: seq<Traps>, st: Stmt, base: int, k: Ctx, ts: Traps)
    requires st.TryCatch? && Ready(code, d, st, base, k, ts)
    ensures Typed(code, d, base, End(st, base, k)) <==> PopsFit(st, k.nb, k.nc, k.nt)
    decreases st, 0
  {
    hide Code, Map, Len, CodeAt;
    var TryCatch(a, x, h) := st;
    var handler, end := End(a, base + 1, k.InTry()) + 2, End(st, base, k);
    var ts' := Trap(handler, x, ts);
    LayoutTry(code, st, base, k);
    TryParts(d, st, base, k, ts);
    Type(code, d, h, handler, k, ts);
    Type(code, d, a, base + 1, k.InTry(), ts');
    assert Pop(ts', 1) == ts;
    JoinOne(code, d, base, base);
    Join(code, d, base, base + 1, handler - 2);
    JoinOne(code, d, base, handler - 2);
    JoinOne(code, d, base, handler - 1);
    Join(code, d, base, handler, end);
  }

  lemma {:induction false} TryParts(d: seq<Traps>, st: Stmt, base: int, k: Ctx, ts: Traps)
    requires st.TryCatch? && CodeAt(d, base, Map(st, base, k.nb, k.nc, k.nt, ts))
    ensures var handler := End(st.body, base + 1, k.InTry()) + 2;
            var ts' := Trap(handler, st.slot, ts);
            && At(d, base, ts) && CodeAt(d, base + 1, Map(st.body, base + 1, k.nb + 1, k.nc + 1, k.nt + 1, ts'))
            && At(d, handler - 2, ts') && At(d, handler - 1, ts)
               && CodeAt(d, handler, Map(st.handler, handler, k.nb, k.nc, k.nt, ts))
  {
    var handler := End(st.body, base + 1, k.InTry()) + 2;
    var ts' := Trap(handler, st.slot, ts);
    var body, leave := Map(st.body, base + 1, k.nb + 1, k.nc + 1, k.nt + 1, ts'), [ts', ts];
    Split(d, base, [ts] + body + leave, Map(st.handler, handler, k.nb, k.nc, k.nt, ts));
    Split(d, base, [ts] + body, leave);
    Split(d, base, [ts], body);
    assert d[base + 0] == [ts][0] && d[handler - 2 + 0] == leave[0] && d[handler - 2 + 1] == leave[1];
  }

  // ---------- Whole functions ----------

  function FunctionMap(st: Stmt): seq<Traps> { Map(st, 0, 0, 0, 0, Nil) + [Nil] }

  lemma {:induction false} TypeFunction(st: Stmt)
    requires WellPlaced(st, false, false)
    ensures |FunctionMap(st)| == |FunctionCode(st)|
    ensures Typed(FunctionCode(st), FunctionMap(st), 0, |FunctionCode(st)|) <==> PopsFit(st, 0, 0, 0)
    ensures At(FunctionMap(st), 0, Nil)
  {
    hide Code, Map, Len, CodeAt, FunctionCode, FunctionMap, Typed, Handled;
    var k, code, d := Ctx(None, None, 0, 0, 0), FunctionCode(st), FunctionMap(st);
    LayoutFunction(st);
    FunctionMapParts(st);
    Type(code, d, st, 0, k, Nil);
    JoinOne(code, d, 0, |code| - 1);
  }

  lemma {:induction false} FunctionMapParts(st: Stmt)
    ensures var k, d := Ctx(None, None, 0, 0, 0), FunctionMap(st);
            && |d| == |FunctionCode(st)| == End(st, 0, k) + 1
            && CodeAt(d, 0, Map(st, 0, 0, 0, 0, Nil)) && At(d, End(st, 0, k), Nil) && Handled(d, Nil)
  {}

  /** The machine is inside the code with exactly the traps the map says, or it has ended; it
      returns with no trap left, and it is never stuck. */
  ghost predicate Balanced(code: seq<Instr>, d: seq<Traps>, m: Machine) {
    match m
    case Running(pc, ts, _) => |d| == |code| && At(d, pc, ts)
    case Finished(_, _, left) => left == 0
    case Uncaught(_, _) => true
    case Stuck => false
  }

  lemma StepBalanced(env: Env, code: seq<Instr>, d: seq<Traps>, m: Machine)
    requires Typed(code, d, 0, |code|) && Balanced(code, d, m)
    ensures Balanced(code, d, Step(env, code, m))
  {
    if m.Running? {
      assert Respects(code[m.pc], m.pc, d, m.traps) && Handled(d, m.traps);
    }
  }

  lemma {:induction false} RunBalanced(env: Env, code: seq<Instr>, d: seq<Traps>, m: Machine, n: nat)
    requires Typed(code, d, 0, |code|) && Balanced(code, d, m)
    ensures Balanced(code, d, Steps(env, code, m, n))
    decreases n
  {
    if n > 0 {
      StepBalanced(env, code, d, m);
      RunBalanced(env, code, d, Step(env, code, m), n - 1);
    }
  }

  /** In every run of a compiled function, under every environment and after any number of steps,
      the frame's traps are the ones the position in the code calls for; a return leaves none. */
  lemma {:induction false} FunctionBalanced(env: Env, st: Stmt, n: nat)
    requires WellPlaced(st, false, false) && PopsFit(st, 0, 0, 0)
    ensures Balanced(FunctionCode(st), FunctionMap(st), Steps(env, FunctionCode(st), Entered(), n))
  {
    TypeFunction(st);
    RunBalanced(env, FunctionCode(st), FunctionMap(st), Entered(), n);
  }

  // ---------- Where the byte is too small ----------

  /** A `return` inside `n` try blocks. */
  function Nest(n: nat): Stmt { if n == 0 then Return(None) else TryCatch(Nest(n - 1), 0, Skip) }

  lemma {:induction false} NestFits(n: nat, nb: nat, nc: nat, nt: nat)
    ensures PopsFit(Nest(n), nb, nc, nt) <==> nt + n < 256
    decreases n
  {
    if n > 0 {
      var inner := Nest(n - 1);
      assert Nest(n) == TryCatch(inner, 0, Skip);
      hide Nest;
      NestFits(n - 1, nb + 1, nc + 1, nt + 1);
    }
  }

  lemma {:induction false} NestMeans(env: Env, n: nat, t: Trace, fuel: nat)
    ensures Exec(env, Nest(n), t, fuel) == Returned(t, None)
    decreases n
  {
    if n > 0 { NestMeans(env, n - 1, t, fuel); }
  }

  /** `n` traps are pushed on the way in and the remainder of their number by 256 is dropped. */
  lemma {:induction false} NestLeaves(f: Machine -> Machine, env: Env, code: seq<Instr>,
                                      n: nat, base: int, k: Ctx, ts: Traps, t: Trace)
    returns (m: nat)
    requires Drives(f, env, code) && Depth(ts) == k.nt && CodeAt(code, base, Code(Nest(n), base, k))
    ensures Iter(f, Running(base, ts, t), m) == Finished(t, None, k.nt + n - Byte(k.nt + n))
    decreases n
  {
    hide CodeAt, Code, Len;
    var start := Running(base, ts, t);
    if n == 0 {
      LayoutReturn(code, Nest(n), base, k, [], Ret(NO_VALUE, 0));
      m := SimulatePops(f, env, code, base, k.nt, ts, t);
      DepthPop(ts, Byte(k.nt));
    } else {
      LayoutTry(code, Nest(n), base, k);
      var handler := End(Nest(n - 1), base + 1, k.InTry()) + 2;
      m := NestLeaves(f, env, code, n - 1, base + 1, k.InTry(), Trap(handler, 0, ts), t);
      OneMore(f, env, code, start, 0);
      IterAdd(f, start, 1, m);
    }
    if n == 0 { OneMore(f, env, code, start, m); }
    m := m + 1;
  }

  lemma {:induction false} NestRuns(env: Env, n: nat) returns (m: nat)
    ensures Steps(env, FunctionCode(Nest(n)), Entered(), m) == Finished(Start, None, n - Byte(n))
  {
    hide Code, CodeAt, Len, Nest, Byte;
    var st, k := Nest(n), Ctx(None, None, 0, 0, 0);
    var code := FunctionCode(st);
    LayoutFunction(st);
    hide FunctionCode;
    var f := x => Step(env, code, x);
    m := NestLeaves(f, env, code, n, 0, k, Nil, Start);
    StepsIter(f, env, code, Entered(), m);
  }

  /** A `return` inside `n` try blocks leaves `n` less its remainder by 256 traps behind, so 256
      nested blocks leave them all; the run ends as the statement means exactly for `n < 256`. */
  lemma {:induction false} NestReturns(env: Env, n: nat, fuel: nat) returns (m: nat)
    ensures Steps(env, FunctionCode(Nest(n)), Entered(), m) == Finished(Start, None, n - Byte(n))
    ensures Exec(env, Nest(n), Start, fuel) == Returned(Start, None)
    ensures Steps(env, FunctionCode(Nest(n)), Entered(), m) == Final(Exec(env, Nest(n), Start, fuel))
       <==> PopsFit(Nest(n), 0, 0, 0)
  {
    hide FunctionCode, Steps, Nest, PopsFit, Exec;
    m := NestRuns(env, n);
    NestMeans(env, n, Start, fuel);
    NestFits(n, 0, 0, 0);
  }
}
