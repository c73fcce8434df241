/** Unresolved `break` and `continue` jumps of emitted code, and what patching them does. */
module Patching {
  import opened Wrappers
  import opened ControlFlow

  datatype Kind = BreakJump | ContinueJump

  function Aim(kind: Kind, k: Ctx, target: Option<int>): Ctx {
    match kind case BreakJump => k.(brk := target) case ContinueJump => k.(cont := target)
  }

  predicate Aimless(kind: Kind, k: Ctx) {
    match kind case BreakJump => k.brk.None? case ContinueJump => k.cont.None?
  }

  /** Positions of the jumps that leave the statement, in the order they are emitted. */
  function Holes(kind: Kind, st: Stmt, base: int, nb: nat, nc: nat, nt: nat): seq<int> {
    match st
    case Skip | Do(_) | While(_, _) | DoWhile(_, _) | ForEach(_, _, _) | Return(_) | Throw(_) => []
    case Seq(a, b) => Holes(kind, a, base, nb, nc, nt) + Holes(kind, b, base + Len(a, nb, nc, nt), nb, nc, nt)
    case If(c, a) => Holes(kind, a, base + |c.code| + 1, nb, nc, nt)
    case IfElse(c, a, b) =>
      var pos := base + |c.code| + 1;
      Holes(kind, a, pos, nb, nc, nt) + Holes(kind, b, pos + Len(a, nb, nc, nt) + 1, nb, nc, nt)
    case Switch(e, cs) => if kind.BreakJump? then [] else HolesCases(kind, cs, base + |e.code|, nc, nt)
    case Break => if kind.BreakJump? then [base + |Pops(nb)|] else []
    case Continue => if kind.ContinueJump? then [base + |Pops(nc)|] else []
    case TryCatch(a, _, h) =>
      Holes(kind, a, base + 1, nb + 1, nc + 1, nt + 1)
      + Holes(kind, h, base + 3 + Len(a, nb + 1, nc + 1, nt + 1), nb, nc, nt)
  }

  function HolesCases(kind: Kind, cs: Cases, base: int, nc: nat, nt: nat): seq<int> {
    match cs
    case Default(b) => Holes(kind, b, base, 0, nc, nt)
    case Case(l, b, rest) =>
      var clause := base + |l.code| + 2;
      Holes(kind, b, clause, 0, nc, nt)
      + HolesCases(kind, rest, clause + Len(b, 0, nc, nt) + |SkipTest(rest)|, nc, nt)
  }

  /** Aim the jumps at the given positions at `dest`. */
  function Fill(part: seq<Instr>, base: int, holes: seq<int>, dest: int): (r: seq<Instr>)
    ensures |r| == |part|
  {
    seq(|part|, i requires 0 <= i < |part| => if base + i in holes then Jmp(dest - (base + i) - 1) else part[i])
  }

  ghost predicate Within(holes: seq<int>, lo: int, hi: int) { forall p :: p in holes ==> lo <= p < hi }

  lemma {:induction false} FillAppend(a: seq<Instr>, b: seq<Instr>, base: int, ha: seq<int>, hb: seq<int>, dest: int)
    requires Within(ha, base, base + |a|) && Within(hb, base + |a|, base + |a| + |b|)
    ensures Fill(a + b, base, ha + hb, dest) == Fill(a, base, ha, dest) + Fill(b, base + |a|, hb, dest)
  {}

  lemma {:induction false} FillNone(a: seq<Instr>, base: int, dest: int)
    ensures Fill(a, base, [], dest) == a
  {}

  /** Only the middle part has holes. */
  lemma {:induction false} FillMiddle(pre: seq<Instr>, mid: seq<Instr>, post: seq<Instr>, base: int, holes: seq<int>,
                                      dest: int)
    requires Within(holes, base + |pre|, base + |pre| + |mid|)
    ensures Fill(pre + mid + post, base, holes, dest) == pre + Fill(mid, base + |pre|, holes, dest) + post
  {}

  // ---------- The holes of a statement lie inside its code ----------

  /** The jumps that leave a statement are among its own instructions. */
  ghost predicate Inside(kind: Kind, st: Stmt, base: int, nb: nat, nc: nat, nt: nat) {
    Within(Holes(kind, st, base, nb, nc, nt), base, base + Len(st, nb, nc, nt))
  }

  ghost predicate InsideCases(kind: Kind, cs: Cases, base: int, nc: nat, nt: nat) {
    Within(HolesCases(kind, cs, base, nc, nt), base, base + LenCases(cs, nc, nt))
  }

  lemma {:induction false} InsideSeq(kind: Kind, a: Stmt, b: Stmt, base: int, nb: nat, nc: nat, nt: nat)
    requires Inside(kind, a, base, nb, nc, nt) && Inside(kind, b, base + Len(a, nb, nc, nt), nb, nc, nt)
    ensures Inside(kind, Seq(a, b), base, nb, nc, nt)
  {}

  lemma {:induction false} InsideIf(kind: Kind, c: Expr, a: Stmt, base: int, nb: nat, nc: nat, nt: nat)
    requires Inside(kind, a, base + |c.code| + 1, nb, nc, nt)
    ensures Inside(kind, If(c, a), base, nb, nc, nt)
  {}

  lemma {:induction false} InsideIfElse(kind: Kind, c: Expr, a: Stmt, b: Stmt, base: int, nb: nat, nc: nat, nt: nat)
    requires var lo := base + |c.code| + 1;
             Inside(kind, a, lo, nb, nc, nt) && Inside(kind, b, lo + Len(a, nb, nc, nt) + 1, nb, nc, nt)
    ensures Inside(kind, IfElse(c, a, b), base, nb, nc, nt)
  {}

  lemma {:induction false} InsideTry(kind: Kind, a: Stmt, x: int, h: Stmt, base: int, nb: nat, nc: nat, nt: nat)
    requires Inside(kind, a, base + 1, nb + 1, nc + 1, nt + 1)
    requires Inside(kind, h, base + 3 + Len(a, nb + 1, nc + 1, nt + 1), nb, nc, nt)
    ensures Inside(kind, TryCatch(a, x, h), base, nb, nc, nt)
  {}

  lemma {:induction false} InsideSwitch(kind: Kind, e: Expr, cs: Cases, base: int, nb: nat, nc: nat, nt: nat)
    requires InsideCases(kind, cs, base + |e.code|, nc, nt)
    ensures Inside(kind, Switch(e, cs), base, nb, nc, nt)
  {}

  lemma {:induction false} InsideLeaf(kind: Kind, st: Stmt, base: int, nb: nat, nc: nat, nt: nat)
    requires !st.Seq? && !st.If? && !st.IfElse? && !st.Switch? && !st.TryCatch?
    ensures Inside(kind, st, base, nb, nc, nt)
  {}

  lemma {:induction false} HolesInside(kind: Kind, st: Stmt, base: int, nb: nat, nc: nat, nt: nat)
    ensures Inside(kind, st, base, nb, nc, nt)
    decreases st, 0
  {
    hide Inside, Within, Holes, HolesCases, Len, LenCases;
    match st
    case Seq(a, b) =>
      HolesInside(kind, a, base, nb, nc, nt);
      HolesInside(kind, b, base + Len(a, nb, nc, nt), nb, nc, nt);
      InsideSeq(kind, a, b, base, nb, nc, nt);
    case If(c, a) =>
      HolesInside(kind, a, base + |c.code| + 1, nb, nc, nt);
      InsideIf(kind, c, a, base, nb, nc, nt);
    case IfElse(c, a, b) =>
      HolesInside(kind, a, base + |c.code| + 1, nb, nc, nt);
      HolesInside(kind, b, base + |c.code| + 1 + Len(a, nb, nc, nt) + 1, nb, nc, nt);
      InsideIfElse(kind, c, a, b, base, nb, nc, nt);
    case Switch(e, cs) =>
      HolesCasesWithin(kind, cs, base + |e.code|, nc, nt);
      InsideSwitch(kind, e, cs, base, nb, nc, nt);
    case TryCatch(a, x, h) =>
      HolesInside(kind, a, base + 1, nb + 1, nc + 1, nt + 1);
      HolesInside(kind, h, base + 3 + Len(a, nb + 1, nc + 1, nt + 1), nb, nc, nt);
      InsideTry(kind, a, x, h, base, nb, nc, nt);
    case _ => InsideLeaf(kind, st, base, nb, nc, nt);
  }

  lemma {:induction false} HolesWithin(kind: Kind, st: Stmt, base: int, nb: nat, nc: nat, nt: nat)
    ensures Within(Holes(kind, st, base, nb, nc, nt), base, base + Len(st, nb, nc, nt))
    decreases st, 1
  {
    HolesInside(kind, st, base, nb, nc, nt);
  }

  lemma {:induction false} HolesCasesWithin(kind: Kind, cs: Cases, base: int, nc: nat, nt: nat)
    ensures Within(HolesCases(kind, cs, base, nc, nt), base, base + LenCases(cs, nc, nt))
    decreases cs, 0
  {
    match cs
    case Default(b) => HolesWithin(kind, b, base, 0, nc, nt);
    case Case(l, b, rest) =>
      var clause := base + |l.code| + 2;
      HolesWithin(kind, b, clause, 0, nc, nt);
      HolesCasesWithin(kind, rest, clause + Len(b, 0, nc, nt) + |SkipTest(rest)|, nc, nt);
  }

  // ---------- Patching the holes of a statement ----------

  ghost predicate Fills(kind: Kind, st: Stmt, base: int, k: Ctx, dest: int) {
    Fill(Code(st, base, k), base, Holes(kind, st, base, k.nb, k.nc, k.nt), dest)
        == Code(st, base, Aim(kind, k, Some(dest)))
  }

  ghost predicate FillsCases(kind: Kind, subject: int, cs: Cases, base: int, k: Ctx, dest: int)
    requires k.nb == 0
  {
    Fill(CodeCases(subject, cs, base, k), base, HolesCases(kind, cs, base, k.nc, k.nt), dest)
    == CodeCases(subject, cs, base, Aim(kind, k, Some(dest)))
  }

  /** Patching the holes of a statement gives the code that was aimed from the start. */
  lemma {:induction false} FillCode(kind: Kind, st: Stmt, base: int, k: Ctx, dest: int)
    requires Aimless(kind, k)
    ensures Fills(kind, st, base, k, dest)
    decreases st, 1
  {
    hide Fills, FillsCases, Code, CodeCases, Holes;
    match st
    case Seq(a, b) =>
      FillCode(kind, a, base, k, dest);
      FillCode(kind, b, base + Len(a, k.nb, k.nc, k.nt), k, dest);
      FillSeq(kind, a, b, base, k, dest);
    case If(c, a) =>
      FillCode(kind, a, base + |c.code| + 1, k, dest);
      FillIf(kind, c, a, base, k, dest);
    case IfElse(c, a, b) =>
      var pos := base + |c.code| + 1;
      FillCode(kind, a, pos, k, dest);
      FillCode(kind, b, pos + Len(a, k.nb, k.nc, k.nt) + 1, k, dest);
      FillIfElse(kind, c, a, b, base, k, dest);
    case Switch(e, cs) =>
      if kind.ContinueJump? {
        FillCases(kind, e.target, cs, base + |e.code|, k.InSwitch(base + Len(st, k.nb, k.nc, k.nt)), dest);
        FillSwitch(e, cs, base, k, dest);
      } else {
        FillLeaf(kind, st, base, k, dest);
      }
    case TryCatch(a, x, h) =>
      FillCode(kind, a, base + 1, k.InTry(), dest);
      FillCode(kind, h, base + 3 + Len(a, k.nb + 1, k.nc + 1, k.nt + 1), k, dest);
      FillTry(kind, a, x, h, base, k, dest);
    case Break => FillJump(kind, st, base, k, dest);
    case Continue => FillJump(kind, st, base, k, dest);
    case _ => FillLeaf(kind, st, base, k, dest);
  }

  /** Statements that let no jump of this kind out. */
  lemma {:induction false} FillLeaf(kind: Kind, st: Stmt, base: int, k: Ctx, dest: int)
    requires Aimless(kind, k)
    requires match st
             case Skip | Do(_) | While(_, _) | DoWhile(_, _) | ForEach(_, _, _) | Return(_) | Throw(_) => true
             case Switch(_, _) => kind.BreakJump?
             case _ => false
    ensures Fills(kind, st, base, k, dest)
  {
    FillNone(Code(st, base, k), base, dest);
    AimSameCode(kind, st, base, k, Some(dest));
  }

  lemma {:induction false} AimSameCode(kind: Kind, st: Stmt, base: int, k: Ctx, dest: Option<int>)
    requires match st
             case Skip | Do(_) | While(_, _) | DoWhile(_, _) | ForEach(_, _, _) | Return(_) | Throw(_) => true
             case Switch(_, _) => kind.BreakJump?
             case _ => false
    ensures Code(st, base, Aim(kind, k, dest)) == Code(st, base, k)
  {
    hide Holes, HolesCases, Len, LenCases, CodeCases, PrimCode, Pops, JumpTo;
    var k' := Aim(kind, k, dest);
    assert forall b, c :: k.InLoop(b, c) == k'.InLoop(b, c);
    assert kind.BreakJump? ==> forall b :: k.InSwitch(b) == k'.InSwitch(b);
  }

  /** `break` and `continue` themselves. */
  lemma {:induction false} FillJump(kind: Kind, st: Stmt, base: int, k: Ctx, dest: int)
    requires Aimless(kind, k) && (st.Break? || st.Continue?)
    ensures Fills(kind, st, base, k, dest)
  {
    var n, target := if st.Break? then k.nb else k.nc, if st.Break? then k.brk else k.cont;
    var c := Pops(n) + [JumpTo(base + |Pops(n)|, target)];
    assert Code(st, base, k) == c;
    if (st.Break? && kind.BreakJump?) || (st.Continue? && kind.ContinueJump?) {
      assert Fill(c, base, [base + |Pops(n)|], dest) == Pops(n) + [JumpTo(base + |Pops(n)|, Some(dest))];
    } else {
      FillNone(c, base, dest);
    }
  }

  lemma {:induction false} FillCases(kind: Kind, subject: int, cs: Cases, base: int, k: Ctx, dest: int)
    requires Aimless(kind, k) && k.nb == 0
    ensures FillsCases(kind, subject, cs, base, k, dest)
    decreases cs, 1
  {
    match cs
    case Default(b) => FillCode(kind, b, base, k, dest);
    case Case(l, b, rest) =>
      var clause := base + |l.code| + 2;
      FillCode(kind, b, clause, k, dest);
      FillCases(kind, subject, rest, clause + Len(b, 0, k.nc, k.nt) + |SkipTest(rest)|, k, dest);
      FillCase(kind, subject, l, b, rest, base, k, dest);
  }

  lemma {:induction false} FillTwo(p: seq<Instr>, a: seq<Instr>, q: seq<Instr>, b: seq<Instr>, base: int, ha: seq<int>,
                                   hb: seq<int>, dest: int)
    requires Within(ha, base + |p|, base + |p| + |a|)
    requires Within(hb, base + |p| + |a| + |q|, base + |p| + |a| + |q| + |b|)
    ensures Fill(p + a + q + b, base, ha + hb, dest)
         == p + Fill(a, base + |p|, ha, dest) + q + Fill(b, base + |p| + |a| + |q|, hb, dest)
  {
    FillAppend(p + a + q, b, base, ha, hb, dest);
    FillMiddle(p, a, q, base, ha, dest);
  }

  lemma {:induction false} SeqShape(kind: Kind, a: Stmt, b: Stmt, base: int, k: Ctx)
    ensures var pos := base + Len(a, k.nb, k.nc, k.nt);
            && Code(Seq(a, b), base, k) == Code(a, base, k) + Code(b, pos, k)
            && Holes(kind, Seq(a, b), base, k.nb, k.nc, k.nt)
               == Holes(kind, a, base, k.nb, k.nc, k.nt) + Holes(kind, b, pos, k.nb, k.nc, k.nt)
  {
    hide Code, CodeCases;
    SeqCode(a, b, base, k);
  }

  lemma {:induction false} SeqCode(a: Stmt, b: Stmt, base: int, k: Ctx)
    ensures Code(Seq(a, b), base, k) == Code(a, base, k) + Code(b, base + Len(a, k.nb, k.nc, k.nt), k)
  {
    hide Holes, HolesCases, Len, LenCases, CodeCases, PrimCode, Pops, JumpTo;
    LenOf(a, base, k);
  }

  lemma {:induction false} LenOf(a: Stmt, base: int, k: Ctx)
    ensures |Code(a, base, k)| == Len(a, k.nb, k.nc, k.nt)
  {}

  lemma {:induction false} FillSeq(kind: Kind, a: Stmt, b: Stmt, base: int, k: Ctx, dest: int)
    requires Aimless(kind, k) && Fills(kind, a, base, k, dest)
             && Fills(kind, b, base + Len(a, k.nb, k.nc, k.nt), k, dest)
    ensures Fills(kind, Seq(a, b), base, k, dest)
  {
    SeqShape(kind, a, b, base, k);
    SeqShape(kind, a, b, base, Aim(kind, k, Some(dest)));
    hide Code, Holes, Len;
    var ca := Code(a, base, k);
    var pos := base + |ca|;
    var ha, hb := Holes(kind, a, base, k.nb, k.nc, k.nt), Holes(kind, b, pos, k.nb, k.nc, k.nt);
    HolesWithin(kind, a, base, k.nb, k.nc, k.nt);
    HolesWithin(kind, b, pos, k.nb, k.nc, k.nt);
    FillAppend(ca, Code(b, pos, k), base, ha, hb, dest);
  }

  lemma {:induction false} FillIf(kind: Kind, c: Expr, a: Stmt, base: int, k: Ctx, dest: int)
    requires Aimless(kind, k) && Fills(kind, a, base + |c.code| + 1, k, dest)
    ensures Fills(kind, If(c, a), base, k, dest)
  {
    var pos := base + |c.code| + 1;
    var ca := Code(a, pos, k);
    HolesWithin(kind, a, pos, k.nb, k.nc, k.nt);
    var head := PrimCode(c.code) + [Jz(c.target, |ca|)];
    FillMiddle(head, ca, [], base, Holes(kind, a, pos, k.nb, k.nc, k.nt), dest);
    assert head + ca + [] == head + ca;
  }

  lemma {:induction false} IfElseShape(kind: Kind, c: Expr, a: Stmt, b: Stmt, base: int, k: Ctx)
    ensures var pos := base + |c.code| + 1;
            var pos' := pos + Len(a, k.nb, k.nc, k.nt) + 1;
            var ca, cb := Code(a, pos, k), Code(b, pos', k);
            && Code(IfElse(c, a, b), base, k) == PrimCode(c.code) + [Jz(c.target, |ca| + 1)] + ca + [Jmp(|cb|)] + cb
            && Holes(kind, IfElse(c, a, b), base, k.nb, k.nc, k.nt)
               == Holes(kind, a, pos, k.nb, k.nc, k.nt) + Holes(kind, b, pos', k.nb, k.nc, k.nt)
  {
    hide Code, CodeCases, Holes, HolesCases;
    IfElseCode(c, a, b, base, k);
    IfElseHoles(kind, c, a, b, base, k);
  }

  lemma {:induction false} IfElseCode(c: Expr, a: Stmt, b: Stmt, base: int, k: Ctx)
    ensures var pos := base + |c.code| + 1;
            var pos' := pos + Len(a, k.nb, k.nc, k.nt) + 1;
            var ca, cb := Code(a, pos, k), Code(b, pos', k);
            Code(IfElse(c, a, b), base, k) == PrimCode(c.code) + [Jz(c.target, |ca| + 1)] + ca + [Jmp(|cb|)] + cb
  {
    hide Holes, HolesCases, Len, LenCases, CodeCases, PrimCode, Pops, JumpTo;
    LenOf(a, base + |c.code| + 1, k);
  }

  lemma {:induction false} IfElseHoles(kind: Kind, c: Expr, a: Stmt, b: Stmt, base: int, k: Ctx)
    ensures var pos := base + |c.code| + 1;
            var pos' := pos + Len(a, k.nb, k.nc, k.nt) + 1;
            Holes(kind, IfElse(c, a, b), base, k.nb, k.nc, k.nt)
            == Holes(kind, a, pos, k.nb, k.nc, k.nt) + Holes(kind, b, pos', k.nb, k.nc, k.nt)
  {
    hide Code, CodeCases;
  }

  lemma {:induction false} FillIfElse(kind: Kind, c: Expr, a: Stmt, b: Stmt, base: int, k: Ctx, dest: int)
    requires Aimless(kind, k) && Fills(kind, a, base + |c.code| + 1, k, dest)
    requires Fills(kind, b, base + |c.code| + 1 + Len(a, k.nb, k.nc, k.nt) + 1, k, dest)
    ensures Fills(kind, IfElse(c, a, b), base, k, dest)
  {
    IfElseShape(kind, c, a, b, base, k);
    IfElseShape(kind, c, a, b, base, Aim(kind, k, Some(dest)));
    hide Code, Holes, Len;
    var pos := base + |c.code| + 1;
    var ca := Code(a, pos, k);
    var pos' := pos + |ca| + 1;
    var cb := Code(b, pos', k);
    HolesWithin(kind, a, pos, k.nb, k.nc, k.nt);
    HolesWithin(kind, b, pos', k.nb, k.nc, k.nt);
    FillTwo(PrimCode(c.code) + [Jz(c.target, |ca| + 1)], ca, [Jmp(|cb|)], cb, base,
            Holes(kind, a, pos, k.nb, k.nc, k.nt), Holes(kind, b, pos', k.nb, k.nc, k.nt), dest);
  }

  lemma {:induction false} FillSwitch(e: Expr, cs: Cases, base: int, k: Ctx, dest: int)
    requires k.cont.None?
    requires FillsCases(ContinueJump, e.target, cs, base + |e.code|,
                        k.InSwitch(base + Len(Switch(e, cs), k.nb, k.nc, k.nt)), dest)
    ensures Fills(ContinueJump, Switch(e, cs), base, k, dest)
  {
    var pos := base + |e.code|;
    var body := CodeCases(e.target, cs, pos, k.InSwitch(base + Len(Switch(e, cs), k.nb, k.nc, k.nt)));
    HolesCasesWithin(ContinueJump, cs, pos, k.nc, k.nt);
    FillMiddle(PrimCode(e.code), body, [], base, HolesCases(ContinueJump, cs, pos, k.nc, k.nt), dest);
    assert PrimCode(e.code) + body + [] == Code(Switch(e, cs), base, k);
  }

  lemma {:induction false} TryShape(kind: Kind, a: Stmt, x: int, h: Stmt, base: int, k: Ctx)
    ensures var pos := base + 3 + Len(a, k.nb + 1, k.nc + 1, k.nt + 1);
            var ca, ch := Code(a, base + 1, k.InTry()), Code(h, pos, k);
            && Code(TryCatch(a, x, h), base, k) == [PushTrap(x, |ca| + 2)] + ca + [PopTrap(1), Jmp(|ch|)] + ch
            && Holes(kind, TryCatch(a, x, h), base, k.nb, k.nc, k.nt)
               == Holes(kind, a, base + 1, k.nb + 1, k.nc + 1, k.nt + 1) + Holes(kind, h, pos, k.nb, k.nc, k.nt)
  {
    hide Code, CodeCases;
    TryCode(a, x, h, base, k);
  }

  lemma {:induction false} TryCode(a: Stmt, x: int, h: Stmt, base: int, k: Ctx)
    ensures var ca := Code(a, base + 1, k.InTry());
            var ch := Code(h, base + 3 + Len(a, k.nb + 1, k.nc + 1, k.nt + 1), k);
            Code(TryCatch(a, x, h), base, k) == [PushTrap(x, |ca| + 2)] + ca + [PopTrap(1), Jmp(|ch|)] + ch
  {
    hide Holes, HolesCases, Len, LenCases, CodeCases, PrimCode, Pops, JumpTo;
    LenOf(a, base + 1, k.InTry());
  }

  lemma {:induction false} FillTry(kind: Kind, a: Stmt, x: int, h: Stmt, base: int, k: Ctx, dest: int)
    requires Aimless(kind, k) && Fills(kind, a, base + 1, k.InTry(), dest)
    requires Fills(kind, h, base + 3 + Len(a, k.nb + 1, k.nc + 1, k.nt + 1), k, dest)
    ensures Fills(kind, TryCatch(a, x, h), base, k, dest)
  {
    TryShape(kind, a, x, h, base, k);
    TryShape(kind, a, x, h, base, Aim(kind, k, Some(dest)));
    hide Code, Holes, Len;
    var ca := Code(a, base + 1, k.InTry());
    var pos := base + 3 + |ca|;
    var ch := Code(h, pos, k);
    HolesWithin(kind, a, base + 1, k.nb + 1, k.nc + 1, k.nt + 1);
    HolesWithin(kind, h, pos, k.nb, k.nc, k.nt);
    FillTwo([PushTrap(x, |ca| + 2)], ca, [PopTrap(1), Jmp(|ch|)], ch, base,
            Holes(kind, a, base + 1, k.nb + 1, k.nc + 1, k.nt + 1), Holes(kind, h, pos, k.nb, k.nc, k.nt), dest);
  }

  lemma {:induction false} CaseShape(kind: Kind, subject: int, l: Expr, b: Stmt, rest: Cases, base: int, k: Ctx)
    requires k.nb == 0
    ensures var clause := base + |l.code| + 2;
            var cb, skip := Code(b, clause, k), SkipTest(rest);
            var next := clause + |cb| + |skip|;
            && CodeCases(subject, Case(l, b, rest), base, k)
               == PrimCode(LabelCode(l, subject)) + [Jz(l.target, |cb| + |skip|)] + cb + skip
                  + CodeCases(subject, rest, next, k)
            && HolesCases(kind, Case(l, b, rest), base, k.nc, k.nt)
               == Holes(kind, b, clause, 0, k.nc, k.nt) + HolesCases(kind, rest, next, k.nc, k.nt)
  {
    hide Code, CodeCases;
    CaseCode(subject, l, b, rest, base, k);
  }

  lemma {:induction false} CaseCode(subject: int, l: Expr, b: Stmt, rest: Cases, base: int, k: Ctx)
    requires k.nb == 0
    ensures var clause := base + |l.code| + 2;
            var cb, skip := Code(b, clause, k), SkipTest(rest);
            CodeCases(subject, Case(l, b, rest), base, k)
            == PrimCode(LabelCode(l, subject)) + [Jz(l.target, |cb| + |skip|)] + cb + skip
               + CodeCases(subject, rest, clause + |cb| + |skip|, k)
  {
    hide Holes, HolesCases, Len, LenCases;
  }

  lemma {:induction false} FillCase(kind: Kind, subject: int, l: Expr, b: Stmt, rest: Cases, base: int, k: Ctx,
                                    dest: int)
    requires Aimless(kind, k) && k.nb == 0 && Fills(kind, b, base + |l.code| + 2, k, dest)
    requires FillsCases(kind, subject, rest, base + |l.code| + 2 + Len(b, 0, k.nc, k.nt) + |SkipTest(rest)|, k, dest)
    ensures FillsCases(kind, subject, Case(l, b, rest), base, k, dest)
  {
    hide Code, CodeCases, Holes, HolesCases, Len, LenCases, SkipTest, PrimCode, Fill;
    var clause := base + |l.code| + 2;
    var cb, skip := Code(b, clause, k), SkipTest(rest);
    var next := clause + |cb| + |skip|;
    var k' := Aim(kind, k, Some(dest));
    var p := PrimCode(LabelCode(l, subject)) + [Jz(l.target, |cb| + |skip|)];
    var hb, hr := Holes(kind, b, clause, 0, k.nc, k.nt), HolesCases(kind, rest, next, k.nc, k.nt);
    CaseShape(kind, subject, l, b, rest, base, k);
    CaseShape(kind, subject, l, b, rest, base, k');
    HolesWithin(kind, b, clause, 0, k.nc, k.nt);
    HolesCasesWithin(kind, rest, next, k.nc, k.nt);
    assert |p| == |l.code| + 2;
    FillTwo(p, cb, skip, CodeCases(subject, rest, next, k), base, hb, hr, dest);
    assert Fill(cb, clause, hb, dest) == Code(b, clause, k');
    assert Fill(CodeCases(subject, rest, next, k), next, hr, dest) == CodeCases(subject, rest, next, k');
  }

  /** Resolving the jumps of a loop body: `continue` goes to `c`, `break` goes to `e`. */
  lemma {:induction false} FillLoop(pre: seq<Instr>, a: Stmt, post: seq<Instr>, k: Ctx, c: int, e: int)
    ensures var base, k0 := |pre|, Ctx(None, None, 0, 0, k.nt);
            var filled := Fill(pre + Code(a, base, k0) + post, 0, Holes(ContinueJump, a, base, 0, 0, k.nt), c);
            Fill(filled, 0, Holes(BreakJump, a, base, 0, 0, k.nt), e) == pre + Code(a, base, k.InLoop(e, c)) + post
  {
    hide Code, Holes, Len, Fill;
    var base, k0 := |pre|, Ctx(None, None, 0, 0, k.nt);
    var k1 := Ctx(None, Some(c), 0, 0, k.nt);
    HolesWithin(ContinueJump, a, base, 0, 0, k.nt);
    HolesWithin(BreakJump, a, base, 0, 0, k.nt);
    FillMiddle(pre, Code(a, base, k0), post, 0, Holes(ContinueJump, a, base, 0, 0, k.nt), c);
    FillCode(ContinueJump, a, base, k0, c);
    FillMiddle(pre, Code(a, base, k1), post, 0, Holes(BreakJump, a, base, 0, 0, k.nt), e);
    FillCode(BreakJump, a, base, k1, e);
  }

  // ---------- The code of each kind of statement, spelled out ----------

  lemma {:induction false} IfShape(kind: Kind, c: Expr, a: Stmt, base: int, k: Ctx)
    ensures var pos := base + |c.code| + 1;
            && Code(If(c, a), base, k) == PrimCode(c.code) + [Jz(c.target, |Code(a, pos, k)|)] + Code(a, pos, k)
            && Holes(kind, If(c, a), base, k.nb, k.nc, k.nt) == Holes(kind, a, pos, k.nb, k.nc, k.nt)
  {}

  lemma {:induction false} LoopHoles(kind: Kind, st: Stmt, base: int, nb: nat, nc: nat, nt: nat)
    requires st.While? || st.DoWhile? || st.ForEach?
    ensures Holes(kind, st, base, nb, nc, nt) == []
  {}

  lemma {:induction false} WhileShape(kind: Kind, c: Expr, a: Stmt, base: int, k: Ctx)
    ensures var n := Len(a, 0, 0, k.nt);
            && Code(While(c, a), base, k) == PrimCode(c.code) + [Jz(c.target, n + 1)]
                 + Code(a, base + |c.code| + 1, k.InLoop(base + |c.code| + n + 2, base))
                 + [Jmp(-(|c.code| + n + 2))]
            && Holes(kind, While(c, a), base, k.nb, k.nc, k.nt) == []
  {
    hide Holes, HolesCases, Len, LenCases, CodeCases, PrimCode, Pops, JumpTo;
    LoopHoles(kind, While(c, a), base, k.nb, k.nc, k.nt);
  }

  lemma {:induction false} DoWhileShape(kind: Kind, a: Stmt, c: Expr, base: int, k: Ctx)
    ensures var n := Len(a, 0, 0, k.nt);
            && Code(DoWhile(a, c), base, k) == Code(a, base, k.InLoop(base + n + |c.code| + 2, base + n))
                 + PrimCode(c.code) + [Jz(c.target, 1), Jmp(-(n + |c.code| + 2))]
            && Holes(kind, DoWhile(a, c), base, k.nb, k.nc, k.nt) == []
  {
    hide Holes, HolesCases, Len, LenCases, CodeCases, PrimCode, Pops, JumpTo;
    LoopHoles(kind, DoWhile(a, c), base, k.nb, k.nc, k.nt);
  }

  lemma {:induction false} ForEachCode(c: Expr, idx: int, a: Stmt, base: int, k: Ctx)
    ensures var head, n := base + |c.code| + 3, Len(a, 0, 0, k.nt);
            Code(ForEach(c, idx, a), base, k) == PrimCode(c.code + ForEachInit(idx))
              + [ForEachNext(c.target, n + 2, idx), PostForEach(c.target, n + 2, idx)]
              + Code(a, head + 2, k.InLoop(head + n + 3, head)) + [Jmp(-(n + 3))]
  {
    hide Holes, HolesCases, Len, LenCases, CodeCases, PrimCode, Pops, JumpTo;
  }

  lemma {:induction false} ForEachShape(kind: Kind, c: Expr, idx: int, a: Stmt, base: int, k: Ctx)
    ensures var head, n := base + |c.code| + 3, Len(a, 0, 0, k.nt);
            && Code(ForEach(c, idx, a), base, k) == PrimCode(c.code + ForEachInit(idx))
                 + [ForEachNext(c.target, n + 2, idx), PostForEach(c.target, n + 2, idx)]
                 + Code(a, head + 2, k.InLoop(head + n + 3, head)) + [Jmp(-(n + 3))]
            && Holes(kind, ForEach(c, idx, a), base, k.nb, k.nc, k.nt) == []
  {
    hide Code, CodeCases;
    ForEachCode(c, idx, a, base, k);
  }

  lemma {:induction false} SwitchShape(kind: Kind, e: Expr, cs: Cases, base: int, k: Ctx)
    ensures var pos := base + |e.code|;
            && Code(Switch(e, cs), base, k)
               == PrimCode(e.code) + CodeCases(e.target, cs, pos, k.InSwitch(pos + LenCases(cs, k.nc, k.nt)))
            && Holes(kind, Switch(e, cs), base, k.nb, k.nc, k.nt)
               == if kind.BreakJump? then [] else HolesCases(kind, cs, pos, k.nc, k.nt)
  {
    hide Code, CodeCases;
    SwitchCode(e, cs, base, k);
  }

  lemma {:induction false} SwitchCode(e: Expr, cs: Cases, base: int, k: Ctx)
    ensures var pos := base + |e.code|;
            Code(Switch(e, cs), base, k)
            == PrimCode(e.code) + CodeCases(e.target, cs, pos, k.InSwitch(pos + LenCases(cs, k.nc, k.nt)))
  {
    hide Holes, HolesCases;
  }

  lemma {:induction false} DefaultShape(kind: Kind, subject: int, cs: Cases, base: int, k: Ctx)
    requires cs.Default? && k.nb == 0
    ensures CodeCases(subject, cs, base, k) == Code(cs.body, base, k)
    ensures HolesCases(kind, cs, base, k.nc, k.nt) == Holes(kind, cs.body, base, 0, k.nc, k.nt)
  {}

  /** Resolving the `break`s of a `switch`. */
  lemma {:induction false} FillSwitchBreaks(pre: seq<Instr>, e: Expr, cs: Cases, k: Ctx)
    ensures var k1, head := Ctx(None, k.cont, 0, k.nc, k.nt), pre + PrimCode(e.code);
            var code := head + CodeCases(e.target, cs, |head|, k1);
            Fill(code, 0, HolesCases(BreakJump, cs, |head|, k.nc, k.nt), |code|) == pre + Code(Switch(e, cs), |pre|, k)
  {
    hide Code, CodeCases, Holes, HolesCases, LenCases, Fill, PrimCode;
    var k1, head := Ctx(None, k.cont, 0, k.nc, k.nt), pre + PrimCode(e.code);
    var cc, holes := CodeCases(e.target, cs, |head|, k1), HolesCases(BreakJump, cs, |head|, k.nc, k.nt);
    HolesCasesWithin(BreakJump, cs, |head|, k.nc, k.nt);
    assert head + cc + [] == head + cc;
    FillMiddle(head, cc, [], 0, holes, |head + cc|);
    FillCases(BreakJump, e.target, cs, |head|, k1, |head + cc|);
    SwitchShape(BreakJump, e, cs, |pre|, k);
    assert Fill(head + cc, 0, holes, |head + cc|) == head + CodeCases(e.target, cs, |head|, k.InSwitch(|head + cc|));
  }
}
