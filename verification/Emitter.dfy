/** The compiler's code generator: it appends instructions, and patches jumps when their
    targets become known. */
module Emitter {
  import opened Wrappers
  import opened ControlFlow
  import opened Patching

  /** Overwrite an instruction's jump offset. */
  function WithOffset(i: Instr, off: int): Instr {
    match i
    case Jmp(_) => Jmp(off)
    case Jz(r, _) => Jz(r, off)
    case PushTrap(x, _) => PushTrap(x, off)
    case ForEachNext(c, _, idx) => ForEachNext(c, off, idx)
    case PostForEach(c, _, idx) => PostForEach(c, off, idx)
    case _ => i
  }

  class FuncState {
    var instructions: seq<Instr>
    var traps: nat
    var breakTargets: seq<int>
    var continueTargets: seq<int>
    var unresolvedBreaks: seq<int>
    var unresolvedContinues: seq<int>

    constructor ()
      ensures instructions == [] && traps == 0 && breakTargets == [] && continueTargets == []
      ensures unresolvedBreaks == [] && unresolvedContinues == []
    {
      instructions, traps, breakTargets, continueTargets := [], 0, [], [];
      unresolvedBreaks, unresolvedContinues := [], [];
    }

    /** `k` counts the traps between here and the enclosing blocks, as the fields do. */
    ghost predicate InContext(k: Ctx)
      reads this
    {
      && k.brk.None? && k.cont.None? && k.nt == traps
      && (breakTargets != [] ==> k.nb == breakTargets[|breakTargets| - 1])
      && (continueTargets != [] ==> k.nc == continueTargets[|continueTargets| - 1])
    }

    /** The state has grown by the code of `st`, its jumps out still unresolved. */
    twostate predicate Emitted(st: Stmt, k: Ctx)
      reads this
    {
      var base := |old(instructions)|;
      && instructions == old(instructions) + Code(st, base, k)
      && unresolvedBreaks == old(unresolvedBreaks) + Holes(BreakJump, st, base, k.nb, k.nc, k.nt)
      && unresolvedContinues == old(unresolvedContinues) + Holes(ContinueJump, st, base, k.nb, k.nc, k.nt)
      && SameBlocks()
    }

    twostate predicate SameBlocks()
      reads this
    {
      traps == old(traps) && breakTargets == old(breakTargets) && continueTargets == old(continueTargets)
    }

    method AddInstruction(i: Instr)
      modifies this`instructions
      ensures instructions == old(instructions) + [i]
    {
      instructions := instructions + [i];
    }

    /** The code of an expression. */
    method AddAll(ps: seq<Prim>)
      modifies this`instructions
      ensures instructions == old(instructions) + PrimCode(ps)
    {
      for n := 0 to |ps|
        invariant instructions == old(instructions) + PrimCode(ps[..n])
      {
        AddInstruction(Run(ps[n]));
        assert PrimCode(ps[..n + 1]) == PrimCode(ps[..n]) + [Run(ps[n])];
      }
      assert ps[..|ps|] == ps;
    }

    function CurrentPos(): int
      reads this
    {
      |instructions| - 1
    }

    method SetOffset(pos: int, off: int)
      requires 0 <= pos < |instructions|
      modifies this`instructions
      ensures instructions == old(instructions)[pos := WithOffset(old(instructions)[pos], off)]
    {
      instructions := instructions[pos := WithOffset(instructions[pos], off)];
    }

    method ResolveBreaks(count: nat)
      requires count <= |unresolvedBreaks|
      requires Within(unresolvedBreaks[|unresolvedBreaks| - count..], 0, |instructions|)
      modifies this`instructions, this`unresolvedBreaks
      ensures var keep := |old(unresolvedBreaks)| - count;
              && unresolvedBreaks == old(unresolvedBreaks)[..keep]
              && instructions == Fill(old(instructions), 0, old(unresolvedBreaks)[keep..], |instructions|)
    {
      ghost var holes, code := unresolvedBreaks, instructions;
      var ntoresolve := count;
      FillNone(code, 0, |code|);
      while ntoresolve > 0
        invariant 0 <= ntoresolve <= count
        invariant unresolvedBreaks == holes[..|holes| - count + ntoresolve]
        invariant instructions == Fill(code, 0, holes[|unresolvedBreaks|..], |code|)
      {
        var pos := unresolvedBreaks[|unresolvedBreaks| - 1];
        unresolvedBreaks := unresolvedBreaks[..|unresolvedBreaks| - 1];
        assert pos in holes[|holes| - count..];
        assert holes[|unresolvedBreaks|..] == [pos] + holes[|unresolvedBreaks| + 1..];
        instructions := instructions[pos := Jmp(CurrentPos() - pos)];
        ntoresolve := ntoresolve - 1;
      }
    }

    method ResolveContinues(count: nat, targetpos: int)
      requires count <= |unresolvedContinues|
      requires Within(unresolvedContinues[|unresolvedContinues| - count..], 0, |instructions|)
      modifies this`instructions, this`unresolvedContinues
      ensures var keep := |old(unresolvedContinues)| - count;
              && unresolvedContinues == old(unresolvedContinues)[..keep]
              && instructions == Fill(old(instructions), 0, old(unresolvedContinues)[keep..], targetpos + 1)
    {
      ghost var holes, code := unresolvedContinues, instructions;
      var ntoresolve := count;
      FillNone(code, 0, targetpos + 1);
      while ntoresolve > 0
        invariant 0 <= ntoresolve <= count
        invariant unresolvedContinues == holes[..|holes| - count + ntoresolve]
        invariant instructions == Fill(code, 0, holes[|unresolvedContinues|..], targetpos + 1)
      {
        var pos := unresolvedContinues[|unresolvedContinues| - 1];
        unresolvedContinues := unresolvedContinues[..|unresolvedContinues| - 1];
        assert pos in holes[|holes| - count..];
        assert holes[|unresolvedContinues|..] == [pos] + holes[|unresolvedContinues| + 1..];
        instructions := instructions[pos := Jmp(targetpos - pos)];
        ntoresolve := ntoresolve - 1;
      }
    }

    /** BEGIN_BREAKBLE_BLOCK */
    method BeginLoop() returns (nbreaks: nat, ncontinues: nat)
      modifies this`breakTargets, this`continueTargets
      ensures breakTargets == old(breakTargets) + [0] && continueTargets == old(continueTargets) + [0]
      ensures nbreaks == |unresolvedBreaks| && ncontinues == |unresolvedContinues|
    {
      nbreaks, ncontinues := |unresolvedBreaks|, |unresolvedContinues|;
      breakTargets, continueTargets := breakTargets + [0], continueTargets + [0];
    }

    /** END_BREAKBLE_BLOCK */
    method EndLoop(nbreaks: nat, ncontinues: nat, continueTarget: int)
      requires breakTargets != [] && continueTargets != []
      requires nbreaks <= |unresolvedBreaks| && ncontinues <= |unresolvedContinues|
      requires Within(unresolvedBreaks[nbreaks..], 0, |instructions|)
      requires Within(unresolvedContinues[ncontinues..], 0, |instructions|)
      modifies this
      ensures var filled := Fill(old(instructions), 0, old(unresolvedContinues)[ncontinues..], continueTarget + 1);
              instructions == Fill(filled, 0, old(unresolvedBreaks)[nbreaks..], |old(instructions)|)
      ensures unresolvedBreaks == old(unresolvedBreaks)[..nbreaks]
              && unresolvedContinues == old(unresolvedContinues)[..ncontinues]
      ensures traps == old(traps)
      ensures breakTargets == old(breakTargets)[..|old(breakTargets)| - 1]
      ensures continueTargets == old(continueTargets)[..|old(continueTargets)| - 1]
    {
      if |unresolvedContinues| > ncontinues {
        ResolveContinues(|unresolvedContinues| - ncontinues, continueTarget);
      } else {
        FillNone(instructions, 0, continueTarget + 1);
      }
      if |unresolvedBreaks| > nbreaks {
        ResolveBreaks(|unresolvedBreaks| - nbreaks);
      } else {
        FillNone(instructions, 0, |instructions|);
      }
      breakTargets, continueTargets := breakTargets[..|breakTargets| - 1], continueTargets[..|continueTargets| - 1];
    }

    /** Compile a statement; `ok` is false when a `break` or `continue` is misplaced. */
    method Statement(st: Stmt, ghost k: Ctx) returns (ok: bool)
      requires InContext(k)
      modifies this
      ensures ok == WellPlaced(st, old(breakTargets) != [], old(continueTargets) != [])
      ensures ok ==> Emitted(st, k)
      decreases st, 1
    {
      ok := true;
      match st
      case Skip =>
      case Do(ps) => AddAll(ps);
      case Seq(_, _) => ok := Statements(st, k);
      case If(_, _) => ok := IfStatement(st, k);
      case IfElse(_, _, _) => ok := IfStatement(st, k);
      case While(_, _) => ok := WhileStatement(st, k);
      case DoWhile(_, _) => ok := DoWhileStatement(st, k);
      case ForEach(_, _, _) => ok := ForEachStatement(st, k);
      case Switch(_, _) => ok := SwitchStatement(st, k);
      case Break => ok := BreakStatement(k);
      case Continue => ok := ContinueStatement(k);
      case Return(_) => ReturnStatement(st, k);
      case Throw(e) =>
        AddAll(e.code);
        AddInstruction(Raise(e.target));
      case TryCatch(_, _, _) => ok := TryCatchStatement(st, k);
    }

    method Statements(st: Stmt, ghost k: Ctx) returns (ok: bool)
      requires st.Seq? && InContext(k)
      modifies this
      ensures ok == WellPlaced(st, old(breakTargets) != [], old(continueTargets) != [])
      ensures ok ==> Emitted(st, k)
      decreases st, 0
    {
      hide Code, Holes, Len;
      var Seq(a, b) := st;
      ghost var base := |instructions|;
      SeqShape(BreakJump, a, b, base, k);
      SeqShape(ContinueJump, a, b, base, k);
      ok := Statement(a, k);
      if !ok { return; }
      ok := Statement(b, k);
    }

    method IfStatement(st: Stmt, ghost k: Ctx) returns (ok: bool)
      requires (st.If? || st.IfElse?) && InContext(k)
      modifies this
      ensures ok == WellPlaced(st, old(breakTargets) != [], old(continueTargets) != [])
      ensures ok ==> Emitted(st, k)
      decreases st, 0
    {
      hide Code, Holes, Len, PrimCode;
      ghost var pre, c, base := instructions, st.cond, |instructions|;
      AddAll(st.cond.code);
      AddInstruction(Jz(st.cond.target, 0));
      var jnepos := CurrentPos();
      ok := Statement(st.thn, k);
      if !ok { return; }
      var endifblock := CurrentPos();
      var haselse := st.IfElse?;
      ghost var ca, tail := Code(st.thn, base + |c.code| + 1, k), [];
      if haselse {
        ok := ElsePart(st.els, k);
        if !ok { return; }
        ghost var cb := Code(st.els, base + |c.code| + 1 + |ca| + 1, k);
        tail := [Jmp(|cb|)] + cb;
        IfElseShape(BreakJump, c, st.thn, st.els, base, k);
        IfElseShape(ContinueJump, c, st.thn, st.els, base, k);
        Regroup(PrimCode(c.code) + [Jz(c.target, |ca| + 1)] + ca, [Jmp(|cb|)], cb);
      } else {
        IfShape(BreakJump, c, st.thn, base, k);
        IfShape(ContinueJump, c, st.thn, base, k);
      }
      assert instructions == pre + PrimCode(c.code) + [Jz(c.target, 0)] + ca + tail;
      Repatch(pre, PrimCode(c.code), Jz(c.target, 0), ca, tail, |ca| + if haselse then 1 else 0);
      SetOffset(jnepos, endifblock - jnepos + (if haselse then 1 else 0));
    }

    /** The `else` part, with the jump over it that ends the part before. */
    method ElsePart(b: Stmt, ghost k: Ctx) returns (ok: bool)
      requires InContext(k)
      modifies this
      ensures ok == WellPlaced(b, old(breakTargets) != [], old(continueTargets) != [])
      ensures ok ==>
        var base := |old(instructions)| + 1;
        && instructions == old(instructions) + ([Jmp(|Code(b, base, k)|)] + Code(b, base, k))
        && unresolvedBreaks == old(unresolvedBreaks) + Holes(BreakJump, b, base, k.nb, k.nc, k.nt)
        && unresolvedContinues == old(unresolvedContinues) + Holes(ContinueJump, b, base, k.nb, k.nc, k.nt)
        && SameBlocks()
      decreases b, 2
    {
      hide Code, Holes, Len;
      AddInstruction(Jmp(0));
      var jmppos := CurrentPos();
      ok := Statement(b, k);
      if !ok { return; }
      SetOffset(jmppos, CurrentPos() - jmppos);
    }

    /** Setting the offset of one instruction in the middle. */
    static lemma Repatch(pre: seq<Instr>, p: seq<Instr>, i: Instr, a: seq<Instr>, tail: seq<Instr>, off: int)
      ensures (pre + p + [i] + a + tail)[|pre| + |p| := WithOffset(i, off)]
              == pre + (p + [WithOffset(i, off)] + a + tail)
      ensures p + [WithOffset(i, off)] + a + [] == p + [WithOffset(i, off)] + a
      ensures pre + p + [i] + a + [] == pre + p + [i] + a
    {}

    method WhileStatement(st: Stmt, ghost k: Ctx) returns (ok: bool)
      requires st.While? && InContext(k)
      modifies this
      ensures ok == WellPlaced(st, old(breakTargets) != [], old(continueTargets) != [])
      ensures ok ==> Emitted(st, k)
      decreases st, 0
    {
      hide Code, Holes, Len, Fill;
      var While(c, a) := st;
      ghost var pre, base, pos := instructions, |instructions|, |instructions| + |c.code| + 1;
      ghost var k0, n := Ctx(None, None, 0, 0, k.nt), Len(a, 0, 0, k.nt);
      var jmppos := CurrentPos();
      AddAll(c.code);
      var nbreaks, ncontinues := BeginLoop();
      AddInstruction(Jz(c.target, 0));
      var jzpos := CurrentPos();
      ok := Statement(a, k0);
      if !ok { return; }
      AddInstruction(Jmp(jmppos - CurrentPos() - 1));
      SetOffset(jzpos, CurrentPos() - jzpos);
      ghost var head, back := pre + PrimCode(c.code) + [Jz(c.target, n + 1)], [Jmp(-(|c.code| + n + 2))];
      assert instructions == head + Code(a, pos, k0) + back;
      HolesWithin(BreakJump, a, pos, 0, 0, k.nt);
      HolesWithin(ContinueJump, a, pos, 0, 0, k.nt);
      EndLoop(nbreaks, ncontinues, jmppos);
      FillLoop(head, a, back, k, base, pos + n + 1);
      WhileShape(BreakJump, c, a, base, k);
      WhileShape(ContinueJump, c, a, base, k);
    }

    method DoWhileStatement(st: Stmt, ghost k: Ctx) returns (ok: bool)
      requires st.DoWhile? && InContext(k)
      modifies this
      ensures ok == WellPlaced(st, old(breakTargets) != [], old(continueTargets) != [])
      ensures ok ==> Emitted(st, k)
      decreases st, 0
    {
      hide Code, Holes, Len, Fill;
      var DoWhile(a, c) := st;
      ghost var pre, base := instructions, |instructions|;
      ghost var k0, n := Ctx(None, None, 0, 0, k.nt), Len(a, 0, 0, k.nt);
      var jmptrg := CurrentPos();
      var nbreaks, ncontinues := BeginLoop();
      ok := Statement(a, k0);
      if !ok { return; }
      var continuetrg := CurrentPos();
      AddAll(c.code);
      AddInstruction(Jz(c.target, 1));
      AddInstruction(Jmp(jmptrg - CurrentPos() - 1));
      ghost var tail := PrimCode(c.code) + [Jz(c.target, 1), Jmp(-(n + |c.code| + 2))];
      assert instructions == pre + Code(a, base, k0) + tail;
      HolesWithin(BreakJump, a, base, 0, 0, k.nt);
      HolesWithin(ContinueJump, a, base, 0, 0, k.nt);
      EndLoop(nbreaks, ncontinues, continuetrg);
      FillLoop(pre, a, tail, k, base + n, base + n + |c.code| + 2);
      DoWhileShape(BreakJump, a, c, base, k);
      DoWhileShape(ContinueJump, a, c, base, k);
    }

    method ForEachStatement(st: Stmt, ghost k: Ctx) returns (ok: bool)
      requires st.ForEach? && InContext(k)
      modifies this
      ensures ok == WellPlaced(st, old(breakTargets) != [], old(continueTargets) != [])
      ensures ok ==> Emitted(st, k)
      decreases st, 0
    {
      hide Code, Holes, Len, Fill;
      var ForEach(c, idx, a) := st;
      ghost var pre, base, pos := instructions, |instructions|, |instructions| + |c.code| + 5;
      ghost var k0, n := Ctx(None, None, 0, 0, k.nt), Len(a, 0, 0, k.nt);
      AddAll(c.code + ForEachInit(idx));
      var jmppos := CurrentPos();
      AddInstruction(ForEachNext(c.target, 0, idx));
      var foreachpos := CurrentPos();
      AddInstruction(PostForEach(c.target, 0, idx));
      var nbreaks, ncontinues := BeginLoop();
      ok := Statement(a, k0);
      if !ok { return; }
      AddInstruction(Jmp(jmppos - CurrentPos() - 1));
      SetOffset(foreachpos, CurrentPos() - foreachpos);
      SetOffset(foreachpos + 1, CurrentPos() - foreachpos);
      ghost var head := pre + PrimCode(c.code + ForEachInit(idx))
                        + [ForEachNext(c.target, n + 2, idx), PostForEach(c.target, n + 2, idx)];
      ghost var back := [Jmp(-(n as int) - 3)];
      assert instructions == head + Code(a, pos, k0) + back;
      HolesWithin(BreakJump, a, pos, 0, 0, k.nt);
      HolesWithin(ContinueJump, a, pos, 0, 0, k.nt);
      EndLoop(nbreaks, ncontinues, foreachpos - 1);
      FillLoop(head, a, back, k, pos - 2, pos + n + 1);
      ForEachShape(BreakJump, c, idx, a, base, k);
      ForEachShape(ContinueJump, c, idx, a, base, k);
    }

    method BreakStatement(ghost k: Ctx) returns (ok: bool)
      requires InContext(k)
      modifies this
      ensures ok == (old(breakTargets) != [])
      ensures ok ==> Emitted(Break, k)
    {
      ok := breakTargets != [];
      if !ok { return; }
      if breakTargets[|breakTargets| - 1] > 0 {
        AddInstruction(PopTrap(Byte(breakTargets[|breakTargets| - 1])));
      }
      AddInstruction(Jmp(UNRESOLVED));
      unresolvedBreaks := unresolvedBreaks + [CurrentPos()];
    }

    method ContinueStatement(ghost k: Ctx) returns (ok: bool)
      requires InContext(k)
      modifies this
      ensures ok == (old(continueTargets) != [])
      ensures ok ==> Emitted(Continue, k)
    {
      ok := continueTargets != [];
      if !ok { return; }
      if continueTargets[|continueTargets| - 1] > 0 {
        AddInstruction(PopTrap(Byte(continueTargets[|continueTargets| - 1])));
      }
      AddInstruction(Jmp(UNRESOLVED));
      unresolvedContinues := unresolvedContinues + [CurrentPos()];
    }

    method ReturnStatement(st: Stmt, ghost k: Ctx)
      requires st.Return? && InContext(k)
      modifies this
      ensures Emitted(st, k)
    {
      if st.result.Some? {
        AddAll(st.result.value.code);
      }
      if traps > 0 {
        AddInstruction(PopTrap(Byte(traps)));
      }
      AddInstruction(if st.result.Some? then Ret(1, st.result.value.target) else Ret(NO_VALUE, 0));
    }

    method TryCatchStatement(st: Stmt, ghost k: Ctx) returns (ok: bool)
      requires st.TryCatch? && InContext(k)
      modifies this
      ensures ok == WellPlaced(st, old(breakTargets) != [], old(continueTargets) != [])
      ensures ok ==> Emitted(st, k)
      decreases st, 0
    {
      hide Code, Holes, Len;
      var TryCatch(a, x, h) := st;
      ghost var pre, base := instructions, |instructions|;
      TryShape(BreakJump, a, x, h, base, k);
      TryShape(ContinueJump, a, x, h, base, k);
      ok := TryPart(a, x, k);
      if !ok { return; }
      ghost var ca := Code(a, base + 1, k.InTry());
      var jmppos := CurrentPos();
      ok := Statement(h, k);
      if !ok { return; }
      ghost var ch := Code(h, base + 3 + |ca|, k);
      Repatch(pre, [PushTrap(x, |ca| + 2)] + ca + [PopTrap(1)], Jmp(0), ch, [], |ch|);
      assert [PushTrap(x, |ca| + 2)] + ca + [PopTrap(1), Jmp(|ch|)] == [PushTrap(x, |ca| + 2)] + ca + [PopTrap(1)]
          + [Jmp(|ch|)];
      SetOffset(jmppos, CurrentPos() - jmppos);
    }

    /** The guarded part: push the trap, run the statement, pop the trap, jump over the handler. */
    method TryPart(a: Stmt, x: int, ghost k: Ctx) returns (ok: bool)
      requires InContext(k)
      modifies this
      ensures ok == WellPlaced(a, old(breakTargets) != [], old(continueTargets) != [])
      ensures ok ==>
        var base := |old(instructions)| + 1;
        var ca := Code(a, base, k.InTry());
        && instructions == old(instructions) + ([PushTrap(x, |ca| + 2)] + ca + [PopTrap(1)]) + [Jmp(0)]
        && unresolvedBreaks == old(unresolvedBreaks) + Holes(BreakJump, a, base, k.nb + 1, k.nc + 1, k.nt + 1)
        && unresolvedContinues == old(unresolvedContinues) + Holes(ContinueJump, a, base, k.nb + 1, k.nc + 1, k.nt + 1)
        && SameBlocks()
      decreases a, 2
    {
      hide Code, Holes, Len, WellPlaced, Bump;
      ghost var pre, ca := instructions, Code(a, |instructions| + 1, k.InTry());
      BumpBack(breakTargets);
      BumpBack(continueTargets);
      var trappos := EnterTry(k);
      ok := Statement(a, k.InTry());
      if !ok { return; }
      LeaveTry();
      PatchTrap(trappos, x);
      TrapPatched(pre, x, ca);
    }

    method EnterTry(ghost k: Ctx) returns (trappos: int)
      requires InContext(k)
      modifies this`instructions, this`traps, this`breakTargets, this`continueTargets
      ensures trappos == |old(instructions)| && instructions == old(instructions) + [PushTrap(0, 0)]
      ensures traps == old(traps) + 1 && InContext(k.InTry())
      ensures breakTargets == Bump(old(breakTargets), 1) && continueTargets == Bump(old(continueTargets), 1)
      ensures (breakTargets != []) == (old(breakTargets) != [])
              && (continueTargets != []) == (old(continueTargets) != [])
    {
      AddInstruction(PushTrap(0, 0));
      traps := traps + 1;
      breakTargets, continueTargets := Bump(breakTargets, 1), Bump(continueTargets, 1);
      trappos := CurrentPos();
    }

    method LeaveTry()
      requires traps > 0
      modifies this`instructions, this`traps, this`breakTargets, this`continueTargets
      ensures instructions == old(instructions) + [PopTrap(1)] + [Jmp(0)] && traps == old(traps) - 1
      ensures breakTargets == Bump(old(breakTargets), -1) && continueTargets == Bump(old(continueTargets), -1)
    {
      traps := traps - 1;
      AddInstruction(PopTrap(1));
      breakTargets, continueTargets := Bump(breakTargets, -1), Bump(continueTargets, -1);
      AddInstruction(Jmp(0));
    }

    /** Add to the innermost counter, if there is one. */
    static function Bump(s: seq<int>, d: int): seq<int> {
      if s == [] then [] else s[|s| - 1 := s[|s| - 1] + d]
    }

    static lemma BumpBack(s: seq<int>)
      ensures Bump(Bump(s, 1), -1) == s
    {}

    /** Now that the handler's position is known, aim the trap at it. */
    method PatchTrap(trappos: int, x: int)
      requires 0 <= trappos < |instructions| && instructions[trappos].PushTrap?
      modifies this`instructions
      ensures instructions == old(instructions)[trappos := PushTrap(x, |old(instructions)| - 1 - trappos)]
    {
      SetOffset(trappos, CurrentPos() - trappos);
      instructions := instructions[trappos := PushTrap(x, instructions[trappos].off)];
    }

    static lemma TrapPatched(pre: seq<Instr>, x: int, ca: seq<Instr>)
      ensures (pre + [PushTrap(0, 0)] + ca + [PopTrap(1)] + [Jmp(0)])[|pre| := PushTrap(x, |ca| + 2)]
           == pre + ([PushTrap(x, |ca| + 2)] + ca + [PopTrap(1)]) + [Jmp(0)]
    {}

    /** One `case` clause.  Unless it is the first one, the statements of the clause before jump
        over its test, and the test before leads here when it fails. */
    method CaseClause(l: Expr, b: Stmt, subject: int, bfirst: bool, tonextcondjmp: int, ghost k: Ctx)
      returns (ok: bool, jz: int)
      requires InContext(k) && breakTargets != []
      requires !bfirst ==> 0 <= tonextcondjmp < |instructions|
      modifies this
      ensures ok == WellPlaced(b, true, old(continueTargets) != [])
      ensures ok ==>
        var before := if bfirst then old(instructions) else Linked(old(instructions), tonextcondjmp, l);
        var clause := |before| + |l.code| + 2;
        && jz == clause - 1
        && instructions == before + PrimCode(LabelCode(l, subject)) + [Jz(l.target, 0)] + Code(b, clause, k)
        && unresolvedBreaks == old(unresolvedBreaks) + Holes(BreakJump, b, clause, k.nb, k.nc, k.nt)
        && unresolvedContinues == old(unresolvedContinues) + Holes(ContinueJump, b, clause, k.nb, k.nc, k.nt)
        && SameBlocks()
      decreases b, 2
    {
      hide Code, Holes, Len;
      var skipcondjmp := -1;
      ghost var before := if bfirst then instructions else Linked(instructions, tonextcondjmp, l);
      if !bfirst {
        AddInstruction(Jmp(0));
        skipcondjmp := CurrentPos();
        SetOffset(tonextcondjmp, CurrentPos() - tonextcondjmp);
      }
      AddAll(LabelCode(l, subject));
      AddInstruction(Jz(l.target, 0));
      if skipcondjmp != -1 {
        SetOffset(skipcondjmp, CurrentPos() - skipcondjmp);
      }
      assert instructions == before + PrimCode(LabelCode(l, subject)) + [Jz(l.target, 0)];
      jz := CurrentPos();
      ok := Statement(b, k);
    }

    static function Linked(code: seq<Instr>, tonextcondjmp: int, l: Expr): seq<Instr>
      requires 0 <= tonextcondjmp < |code|
    {
      code[tonextcondjmp := WithOffset(code[tonextcondjmp], |code| - tonextcondjmp)] + [Jmp(|l.code| + 2)]
    }

    method SwitchStatement(st: Stmt, ghost k: Ctx) returns (ok: bool)
      requires st.Switch? && InContext(k)
      modifies this
      ensures ok == WellPlaced(st, old(breakTargets) != [], old(continueTargets) != [])
      ensures ok ==> Emitted(st, k)
      decreases st, 0
    {
      hide Code, CodeCases, Holes, HolesCases, Len, LenCases, Fill, PrimCode, LabelCode;
      var Switch(e, cs) := st;
      ghost var pre, k1 := instructions + PrimCode(e.code), Ctx(None, None, 0, k.nc, k.nt);
      AddAll(e.code);
      var nbreaks := |unresolvedBreaks|;
      breakTargets := breakTargets + [0];
      ok := Clauses(e.target, cs, st, k1);
      if !ok { return; }
      ghost var holes := HolesCases(BreakJump, cs, |pre|, k.nc, k.nt);
      assert unresolvedBreaks[nbreaks..] == holes;
      HolesCasesWithin(BreakJump, cs, |pre|, k.nc, k.nt);
      FillSwitchBreaks(old(instructions), e, cs, k);
      if |unresolvedBreaks| > nbreaks {
        ResolveBreaks(|unresolvedBreaks| - nbreaks);
      } else {
        FillNone(instructions, 0, |instructions|);
      }
      breakTargets := breakTargets[..|breakTargets| - 1];
      SwitchShape(BreakJump, e, cs, |old(instructions)|, k);
      SwitchShape(ContinueJump, e, cs, |old(instructions)|, k);
    }

    /** All clauses of a `switch`, up to and including the `default` clause. */
    method Clauses(subject: int, cs: Cases, ghost st: Stmt, ghost k: Ctx) returns (ok: bool)
      requires st.Switch? && st.cases == cs && InContext(k) && breakTargets != [] && k.nb == 0
      modifies this
      ensures ok == WellPlacedCases(cs, old(continueTargets) != [])
      ensures ok ==>
        var base := |old(instructions)|;
        && instructions == old(instructions) + CodeCases(subject, cs, base, k)
        && unresolvedBreaks == old(unresolvedBreaks) + HolesCases(BreakJump, cs, base, k.nc, k.nt)
        && unresolvedContinues == old(unresolvedContinues) + HolesCases(ContinueJump, cs, base, k.nc, k.nt)
        && SameBlocks()
      decreases st, 0, 0
    {
      hide Code, CodeCases, Holes, HolesCases, Len, LenCases, PrimCode, LabelCode, Progress, Linked;
      ghost var base := |instructions|;
      ghost var total := instructions + CodeCases(subject, cs, base, k);
      ghost var breaks := unresolvedBreaks + HolesCases(BreakJump, cs, base, k.nc, k.nt);
      ghost var continues := unresolvedContinues + HolesCases(ContinueJump, cs, base, k.nc, k.nt);
      var bfirst, tonextcondjmp, rem := true, -1, cs;
      ProgressStart(subject, cs, instructions, unresolvedBreaks, unresolvedContinues, k);
      while rem.Case?
        invariant rem == cs || rem < cs
        invariant bfirst <==> tonextcondjmp == -1
        invariant !bfirst ==> 0 <= tonextcondjmp < |instructions|
        invariant Progress(total, breaks, continues, subject, rem, instructions, unresolvedBreaks, unresolvedContinues,
                           bfirst, tonextcondjmp, k)
        invariant WellPlacedCases(cs, continueTargets != []) == WellPlacedCases(rem, continueTargets != [])
        invariant SameBlocks()
        decreases rem
      {
        ghost var code0, ub0, uc0, first0, jump0 := instructions, unresolvedBreaks, unresolvedContinues, bfirst,
            tonextcondjmp;
        ok, tonextcondjmp := CaseClause(rem.test, rem.body, subject, bfirst, tonextcondjmp, k);
        if !ok { return; }
        ProgressStep(total, breaks, continues, subject, rem, code0, ub0, uc0, first0, jump0, k,
                     instructions, unresolvedBreaks, unresolvedContinues, tonextcondjmp);
        bfirst, rem := false, rem.rest;
      }
      ghost var code0 := instructions;
      if tonextcondjmp != -1 {
        SetOffset(tonextcondjmp, CurrentPos() - tonextcondjmp);
      }
      ProgressEnd(total, breaks, continues, subject, rem, code0, unresolvedBreaks, unresolvedContinues,
                  bfirst, tonextcondjmp, k, instructions);
      ok := Statement(rem.body, k);
    }

    /** The instructions as they will be once the clauses `rem` have been emitted behind them. */
    static function Finished(code: seq<Instr>, bfirst: bool, jump: int, rem: Cases): seq<Instr>
      requires !bfirst ==> 0 <= jump < |code|
    {
      if bfirst then code else
      code[jump := WithOffset(code[jump], |code| + |SkipTest(rem)| - jump - 1)] + SkipTest(rem)
    }

    /** With the clauses `rem` still to come, the whole `switch` will be `total`. */
    static ghost predicate Progress(total: seq<Instr>, breaks: seq<int>, continues: seq<int>, subject: int, rem: Cases,
                                    code: seq<Instr>, ub: seq<int>, uc: seq<int>, bfirst: bool, jump: int, k: Ctx)
    {
      && k.nb == 0
      && (!bfirst ==> 0 <= jump < |code|)
      && var done := Finished(code, bfirst, jump, rem);
      && total == done + CodeCases(subject, rem, |done|, k)
      && breaks == ub + HolesCases(BreakJump, rem, |done|, k.nc, k.nt)
      && continues == uc + HolesCases(ContinueJump, rem, |done|, k.nc, k.nt)
    }

    static lemma ProgressStart(subject: int, cs: Cases, code: seq<Instr>, ub: seq<int>, uc: seq<int>, k: Ctx)
      requires k.nb == 0
      ensures var base := |code|;
              Progress(code + CodeCases(subject, cs, base, k), ub + HolesCases(BreakJump, cs, base, k.nc, k.nt),
                       uc + HolesCases(ContinueJump, cs, base, k.nc, k.nt), subject, cs, code, ub, uc, true, -1, k)
    {}

    static lemma ProgressStep(total: seq<Instr>, breaks: seq<int>, continues: seq<int>, subject: int, rem: Cases,
                              code: seq<Instr>, ub: seq<int>, uc: seq<int>, bfirst: bool, jump: int, k: Ctx,
                              code': seq<Instr>, ub': seq<int>, uc': seq<int>, jump': int)
      requires rem.Case? && Progress(total, breaks, continues, subject, rem, code, ub, uc, bfirst, jump, k)
      requires var before := if bfirst then code else Linked(code, jump, rem.test);
               && jump' == |before| + |rem.test.code| + 1
               && code' == before + PrimCode(LabelCode(rem.test, subject)) + [Jz(rem.test.target, 0)]
                           + Code(rem.body, jump' + 1, k)
               && ub' == ub + Holes(BreakJump, rem.body, jump' + 1, k.nb, k.nc, k.nt)
               && uc' == uc + Holes(ContinueJump, rem.body, jump' + 1, k.nb, k.nc, k.nt)
      ensures Progress(total, breaks, continues, subject, rem.rest, code', ub', uc', false, jump', k)
      ensures 0 <= jump' < |code'|
    {
      hide Code, CodeCases, Holes, HolesCases, Len, LenCases, PrimCode, SkipTest, Finished, LabelCode;
      var Case(l, b, rest) := rem;
      var before := Finished(code, bfirst, jump, rem);
      var cb, test, skip := Code(b, jump' + 1, k), PrimCode(LabelCode(l, subject)), SkipTest(rest);
      ClauseAdded(code, bfirst, jump, subject, l, b, rest, cb);
      CaseShape(BreakJump, subject, l, b, rest, |before|, k);
      CaseShape(ContinueJump, subject, l, b, rest, |before|, k);
      Regroup(before, test + [Jz(l.target, |cb| + |skip|)] + cb + skip,
              CodeCases(subject, rest, jump' + 1 + |cb| + |skip|, k));
    }

    static lemma ProgressEnd(total: seq<Instr>, breaks: seq<int>, continues: seq<int>, subject: int, rem: Cases,
                             code: seq<Instr>, ub: seq<int>, uc: seq<int>, bfirst: bool, jump: int, k: Ctx,
                             code': seq<Instr>)
      requires rem.Default? && Progress(total, breaks, continues, subject, rem, code, ub, uc, bfirst, jump, k)
      requires code' == if bfirst then code else code[jump := WithOffset(code[jump], |code| - 1 - jump)]
      ensures total == code' + Code(rem.body, |code'|, k)
      ensures breaks == ub + Holes(BreakJump, rem.body, |code'|, 0, k.nc, k.nt)
      ensures continues == uc + Holes(ContinueJump, rem.body, |code'|, 0, k.nc, k.nt)
    {
      hide Code, CodeCases, Holes, HolesCases, Len, LenCases;
      assert Finished(code, bfirst, jump, rem) == code';
      DefaultShape(BreakJump, subject, rem, |code'|, k);
      DefaultShape(ContinueJump, subject, rem, |code'|, k);
    }

    static lemma Regroup<T>(x: seq<T>, y: seq<T>, z: seq<T>)
      ensures x + (y + z) == x + y + z
    {}

    static lemma ClauseAdded(code: seq<Instr>, bfirst: bool, jump: int, subject: int, l: Expr, b: Stmt, rest: Cases,
                             cb: seq<Instr>)
      requires !bfirst ==> 0 <= jump < |code|
      ensures var before := Finished(code, bfirst, jump, Case(l, b, rest));
              var test, jz := PrimCode(LabelCode(l, subject)), |before| + |l.code| + 1;
              && before == (if bfirst then code else Linked(code, jump, l))
              && |test| == |l.code| + 1
              && Finished(before + test + [Jz(l.target, 0)] + cb, false, jz, rest)
                 == before + (test + [Jz(l.target, |cb| + |SkipTest(rest)|)] + cb + SkipTest(rest))
    {
      hide Code, CodeCases, Holes, HolesCases, Len, LenCases;
      var before := Finished(code, bfirst, jump, Case(l, b, rest));
      var test := PrimCode(LabelCode(l, subject));
      PatchAt(before + test, Jz(l.target, 0), cb, Jz(l.target, |cb| + |SkipTest(rest)|));
    }

    static lemma PatchAt(x: seq<Instr>, i: Instr, y: seq<Instr>, j: Instr)
      ensures (x + [i] + y)[|x|] == i && (x + [i] + y)[|x| := j] == x + [j] + y
    {}
  }

  /** Compile a function body.  Compilation fails exactly on misplaced jumps, and otherwise
      yields the code whose correctness `Simulation.FunctionCorrect` states. */
  method CompileFunction(st: Stmt) returns (ok: bool, code: seq<Instr>)
    ensures ok == WellPlaced(st, false, false)
    ensures ok ==> code == FunctionCode(st)
  {
    var fs := new FuncState();
    ok := fs.Statement(st, Ctx(None, None, 0, 0, 0));
    fs.AddInstruction(Ret(NO_VALUE, 0));
    code := fs.instructions;
  }
}
