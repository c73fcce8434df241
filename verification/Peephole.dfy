/** The peephole optimizer in SQFuncState::AddInstruction: adjacent instructions are fused as they
    are emitted.  The module gives the meaning of the instructions involved, the fusion rules, and
    the side conditions under which fusing preserves meaning. */
module Peephole {
  import opened Wrappers

  datatype Op =
    | LINE | LOAD | LOADINT | LOADFLOAT | LOADBOOL | DLOAD | LOADNULLS
    | MOVE | DMOVE | GET | GETK | PREPCALL | PREPCALLK | SET | NEWSLOT | GETOUTER | SETOUTER
    | ADD | SUB | MUL | DIV | MOD | BITW | EQ | NE | CMP | JCMP | JZ | APPENDARRAY | CLOSE | RETURN

  datatype Instr = Instr(op: Op, arg0: int, arg1: int, arg2: int, arg3: int)

  /** MAX_FUNC_STACKSIZE: stands for "no register". */
  const NONE := 0xFF

  const AAT_STACK := 0
  const AAT_LITERAL := 1
  const AAT_INT := 2
  const AAT_FLOAT := 3
  const AAT_BOOL := 4

  // ---------- What instructions do ----------

  datatype Val = Null | Bool(n: int) | Thing(id: int)

  /** An operation on objects: it may fail, and it may change the heap. */
  datatype Effect<H> = Ok(val: Val, heap: H) | Err(heap: H)

  datatype Env<!H> = Env(
    lit: int -> Val, intVal: int -> Val, floatVal: int -> Val, isFalse: Val -> bool,
    get: (Val, Val, bool, H) -> Effect<H>,
    assign: (Val, Val, Val, bool, H) -> Effect<H>,
    newSlot: (Val, Val, Val, H) -> Effect<H>,
    equal: (Val, Val, H) -> Effect<H>,
    compare: (int, Val, Val, H) -> Effect<H>,
    arith: (Op, int, Val, Val, H) -> Effect<H>,
    append: (Val, Val, H) -> H)

  /** A captured variable: still a register of this frame, or closed with its value. */
  datatype Cell = Open(slot: int) | Closed(v: Val)

  datatype Machine<!H> = Machine(regs: int -> Val, outers: int -> Val, cells: int -> Cell, heap: H)

  datatype Outcome<!H> =
    | Next(m: Machine<H>)
    | Jump(off: int, m: Machine<H>)
    | Thrown(m: Machine<H>)
    | Returned(v: Val, m: Machine<H>)

  function Put<H>(m: Machine<H>, r: int, v: Val): Machine<H> {
    m.(regs := (x: int) => if x == r then v else m.regs(x))
  }

  /** TARGET = v, unless there is no target. */
  function PutTarget<H>(m: Machine<H>, r: int, v: Val): Machine<H> { if r == NONE then m else Put(m, r, v) }

  function CloseFrom<H>(m: Machine<H>, n: int): Machine<H> {
    m.(cells := (c: int) => if m.cells(c).Open? && m.cells(c).slot >= n then Closed(m.regs(m.cells(c).slot))
       else m.cells(c))
  }

  function Appended<H>(env: Env<H>, i: Instr, m: Machine<H>): Val {
    if i.arg2 == AAT_LITERAL then env.lit(i.arg1)
    else if i.arg2 == AAT_INT then env.intVal(i.arg1)
    else if i.arg2 == AAT_FLOAT then env.floatVal(i.arg1)
    else if i.arg2 == AAT_BOOL then Bool(i.arg1)
    else m.regs(i.arg1)
  }

  function Truth(b: bool): Val { Bool(if b then 1 else 0) }

  /** An operation whose result goes to a register. */
  function Store<H>(e: Effect<H>, m: Machine<H>, r: int): Outcome<H> {
    match e case Ok(v, h) => Next(Put(m.(heap := h), r, v)) case Err(h) => Thrown(m.(heap := h))
  }

  function Step<H>(env: Env<H>, i: Instr, m: Machine<H>): Outcome<H> {
    match i.op
    case LINE => Next(m)
    case LOAD => Next(Put(m, i.arg0, env.lit(i.arg1)))
    case LOADINT => Next(Put(m, i.arg0, env.intVal(i.arg1)))
    case LOADFLOAT => Next(Put(m, i.arg0, env.floatVal(i.arg1)))
    case LOADBOOL => Next(Put(m, i.arg0, Truth(i.arg1 != 0)))
    case DLOAD => Next(Put(Put(m, i.arg0, env.lit(i.arg1)), i.arg2, env.lit(i.arg3)))
    case LOADNULLS => Next(m.(regs := (x: int) => if i.arg0 <= x < i.arg0 + i.arg1 then Null else m.regs(x)))
    case MOVE => Next(Put(m, i.arg0, m.regs(i.arg1)))
    case DMOVE => var m1 := Put(m, i.arg0, m.regs(i.arg1)); Next(Put(m1, i.arg2, m1.regs(i.arg3)))
    case GET => Store(env.get(m.regs(i.arg1), m.regs(i.arg2), i.arg1 == 0, m.heap), m, i.arg0)
    case GETK => Store(env.get(m.regs(i.arg2), env.lit(i.arg1), i.arg2 == 0, m.heap), m, i.arg0)
    case PREPCALL => Prepare(env, i, m, m.regs(i.arg1))
    case PREPCALLK => Prepare(env, i, m, env.lit(i.arg1))
    case SET =>
      (match env.assign(m.regs(i.arg1), m.regs(i.arg2), m.regs(i.arg3), i.arg1 == 0, m.heap)
       case Ok(_, h) => Next(PutTarget(m.(heap := h), i.arg0, m.regs(i.arg3)))
       case Err(h) => Thrown(m.(heap := h)))
    case NEWSLOT =>
      (match env.newSlot(m.regs(i.arg1), m.regs(i.arg2), m.regs(i.arg3), m.heap)
       case Ok(_, h) => Next(PutTarget(m.(heap := h), i.arg0, m.regs(i.arg3)))
       case Err(h) => Thrown(m.(heap := h)))
    case GETOUTER => Next(Put(m, i.arg0, m.outers(i.arg1)))
    case SETOUTER =>
      Next(PutTarget(m.(outers := (x: int) => if x == i.arg1 then m.regs(i.arg2) else m.outers(x)), i.arg0,
                     m.regs(i.arg2)))
    case ADD | SUB | MUL | DIV | BITW => Store(env.arith(i.op, i.arg3, m.regs(i.arg2), m.regs(i.arg1), m.heap), m,
                                               i.arg0)
    case MOD => // a failing % raises nothing: the target keeps its value and execution goes on
      (match env.arith(MOD, 0, m.regs(i.arg2), m.regs(i.arg1), m.heap)
       case Ok(v, h) => Next(Put(m.(heap := h), i.arg0, v))
       case Err(h) => Next(m.(heap := h)))
    case EQ => Equal(env, i, m, true)
    case NE => Equal(env, i, m, false)
    case CMP => Store(env.compare(i.arg3, m.regs(i.arg2), m.regs(i.arg1), m.heap), m, i.arg0)
    case JCMP =>
      (match env.compare(i.arg3, m.regs(i.arg2), m.regs(i.arg0), m.heap)
       case Ok(v, h) => if env.isFalse(v) then Jump(i.arg1, m.(heap := h)) else Next(m.(heap := h))
       case Err(h) => Thrown(m.(heap := h)))
    case JZ => if env.isFalse(m.regs(i.arg0)) then Jump(i.arg1, m) else Next(m)
    case APPENDARRAY => Next(m.(heap := env.append(m.regs(i.arg0), Appended(env, i, m), m.heap)))
    case CLOSE => Next(CloseFrom(m, i.arg1))
    case RETURN => Returned(if i.arg0 != NONE then m.regs(i.arg1) else Null, CloseFrom(m, 0))
  }

  function Prepare<H>(env: Env<H>, i: Instr, m: Machine<H>, key: Val): Outcome<H> {
    match env.get(m.regs(i.arg2), key, i.arg2 == 0, m.heap)
    case Ok(v, h) => Next(Put(Put(m.(heap := h), i.arg3, m.regs(i.arg2)), i.arg0, v))
    case Err(h) => Thrown(m.(heap := h))
  }

  function Equal<H>(env: Env<H>, i: Instr, m: Machine<H>, positive: bool): Outcome<H> {
    match env.equal(m.regs(i.arg2), if i.arg3 != 0 then env.lit(i.arg1) else m.regs(i.arg1), m.heap)
    case Ok(v, h) => Next(Put(m.(heap := h), i.arg0, Truth(env.isFalse(v) != positive)))
    case Err(h) => Thrown(m.(heap := h))
  }

  /** Straight-line code: stops at a jump that is taken, at an error and at a return. */
  function Run<H>(env: Env<H>, code: seq<Instr>, m: Machine<H>): Outcome<H>
    decreases |code|
  {
    if code == [] then Next(m) else
    var o := Step(env, code[0], m);
    if o.Next? then Run(env, code[1..], o.m) else o
  }

  // ---------- The optimizer ----------

  predicate Quiet(op: Op) { op in {GET, ADD, SUB, MUL, DIV, MOD, BITW, LOADINT, LOADFLOAT, LOADBOOL, LOAD} }

  function AppendKind(op: Op): int {
    match op
    case LOAD => AAT_LITERAL
    case LOADINT => AAT_INT
    case LOADBOOL => AAT_BOOL
    case LOADFLOAT => AAT_FLOAT
    case _ => -1
  }

  /** What the previous instruction becomes when `i` is fused into it. */
  function Fuse(pi: Instr, i: Instr, isLocal: set<int>): Option<Instr> {
    match i.op
    case JZ => if pi.op == CMP && pi.arg1 < 0xFF then Some(pi.(op := JCMP, arg0 := Low(pi.arg1), arg1 := i.arg1))
        else None
    case RETURN => if pi.op == CLOSE then Some(i) else None
    case GET =>
      if pi.op == LOAD && pi.arg0 == i.arg2 && pi.arg0 !in isLocal
          then Some(pi.(op := GETK, arg2 := Low(i.arg1), arg0 := i.arg0)) else None
    case PREPCALL =>
      if pi.op == LOAD && pi.arg0 == i.arg1 && pi.arg0 !in isLocal
      then Some(pi.(op := PREPCALLK, arg0 := i.arg0, arg2 := i.arg2, arg3 := i.arg3)) else None
    case APPENDARRAY =>
      var aat := AppendKind(pi.op);
      if aat != -1 && pi.arg0 == i.arg1 && pi.arg0 !in isLocal
      then Some(pi.(op := APPENDARRAY, arg0 := i.arg0, arg2 := aat, arg3 := NONE)) else None
    case MOVE =>
      if Quiet(pi.op) && pi.arg0 == i.arg1 then Some(pi.(arg0 := i.arg0))
      else if pi.op == MOVE then Some(pi.(op := DMOVE, arg2 := i.arg0, arg3 := Low(i.arg1))) else None
    case LOAD => if pi.op == LOAD && i.arg1 < 256 then Some(pi.(op := DLOAD, arg2 := i.arg0, arg3 := Low(i.arg1)))
        else None
    case EQ =>
      if pi.op == LOAD && pi.arg0 == i.arg1 && pi.arg0 !in isLocal
      then Some(pi.(op := EQ, arg0 := i.arg0, arg2 := i.arg2, arg3 := NONE)) else None
    case NE =>
      if pi.op == LOAD && pi.arg0 == i.arg1 && pi.arg0 !in isLocal
      then Some(pi.(op := NE, arg0 := i.arg0, arg2 := i.arg2, arg3 := NONE)) else None
    case LOADNULLS => if pi.op == LOADNULLS && pi.arg0 + pi.arg1 == i.arg0 then Some(pi.(arg1 := pi.arg1 + 1)) else None
    case LINE => if pi.op == LINE then Some(i) else None
    case _ => None
  }

  /** The conversion to unsigned char. */
  function Low(x: int): int { x % 256 }

  /** Does this fusion turn the optimizer off for the next instruction? */
  predicate Pauses(pi: Instr, i: Instr) { i.op == MOVE && Quiet(pi.op) && pi.arg0 == i.arg1 }

  /** How `i` itself is changed when it is not fused. */
  function Trim(i: Instr): Instr {
    match i.op
    case JZ | SET | NEWSLOT => if i.arg0 == i.arg3 then i.(arg0 := NONE) else i
    case SETOUTER => if i.arg0 == i.arg2 then i.(arg0 := NONE) else i
    case _ => i
  }

  datatype Emitted = Emitted(code: seq<Instr>, optimization: bool)

  function Add(e: Emitted, i: Instr, isLocal: set<int>): Emitted {
    if e.code == [] || !e.optimization then Emitted(e.code + [i], true) else
    var n := |e.code| - 1;
    match Fuse(e.code[n], i, isLocal)
    case Some(f) => Emitted(e.code[..n] + [f], i.op == LINE || !Pauses(e.code[n], i))
    case None => Emitted(e.code + [Trim(i)], true)
  }

  class FuncState {
    var instructions: seq<Instr>
    var optimization: bool
    var locals: set<int>

    function State(): Emitted
      reads this
    {
      Emitted(instructions, optimization)
    }

    predicate IsLocal(r: int)
      reads this
    {
      r in locals
    }

    /** Rewrite the last instruction. */
    method Replace(i: Instr)
      requires instructions != []
      modifies this`instructions
      ensures instructions == old(instructions)[..|old(instructions)| - 1] + [i]
    {
      instructions := instructions[..|instructions| - 1] + [i];
    }

    method AddInstruction(instr: Instr)
      modifies this`instructions, this`optimization
      ensures State() == Add(old(State()), instr, locals)
    {
      var i, size := instr, |instructions|;
      if size > 0 && optimization {
        var pi := instructions[size - 1];
        match i.op {
          case JZ =>
            if pi.op == CMP && pi.arg1 < 0xFF {
              Replace(pi.(op := JCMP, arg0 := Low(pi.arg1), arg1 := i.arg1));
              return;
            }
            // no break here: the next rule applies as well
            if i.arg0 == i.arg3 { i := i.(arg0 := NONE); }
          case SET => if i.arg0 == i.arg3 { i := i.(arg0 := NONE); }
          case NEWSLOT => if i.arg0 == i.arg3 { i := i.(arg0 := NONE); }
          case SETOUTER => if i.arg0 == i.arg2 { i := i.(arg0 := NONE); }
          case RETURN =>
            if pi.op == CLOSE {
              Replace(i);
              return;
            }
          case GET =>
            if pi.op == LOAD && pi.arg0 == i.arg2 && !IsLocal(pi.arg0) {
              Replace(pi.(arg2 := Low(i.arg1), op := GETK, arg0 := i.arg0));
              return;
            }
          case PREPCALL =>
            if pi.op == LOAD && pi.arg0 == i.arg1 && !IsLocal(pi.arg0) {
              Replace(pi.(op := PREPCALLK, arg0 := i.arg0, arg2 := i.arg2, arg3 := i.arg3));
              return;
            }
          case APPENDARRAY =>
            var aat := AppendKind(pi.op);
            if aat != -1 && pi.arg0 == i.arg1 && !IsLocal(pi.arg0) {
              Replace(pi.(op := APPENDARRAY, arg0 := i.arg0, arg2 := aat, arg3 := NONE));
              return;
            }
          case MOVE =>
            if Quiet(pi.op) && pi.arg0 == i.arg1 {
              Replace(pi.(arg0 := i.arg0));
              optimization := false;
              return;
            }
            if pi.op == MOVE {
              Replace(pi.(op := DMOVE, arg2 := i.arg0, arg3 := Low(i.arg1)));
              return;
            }
          case LOAD =>
            if pi.op == LOAD && i.arg1 < 256 {
              Replace(pi.(op := DLOAD, arg2 := i.arg0, arg3 := Low(i.arg1)));
              return;
            }
          case EQ =>
            if pi.op == LOAD && pi.arg0 == i.arg1 && !IsLocal(pi.arg0) {
              Replace(pi.(op := i.op, arg0 := i.arg0, arg2 := i.arg2, arg3 := NONE));
              return;
            }
          case NE =>
            if pi.op == LOAD && pi.arg0 == i.arg1 && !IsLocal(pi.arg0) {
              Replace(pi.(op := i.op, arg0 := i.arg0, arg2 := i.arg2, arg3 := NONE));
              return;
            }
          case LOADNULLS =>
            if pi.op == LOADNULLS && pi.arg0 + pi.arg1 == i.arg0 {
              Replace(pi.(arg1 := pi.arg1 + 1));
              return;
            }
          case LINE => if pi.op == LINE { instructions := instructions[..size - 1]; }
          case _ =>
        }
      }
      optimization := true;
      instructions := instructions + [i];
    }

    /** The value just computed is not wanted: do not store it. */
    method DiscardTarget(target: int)
      modifies this`instructions
      ensures instructions == if old(instructions) == [] || !optimization then old(instructions)
              else Discarded(old(instructions), target)
    {
      var size := |instructions|;
      if size > 0 && optimization {
        var pi := instructions[size - 1];
        if pi.op in {SET, NEWSLOT, SETOUTER} && pi.arg0 == target {
          Replace(pi.(arg0 := NONE));
        } else {
          assert instructions == instructions[..size - 1] + [pi];
        }
      }
    }
  }

  function Discarded(code: seq<Instr>, target: int): seq<Instr>
    requires code != []
  {
    var pi := code[|code| - 1];
    code[..|code| - 1] + [if Drops(pi, target) then pi.(arg0 := NONE) else pi]
  }

  predicate Drops(pi: Instr, target: int) { pi.op in {SET, NEWSLOT, SETOUTER} && pi.arg0 == target }

  // ---------- Agreement up to dead registers ----------

  ghost predicate Agree<H>(m1: Machine<H>, m2: Machine<H>, dead: set<int>) {
    && m1.heap == m2.heap
    && (forall r :: r !in dead ==> m1.regs(r) == m2.regs(r))
    && (forall x :: m1.outers(x) == m2.outers(x))
    && (forall c :: m1.cells(c) == m2.cells(c))
  }

  /** The same way on, and agreement up to `dead` if it is the next instruction, else up to `ever`. */
  ghost predicate Same<H>(o1: Outcome<H>, o2: Outcome<H>, dead: set<int>, ever: set<int>) {
    match o1
    case Next(m1) => o2.Next? && Agree(m1, o2.m, dead)
    case Jump(off, m1) => o2.Jump? && o2.off == off && Agree(m1, o2.m, ever)
    case Thrown(m1) => o2.Thrown? && Agree(m1, o2.m, ever)
    case Returned(v, m1) => o2.Returned? && o2.v == v && Agree(m1, o2.m, ever)
  }

  lemma SameTrans<H>(a: Outcome<H>, b: Outcome<H>, c: Outcome<H>, d1: set<int>, e1: set<int>, d2: set<int>,
                     e2: set<int>)
    requires Same(a, b, d1, e1) && Same(b, c, d2, e2)
    ensures Same(a, c, d1 + d2, e1 + e2)
  {}

  // ---------- What instructions read and write ----------

  function Reads(i: Instr): set<int> {
    match i.op
    case LINE | LOAD | LOADINT | LOADFLOAT | LOADBOOL | DLOAD | LOADNULLS | GETOUTER | CLOSE => {}
    case MOVE => {i.arg1}
    case DMOVE => {i.arg1, i.arg3}
    case GET => {i.arg1, i.arg2}
    case GETK | PREPCALLK | SETOUTER => {i.arg2}
    case PREPCALL => {i.arg1, i.arg2}
    case SET | NEWSLOT => {i.arg1, i.arg2, i.arg3}
    case ADD | SUB | MUL | DIV | MOD | BITW | CMP => {i.arg1, i.arg2}
    case EQ | NE => if i.arg3 != 0 then {i.arg2} else {i.arg1, i.arg2}
    case JCMP => {i.arg0, i.arg2}
    case JZ => {i.arg0}
    case APPENDARRAY => if 1 <= i.arg2 <= 4 then {i.arg0} else {i.arg0, i.arg1}
    case RETURN => if i.arg0 != NONE then {i.arg1} else {}
  }

  /** Registers that are certain to be overwritten when execution goes on. */
  function Writes(i: Instr): set<int> {
    match i.op
    case LOAD | LOADINT | LOADFLOAT | LOADBOOL | MOVE | GET | GETK | GETOUTER => {i.arg0}
    case ADD | SUB | MUL | DIV | BITW | EQ | NE | CMP => {i.arg0}
    case DLOAD | DMOVE => {i.arg0, i.arg2}
    case PREPCALL | PREPCALLK => {i.arg0, i.arg3}
    case LOADNULLS => Span(i.arg0, i.arg1)
    case SET | NEWSLOT | SETOUTER => if i.arg0 == NONE then {} else {i.arg0}
    case _ => {}
  }

  function Span(lo: int, n: int): (s: set<int>)
    ensures forall r :: r in s <==> lo <= r < lo + n
    decreases n
  {
    if n <= 0 then {} else Span(lo, n - 1) + {lo + n - 1}
  }

  /** No captured variable lives in one of these registers. */
  ghost predicate Uncaptured<H>(m: Machine<H>, regs: set<int>) {
    forall c :: m.cells(c).Open? ==> m.cells(c).slot !in regs
  }

  lemma PutSame<H>(m1: Machine<H>, m2: Machine<H>, dead: set<int>, h: H, r: int, v: Val)
    requires Agree(m1, m2, dead)
    ensures Agree(Put(m1.(heap := h), r, v), Put(m2.(heap := h), r, v), dead - {r})
    ensures Agree(Put(m1, r, v), Put(m2, r, v), dead - {r})
    ensures Agree(m1.(heap := h), m2.(heap := h), dead)
  {}

  lemma StoreSame<H>(e: Effect<H>, m1: Machine<H>, m2: Machine<H>, dead: set<int>, r: int)
    requires Agree(m1, m2, dead)
    ensures Same(Store(e, m1, r), Store(e, m2, r), dead - {r}, dead)
  {
    hide Agree, Put;
    PutSame(m1, m2, dead, e.heap, r, if e.Ok? then e.val else Null);
  }

  lemma AgreeReads<H>(m1: Machine<H>, m2: Machine<H>, dead: set<int>)
    requires Agree(m1, m2, dead)
    ensures m1.heap == m2.heap && (forall r :: r !in dead ==> m1.regs(r) == m2.regs(r))
            && forall x :: m1.outers(x) == m2.outers(x)
  {}

  lemma AgreeMore<H>(m1: Machine<H>, m2: Machine<H>, dead: set<int>, more: set<int>)
    requires Agree(m1, m2, dead) && dead <= more
    ensures Agree(m1, m2, more)
  {}

  /** An instruction that does not read dead registers does the same in both machines. */
  lemma StepSame<H>(env: Env<H>, i: Instr, m1: Machine<H>, m2: Machine<H>, dead: set<int>)
    requires Agree(m1, m2, dead) && Reads(i) !! dead && Uncaptured(m1, dead)
    ensures Same(Step(env, i, m1), Step(env, i, m2), dead - Writes(i), dead)
  {
    hide Agree, Put, Store, Uncaptured, CloseFrom, Prepare, Equal;
    AgreeReads(m1, m2, dead);
    var h, x := m1.heap, i.arg0;
    assert Writes(i) == {} ==> dead - Writes(i) == dead;
    match i.op
    case LINE =>
    case LOAD => PutSame(m1, m2, dead, h, x, env.lit(i.arg1));
    case LOADINT => PutSame(m1, m2, dead, h, x, env.intVal(i.arg1));
    case LOADFLOAT => PutSame(m1, m2, dead, h, x, env.floatVal(i.arg1));
    case LOADBOOL => PutSame(m1, m2, dead, h, x, Truth(i.arg1 != 0));
    case DLOAD =>
      PutSame(m1, m2, dead, h, x, env.lit(i.arg1));
      PutSame(Put(m1, x, env.lit(i.arg1)), Put(m2, x, env.lit(i.arg1)), dead - {x}, h, i.arg2, env.lit(i.arg3));
      assert dead - {x} - {i.arg2} == dead - Writes(i);
    case LOADNULLS => NullsSame(env, i, m1, m2, dead);
    case MOVE => PutSame(m1, m2, dead, h, x, m1.regs(i.arg1));
    case DMOVE =>
      var v := m1.regs(i.arg1);
      PutSame(m1, m2, dead, h, x, v);
      AgreeReads(Put(m1, x, v), Put(m2, x, v), dead - {x});
      PutSame(Put(m1, x, v), Put(m2, x, v), dead - {x}, h, i.arg2, Put(m1, x, v).regs(i.arg3));
      assert dead - {x} - {i.arg2} == dead - Writes(i);
    case GET => StoreSame(env.get(m1.regs(i.arg1), m1.regs(i.arg2), i.arg1 == 0, h), m1, m2, dead, x);
    case GETK => StoreSame(env.get(m1.regs(i.arg2), env.lit(i.arg1), i.arg2 == 0, h), m1, m2, dead, x);
    case PREPCALL => PrepareSame(env, i, m1, m2, dead, m1.regs(i.arg1));
    case PREPCALLK => PrepareSame(env, i, m1, m2, dead, env.lit(i.arg1));
    case SET =>
      var e := env.assign(m1.regs(i.arg1), m1.regs(i.arg2), m1.regs(i.arg3), i.arg1 == 0, h);
      PutSame(m1, m2, dead, e.heap, x, m1.regs(i.arg3));
    case NEWSLOT =>
      var e := env.newSlot(m1.regs(i.arg1), m1.regs(i.arg2), m1.regs(i.arg3), h);
      PutSame(m1, m2, dead, e.heap, x, m1.regs(i.arg3));
    case GETOUTER => PutSame(m1, m2, dead, h, x, m1.outers(i.arg1));
    case SETOUTER => OuterSame(env, i, m1, m2, dead);
    case EQ => EqualSame(env, i, m1, m2, dead, true);
    case NE => EqualSame(env, i, m1, m2, dead, false);
    case CMP => StoreSame(env.compare(i.arg3, m1.regs(i.arg2), m1.regs(i.arg1), h), m1, m2, dead, x);
    case MOD =>
      var e := env.arith(MOD, 0, m1.regs(i.arg2), m1.regs(i.arg1), h);
      PutSame(m1, m2, dead, e.heap, x, if e.Ok? then e.val else Null);
      if e.Ok? { AgreeMore(Put(m1.(heap := e.heap), x, e.val), Put(m2.(heap := e.heap), x, e.val), dead - {x}, dead); }
    case JCMP =>
      var e := env.compare(i.arg3, m1.regs(i.arg2), m1.regs(x), h);
      PutSame(m1, m2, dead, e.heap, x, Null);
    case JZ =>
    case APPENDARRAY =>
      PutSame(m1, m2, dead, env.append(m1.regs(x), Appended(env, i, m1), h), x, Null);
    case CLOSE => CloseSame(m1, m2, dead, i.arg1);
    case RETURN => CloseSame(m1, m2, dead, 0);
    case _ => StoreSame(env.arith(i.op, i.arg3, m1.regs(i.arg2), m1.regs(i.arg1), h), m1, m2, dead, x);
  }

  lemma NullsSame<H>(env: Env<H>, i: Instr, m1: Machine<H>, m2: Machine<H>, dead: set<int>)
    requires i.op == LOADNULLS && Agree(m1, m2, dead)
    ensures Same(Step(env, i, m1), Step(env, i, m2), dead - Writes(i), dead)
  {}

  lemma OuterSame<H>(env: Env<H>, i: Instr, m1: Machine<H>, m2: Machine<H>, dead: set<int>)
    requires i.op == SETOUTER && Agree(m1, m2, dead) && i.arg2 !in dead
    ensures Same(Step(env, i, m1), Step(env, i, m2), dead - Writes(i), dead)
  {}

  lemma CloseSame<H>(m1: Machine<H>, m2: Machine<H>, dead: set<int>, n: int)
    requires Agree(m1, m2, dead) && Uncaptured(m1, dead)
    ensures Agree(CloseFrom(m1, n), CloseFrom(m2, n), dead)
  {}

  lemma PrepareSame<H>(env: Env<H>, i: Instr, m1: Machine<H>, m2: Machine<H>, dead: set<int>, key: Val)
    requires Agree(m1, m2, dead) && i.arg2 !in dead
    ensures Same(Prepare(env, i, m1, key), Prepare(env, i, m2, key), dead - {i.arg0, i.arg3}, dead)
  {
    hide Agree, Put;
    AgreeReads(m1, m2, dead);
    var e, o := env.get(m1.regs(i.arg2), key, i.arg2 == 0, m1.heap), m1.regs(i.arg2);
    PutSame(m1, m2, dead, e.heap, i.arg3, o);
    if e.Ok? {
      var h := e.heap;
      PutSame(Put(m1.(heap := h), i.arg3, o), Put(m2.(heap := h), i.arg3, o), dead - {i.arg3}, h, i.arg0, e.val);
      assert dead - {i.arg3} - {i.arg0} == dead - {i.arg0, i.arg3};
    }
  }

  lemma EqualSame<H>(env: Env<H>, i: Instr, m1: Machine<H>, m2: Machine<H>, dead: set<int>, positive: bool)
    requires Agree(m1, m2, dead) && i.arg2 !in dead && (i.arg3 == 0 ==> i.arg1 !in dead)
    ensures Same(Equal(env, i, m1, positive), Equal(env, i, m2, positive), dead - {i.arg0}, dead)
  {
    hide Agree, Put;
    AgreeReads(m1, m2, dead);
    var e := env.equal(m1.regs(i.arg2), if i.arg3 != 0 then env.lit(i.arg1) else m1.regs(i.arg1), m1.heap);
    PutSame(m1, m2, dead, e.heap, i.arg0, if e.Ok? then Truth(env.isFalse(e.val) != positive) else Null);
  }

  // ---------- One fusion ----------

  predicate Byte(x: int) { 0 <= x < 256 }

  /** What SQInstruction can hold, with arg1 a register where the opcode takes a register there. */
  predicate Encoded(i: Instr) {
    && Byte(i.arg0) && Byte(i.arg2) && Byte(i.arg3)
    && (i.op in {MOVE, GET, CMP} ==> Byte(i.arg1))
    && (i.op == LOADBOOL ==> i.arg1 in {0, 1})
    && (i.op in {LOAD, LOADNULLS, CLOSE} ==> 0 <= i.arg1)
  }

  /** The forms in which the compiler hands instructions to the optimizer. */
  predicate Emittable(i: Instr) {
    && Encoded(i)
    && (i.op in {EQ, NE} ==> i.arg3 == 0)
    && (i.op == APPENDARRAY ==> i.arg2 == AAT_STACK)
    && (i.op == LOADNULLS ==> i.arg1 == 1)
  }

  /** The register that fusing `i` into `pi` no longer writes. */
  function Eliminated(pi: Instr, i: Instr): set<int> {
    if i.op in {JZ, GET, PREPCALL, APPENDARRAY, EQ, NE} || Pauses(pi, i) then {pi.arg0} else {}
  }

  /** The operand of `i` that must not be the register the eliminated load was for. */
  function Other(i: Instr): int {
    match i.op
    case GET => i.arg1
    case PREPCALL | EQ | NE => i.arg2
    case _ => i.arg0
  }

  /** When fusing `i` into `pi` preserves meaning: a fused JZ tests what CMP computed, the eliminated
      literal serves as one operand only, and the unguarded % is not retargeted. */
  predicate Sound(pi: Instr, i: Instr) {
    match i.op
    case JZ => i.arg0 == pi.arg0
    case GET | PREPCALL | APPENDARRAY | EQ | NE => Other(i) != pi.arg0
    case MOVE => Pauses(pi, i) && pi.op == MOD ==> i.arg0 == pi.arg0
    case _ => true
  }

  ghost predicate ModTotal<H(!new)>(env: Env<H>) { forall a, b, h :: env.arith(MOD, 0, a, b, h).Ok? }

  /** Is the fused instruction as good as the pair, from this machine? */
  ghost predicate FusedSame<H>(env: Env<H>, pi: Instr, i: Instr, f: Instr, m: Machine<H>) {
    Same(Run(env, [pi, i], m), Step(env, f, m), Eliminated(pi, i) - Writes(i), Eliminated(pi, i))
  }

  lemma RunTwo<H>(env: Env<H>, pi: Instr, i: Instr, m: Machine<H>)
    ensures var o := Step(env, pi, m); Run(env, [pi, i], m) == if o.Next? then Step(env, i, o.m) else o
  {
    hide Step;
    assert [pi, i][1..] == [i] && [i][1..] == [];
    var o := Step(env, pi, m);
    if o.Next? {
      assert Run(env, [pi, i], m) == Run(env, [i], o.m);
      var o2 := Step(env, i, o.m);
      if o2.Next? { assert Run(env, [], o2.m) == o2; }
    }
  }

  lemma FuseGet<H>(env: Env<H>, pi: Instr, i: Instr, f: Instr, locals: set<int>, m: Machine<H>)
    requires Encoded(pi) && Emittable(i) && Fuse(pi, i, locals) == Some(f) && i.op == GET && Sound(pi, i)
    ensures FusedSame(env, pi, i, f, m)
  {
    hide Run, Put, Agree;
    RunTwo(env, pi, i, m);
    var k := env.lit(pi.arg1);
    PutReads(m, pi.arg0, k, i.arg1);
    PutReads(m, pi.arg0, k, i.arg2);
    StoreApart(env.get(m.regs(i.arg1), k, i.arg1 == 0, m.heap), m, pi.arg0, k, i.arg0);
    assert Eliminated(pi, i) - Writes(i) == {pi.arg0} - {i.arg0};
  }

  lemma FusePrepare<H>(env: Env<H>, pi: Instr, i: Instr, f: Instr, locals: set<int>, m: Machine<H>)
    requires Encoded(pi) && Emittable(i) && Fuse(pi, i, locals) == Some(f) && i.op == PREPCALL && Sound(pi, i)
    ensures FusedSame(env, pi, i, f, m)
  {
    hide Run;
    RunTwo(env, pi, i, m);
  }

  lemma FuseAppend<H>(env: Env<H>, pi: Instr, i: Instr, f: Instr, locals: set<int>, m: Machine<H>)
    requires Encoded(pi) && Emittable(i) && Fuse(pi, i, locals) == Some(f) && i.op == APPENDARRAY && Sound(pi, i)
    ensures FusedSame(env, pi, i, f, m)
  {
    hide Run;
    RunTwo(env, pi, i, m);
  }

  lemma FuseEqual<H>(env: Env<H>, pi: Instr, i: Instr, f: Instr, locals: set<int>, m: Machine<H>)
    requires Encoded(pi) && Emittable(i) && Fuse(pi, i, locals) == Some(f) && i.op in {EQ, NE} && Sound(pi, i)
    ensures FusedSame(env, pi, i, f, m)
  {
    hide Run;
    RunTwo(env, pi, i, m);
  }

  lemma FuseJump<H>(env: Env<H>, pi: Instr, i: Instr, f: Instr, locals: set<int>, m: Machine<H>)
    requires Encoded(pi) && Emittable(i) && Fuse(pi, i, locals) == Some(f) && i.op == JZ && Sound(pi, i)
    ensures FusedSame(env, pi, i, f, m)
  {
    hide Run, Put, Agree;
    RunTwo(env, pi, i, m);
    var e := env.compare(pi.arg3, m.regs(pi.arg2), m.regs(pi.arg1), m.heap);
    assert Eliminated(pi, i) - Writes(i) == Eliminated(pi, i) == {pi.arg0};
    if e.Ok? {
      PutUndone(m.(heap := e.heap), pi.arg0, e.val);
    } else {
      SelfAgree(m.(heap := e.heap));
      AgreeMore(m.(heap := e.heap), m.(heap := e.heap), {}, {pi.arg0});
    }
  }

  lemma PutReads<H>(m: Machine<H>, r: int, v: Val, x: int)
    ensures Put(m, r, v).regs(x) == (if x == r then v else m.regs(x)) && Put(m, r, v).heap == m.heap
  {}

  /** The same result is stored, whether or not register r was set before. */
  lemma StoreApart<H>(e: Effect<H>, m: Machine<H>, r: int, v: Val, x: int)
    ensures Same(Store(e, Put(m, r, v), x), Store(e, m, x), {r} - {x}, {r})
  {}

  lemma PutUndone<H>(m: Machine<H>, r: int, v: Val)
    ensures Agree(Put(m, r, v), m, {r}) && Put(m, r, v).regs(r) == v
  {}

  lemma FuseReturn<H>(env: Env<H>, pi: Instr, i: Instr, f: Instr, locals: set<int>, m: Machine<H>)
    requires Encoded(pi) && Emittable(i) && Fuse(pi, i, locals) == Some(f) && i.op in {RETURN, LINE} && Sound(pi, i)
    ensures FusedSame(env, pi, i, f, m)
  {
    hide Run;
    RunTwo(env, pi, i, m);
  }

  lemma FuseLoad<H>(env: Env<H>, pi: Instr, i: Instr, f: Instr, locals: set<int>, m: Machine<H>)
    requires Encoded(pi) && Emittable(i) && Fuse(pi, i, locals) == Some(f) && i.op == LOAD && Sound(pi, i)
    ensures FusedSame(env, pi, i, f, m)
  {
    hide Run, Put, Agree;
    RunTwo(env, pi, i, m);
    var m2 := Put(Put(m, pi.arg0, env.lit(pi.arg1)), i.arg0, env.lit(i.arg1));
    assert Step(env, f, m) == Next(m2) && Eliminated(pi, i) - Writes(i) == {};
    SelfAgree(m2);
  }

  lemma FuseNulls<H>(env: Env<H>, pi: Instr, i: Instr, f: Instr, locals: set<int>, m: Machine<H>)
    requires Encoded(pi) && Emittable(i) && Fuse(pi, i, locals) == Some(f) && i.op == LOADNULLS && Sound(pi, i)
    ensures FusedSame(env, pi, i, f, m)
  {
    hide Run;
    RunTwo(env, pi, i, m);
  }

  lemma FuseMoves<H>(env: Env<H>, pi: Instr, i: Instr, f: Instr, locals: set<int>, m: Machine<H>)
    requires Encoded(pi) && Emittable(i) && Fuse(pi, i, locals) == Some(f) && i.op == MOVE && pi.op == MOVE
             && Sound(pi, i)
    ensures FusedSame(env, pi, i, f, m)
  {
    hide Run, Put;
    RunTwo(env, pi, i, m);
    var m1 := Put(m, pi.arg0, m.regs(pi.arg1));
    SelfAgree(Put(m1, i.arg0, m1.regs(i.arg1)));
    assert Step(env, f, m) == Next(Put(m1, i.arg0, m1.regs(i.arg1)));
  }

  lemma SelfAgree<H>(m: Machine<H>)
    ensures Agree(m, m, {})
  {}

  lemma FuseQuiet<H(!new)>(env: Env<H>, pi: Instr, i: Instr, f: Instr, locals: set<int>, m: Machine<H>)
    requires Encoded(pi) && Emittable(i) && Fuse(pi, i, locals) == Some(f) && Pauses(pi, i)
    requires Sound(pi, i) || ModTotal(env)
    ensures FusedSame(env, pi, i, f, m)
  {
    hide Run;
    RunTwo(env, pi, i, m);
  }

  /** Every fusion whose side condition holds preserves meaning, whatever the objects do. */
  lemma FuseOk<H(!new)>(env: Env<H>, pi: Instr, i: Instr, f: Instr, locals: set<int>, m: Machine<H>)
    requires Encoded(pi) && Emittable(i) && Fuse(pi, i, locals) == Some(f)
    requires Sound(pi, i) || (i.op == MOVE && ModTotal(env))
    ensures FusedSame(env, pi, i, f, m)
  {
    hide FusedSame, ModTotal;
    match i.op
    case GET => FuseGet(env, pi, i, f, locals, m);
    case PREPCALL => FusePrepare(env, pi, i, f, locals, m);
    case APPENDARRAY => FuseAppend(env, pi, i, f, locals, m);
    case EQ => FuseEqual(env, pi, i, f, locals, m);
    case NE => FuseEqual(env, pi, i, f, locals, m);
    case JZ => FuseJump(env, pi, i, f, locals, m);
    case LOAD => FuseLoad(env, pi, i, f, locals, m);
    case LOADNULLS => FuseNulls(env, pi, i, f, locals, m);
    case MOVE => if Pauses(pi, i) { FuseQuiet(env, pi, i, f, locals, m); } else { FuseMoves(env, pi, i, f, locals, m); }
    case _ => FuseReturn(env, pi, i, f, locals, m);
  }

  /** Objects and a machine that tell the two apart when the side condition fails: null is false,
      and every operation shows in its result or in the heap whether its object is null. */
  const Probe: Env<int> := Env(
    (k: int) => Thing(k), (k: int) => Thing(k), (k: int) => Thing(k), (v: Val) => v == Null,
    (o: Val, k: Val, b: bool, h: int) => if o == Null then Err(h) else Ok(o, h),
    (o: Val, k: Val, v: Val, b: bool, h: int) => Ok(v, h),
    (o: Val, k: Val, v: Val, h: int) => Ok(v, h),
    (x: Val, y: Val, h: int) => if x == Null then Err(h) else Ok(x, h),
    (c: int, x: Val, y: Val, h: int) => Ok(Thing(c), h),
    (op: Op, k: int, x: Val, y: Val, h: int) => if op == MOD then Err(h) else Ok(x, h),
    (a: Val, v: Val, h: int) => if a == Null then h else h + 1)

  /** Register r holds null and every other register something else. */
  function NullIn(r: int): Machine<int> {
    Machine((x: int) => if x == r then Null else Thing(x), (x: int) => Null, (c: int) => Closed(Null), 0)
  }

  lemma FuseBrokenJump(pi: Instr, i: Instr, f: Instr, locals: set<int>)
    requires Encoded(pi) && Emittable(i) && Fuse(pi, i, locals) == Some(f) && !Sound(pi, i) && i.op == JZ
    ensures !FusedSame(Probe, pi, i, f, NullIn(i.arg0))
  {
    hide Run, Agree;
    var m := NullIn(i.arg0);
    RunTwo(Probe, pi, i, m);
    var o1, o2 := Run(Probe, [pi, i], m), Step(Probe, f, m);
    assert o1.Jump? && o2.Next?;
  }

  /** Rules that take a loaded literal into the instruction behind the load. */
  predicate TakesLiteral(i: Instr) { i.op in {GET, PREPCALL, EQ, NE} }

  /** The fused instruction finds null in the register that the load would have overwritten. */
  lemma LiteralThrows(pi: Instr, i: Instr, f: Instr, locals: set<int>)
    requires Encoded(pi) && Emittable(i) && Fuse(pi, i, locals) == Some(f) && !Sound(pi, i) && TakesLiteral(i)
    ensures Step(Probe, f, NullIn(pi.arg0)).Thrown?
    ensures pi.op == LOAD && Other(i) == pi.arg0
  {
    LiteralForm(pi, i, f, locals);
    hide Put, Step, Fuse, Encoded, Emittable, NullIn;
    NullThrows(f);
  }

  lemma LiteralForm(pi: Instr, i: Instr, f: Instr, locals: set<int>)
    requires Encoded(pi) && Emittable(i) && Fuse(pi, i, locals) == Some(f) && !Sound(pi, i) && TakesLiteral(i)
    ensures pi.op == LOAD && Other(i) == pi.arg0 == f.arg2
    ensures f.op in {GETK, PREPCALLK, EQ, NE} && (f.op in {EQ, NE} ==> f.arg3 != 0)
  {}

  lemma NullThrows(f: Instr)
    requires f.op in {GETK, PREPCALLK, EQ, NE} && (f.op in {EQ, NE} ==> f.arg3 != 0)
    ensures Step(Probe, f, NullIn(f.arg2)).Thrown?
  {
    hide Put;
    var m := NullIn(f.arg2);
    assert m.regs(f.arg2) == Null;
    hide NullIn;
  }

  lemma LoadStep(pi: Instr, m: Machine<int>)
    requires pi.op == LOAD
    ensures Step(Probe, pi, m) == Next(Put(m, pi.arg0, Thing(pi.arg1)))
  {}

  lemma LiteralGoes(i: Instr, m: Machine<int>)
    requires TakesLiteral(i) && m.regs(Other(i)) != Null && (i.op in {EQ, NE} ==> i.arg3 == 0)
    ensures Step(Probe, i, m).Next?
  {
    hide Put;
  }

  lemma FuseBrokenLiteral(pi: Instr, i: Instr, f: Instr, locals: set<int>)
    requires Encoded(pi) && Emittable(i) && Fuse(pi, i, locals) == Some(f) && !Sound(pi, i) && TakesLiteral(i)
    ensures !FusedSame(Probe, pi, i, f, NullIn(pi.arg0))
  {
    hide Run, Agree, Put, Step;
    var m := NullIn(pi.arg0);
    RunTwo(Probe, pi, i, m);
    LiteralThrows(pi, i, f, locals);
    LoadStep(pi, m);
    PutUndone(m, pi.arg0, Thing(pi.arg1));
    LiteralGoes(i, Put(m, pi.arg0, Thing(pi.arg1)));
  }

  lemma FuseBrokenAppend(pi: Instr, i: Instr, f: Instr, locals: set<int>)
    requires Encoded(pi) && Emittable(i) && Fuse(pi, i, locals) == Some(f) && !Sound(pi, i) && i.op == APPENDARRAY
    ensures !FusedSame(Probe, pi, i, f, NullIn(pi.arg0))
  {
    hide Run, Agree;
    var m := NullIn(pi.arg0);
    RunTwo(Probe, pi, i, m);
    var o1, o2 := Run(Probe, [pi, i], m), Step(Probe, f, m);
    assert o1.Next? && o2.Next? && o1.m.heap == 1 && o2.m.heap == 0;
    if Agree(o1.m, o2.m, Eliminated(pi, i) - Writes(i)) { AgreeReads(o1.m, o2.m, Eliminated(pi, i) - Writes(i)); }
  }

  lemma FuseBrokenMove(pi: Instr, i: Instr, f: Instr, locals: set<int>)
    requires Encoded(pi) && Emittable(i) && Fuse(pi, i, locals) == Some(f) && !Sound(pi, i) && i.op == MOVE
    ensures !FusedSame(Probe, pi, i, f, NullIn(pi.arg0))
  {
    hide Run, Agree;
    var m := NullIn(pi.arg0);
    RunTwo(Probe, pi, i, m);
    var o1, o2 := Run(Probe, [pi, i], m), Step(Probe, f, m);
    assert o1.Next? && o2.Next? && o1.m.regs(i.arg0) == Null && o2.m.regs(i.arg0) == Thing(i.arg0);
    if Agree(o1.m, o2.m, Eliminated(pi, i) - Writes(i)) { AgreeReads(o1.m, o2.m, Eliminated(pi, i) - Writes(i)); }
  }

  lemma FuseBroken(pi: Instr, i: Instr, f: Instr, locals: set<int>)
    requires Encoded(pi) && Emittable(i) && Fuse(pi, i, locals) == Some(f) && !Sound(pi, i)
    ensures !FusedSame(Probe, pi, i, f, NullIn(if i.op == JZ then i.arg0 else pi.arg0))
  {
    hide FusedSame;
    match i.op
    case JZ => FuseBrokenJump(pi, i, f, locals);
    case APPENDARRAY => FuseBrokenAppend(pi, i, f, locals);
    case MOVE => FuseBrokenMove(pi, i, f, locals);
    case _ => FuseBrokenLiteral(pi, i, f, locals);
  }

  ghost predicate AlwaysSame(pi: Instr, i: Instr, f: Instr) {
    forall env: Env<int>, m: Machine<int> :: FusedSame(env, pi, i, f, m)
  }

  /** The side conditions are exact: fusing preserves meaning for all objects and machines if and
      only if they hold. */
  lemma FuseExact(pi: Instr, i: Instr, f: Instr, locals: set<int>)
    requires Encoded(pi) && Emittable(i) && Fuse(pi, i, locals) == Some(f)
    ensures AlwaysSame(pi, i, f) <==> Sound(pi, i)
  {
    hide FusedSame, Sound;
    if Sound(pi, i) {
      forall env: Env<int>, m: Machine<int> ensures FusedSame(env, pi, i, f, m) { FuseOk(env, pi, i, f, locals, m); }
    } else {
      FuseBroken(pi, i, f, locals);
    }
  }

  /** A fused or trimmed instruction can be a partner of the next one. */
  lemma FuseEncoded(pi: Instr, i: Instr, f: Instr, locals: set<int>)
    requires Encoded(pi) && Emittable(i) && Fuse(pi, i, locals) == Some(f)
    ensures Encoded(f)
  {}

  // ---------- What comparing for equality tells ----------

  /** Comparing reports whether two values are equal, and truth values read as what they are. */
  ghost predicate Tells<H(!new)>(env: Env<H>) {
    && (forall x, y, h :: env.equal(x, y, h).Ok? && (env.isFalse(env.equal(x, y, h).val) <==> x != y))
    && env.isFalse(Bool(0)) && !env.isFalse(Bool(1))
  }

  /** EQ leaves something true exactly if its operands are equal, NE exactly if they differ; in arg3 they say
      whether arg1 is a literal or a register. */
  lemma EqualTells<H(!new)>(env: Env<H>, i: Instr, m: Machine<H>)
    requires Tells(env) && (i.op == EQ || i.op == NE)
    ensures var o := Step(env, i, m);
      var x, y := m.regs(i.arg2), if i.arg3 == 0 then m.regs(i.arg1) else env.lit(i.arg1);
      && o.Next? && (forall r :: r != i.arg0 ==> o.m.regs(r) == m.regs(r))
      && (i.op == EQ ==> (env.isFalse(o.m.regs(i.arg0)) <==> x != y))
      && (i.op == NE ==> (env.isFalse(o.m.regs(i.arg0)) <==> x == y))
  {}

  /** Fused with the load of a literal, they tell the same about the register and the literal. */
  lemma FusedEqualTells<H(!new)>(env: Env<H>, k: int, t: int, i: Instr, m: Machine<H>, isLocal: set<int>)
    requires Tells(env) && (i.op == EQ || i.op == NE) && i.arg1 == t && t !in isLocal
    ensures var f := Fuse(Instr(LOAD, t, k, 0, 0), i, isLocal);
      && f.Some? && var o := Step(env, f.value, m);
      && o.Next? && (forall r :: r != i.arg0 ==> o.m.regs(r) == m.regs(r))
      && (i.op == EQ ==> (env.isFalse(o.m.regs(i.arg0)) <==> m.regs(i.arg2) != env.lit(k)))
      && (i.op == NE ==> (env.isFalse(o.m.regs(i.arg0)) <==> m.regs(i.arg2) == env.lit(k)))
  {
    EqualTells(env, Fuse(Instr(LOAD, t, k, 0, 0), i, isLocal).value, m);
  }

  /** What some pairs become. */
  lemma FuseExamples(t: int, locals: set<int>)
    requires t !in locals
    ensures Fuse(Instr(CMP, t, 1, 2, 7), Instr(JZ, t, 5, 0, 0), locals) == Some(Instr(JCMP, 1, 5, 2, 7))
    ensures Fuse(Instr(CLOSE, 0, 3, 0, 0), Instr(RETURN, 1, 4, 0, 0), locals) == Some(Instr(RETURN, 1, 4, 0, 0))
    ensures Fuse(Instr(LOAD, t, 1, 0, 0), Instr(GET, 8, 2, t, 0), locals) == Some(Instr(GETK, 8, 1, 2, 0))
    ensures Fuse(Instr(LOAD, t, 1, 0, 0), Instr(PREPCALL, 8, t, 2, 7), locals) == Some(Instr(PREPCALLK, 8, 1, 2, 7))
    ensures Fuse(Instr(LOADINT, t, 1, 0, 0), Instr(APPENDARRAY, 8, t, 0, 0), locals) ==
            Some(Instr(APPENDARRAY, 8, 1, 2, 255))
  {}

  lemma MoreFuseExamples(t: int, locals: set<int>)
    requires t in locals
    ensures Fuse(Instr(ADD, 9, 1, 2, 0), Instr(MOVE, t, 9, 0, 0), locals) == Some(Instr(ADD, t, 1, 2, 0))
    ensures Fuse(Instr(MOVE, 8, 1, 0, 0), Instr(MOVE, t, 2, 0, 0), locals) == Some(Instr(DMOVE, 8, 1, t, 2))
    ensures Fuse(Instr(LOAD, 8, 1, 0, 0), Instr(LOAD, 9, 2, 0, 0), locals) == Some(Instr(DLOAD, 8, 1, 9, 2))
    ensures Fuse(Instr(LOADNULLS, 8, 1, 0, 0), Instr(LOADNULLS, 9, 1, 0, 0), locals) ==
            Some(Instr(LOADNULLS, 8, 2, 0, 0))
    ensures Fuse(Instr(LOAD, t, 1, 0, 0), Instr(GET, 8, 2, t, 0), locals) == None
    ensures Fuse(Instr(LOAD, 8, 1, 0, 0), Instr(LOAD, 9, 256, 0, 0), locals) == None
  {}

  // ---------- An instruction that is not fused ----------

  /** JZ falls into the rule for SET, so a test of the register named by its unused arg3 is lost. */
  predicate TrimSound(i: Instr) { i.op == JZ ==> i.arg0 != i.arg3 || i.arg0 == NONE }

  lemma TrimOk<H>(env: Env<H>, i: Instr, m: Machine<H>)
    requires TrimSound(i)
    ensures Same(Step(env, i, m), Step(env, Trim(i), m), {}, {})
  {}

  ghost predicate TrimSame(i: Instr) {
    forall env: Env<int>, m: Machine<int> :: Same(Step(env, i, m), Step(env, Trim(i), m), {}, {})
  }

  lemma TrimBroken(i: Instr)
    requires !TrimSound(i)
    ensures !Same(Step(Probe, i, NullIn(i.arg0)), Step(Probe, Trim(i), NullIn(i.arg0)), {}, {})
  {}

  /** The change made to an instruction that is not fused is harmless exactly when it is not a JZ
      on the register in its arg3 (register 0 as the compiler emits JZ). */
  lemma TrimExact(i: Instr)
    ensures TrimSame(i) <==> TrimSound(i)
  {
    hide Step, Same, TrimSound;
    if TrimSound(i) {
      forall env: Env<int>, m: Machine<int> ensures Same(Step(env, i, m), Step(env, Trim(i), m), {}, {}) {
        TrimOk(env, i, m);
      }
    } else {
      TrimBroken(i);
    }
  }

  // ---------- Whole streams ----------

  /** What the compiler does to the function state: emit an instruction, the registers in `locals`
      being local variables at that point, or discard the target on top of the target stack. */
  datatype Action = Emit(i: Instr, locals: set<int>) | Discard(target: int)

  /** The emitted code, the registers that do not hold what they would without the optimizer, and
      all registers for which that was ever so. */
  datatype Track = Track(e: Emitted, dead: set<int>, ever: set<int>)

  predicate Looks(e: Emitted) { e.code != [] && e.optimization }

  function Last(e: Emitted): Instr
    requires Looks(e)
  {
    e.code[|e.code| - 1]
  }

  function Feed(t: Track, a: Action): Track {
    match a
    case Emit(i, locals) =>
      var gone := if Looks(t.e) && Fuse(Last(t.e), i, locals).Some? then Eliminated(Last(t.e), i) else {};
      Track(Add(t.e, i, locals), t.dead - Writes(i) + (gone - Writes(i)), t.ever + gone)
    case Discard(target) =>
      var gone := if Looks(t.e) && Drops(Last(t.e), target) then {target} else {};
      if Looks(t.e) then Track(t.e.(code := Discarded(t.e.code, target)), t.dead + gone, t.ever + gone) else t
  }

  /** The compiler keeps to its side: a register whose store was eliminated is not read before it is
      written again, and the instruction meets the side condition of the rule that takes it. */
  ghost predicate Allowed<H(!new)>(env: Env<H>, t: Track, a: Action) {
    a.Emit? ==>
      && Emittable(a.i) && Reads(a.i) !! t.dead
      && (Looks(t.e) ==>
            if Fuse(Last(t.e), a.i, a.locals).Some? then Sound(Last(t.e), a.i) || (a.i.op == MOVE && ModTotal(env))
            else TrimSound(a.i))
  }

  function Emission(actions: seq<Action>): Track {
    if actions == [] then Track(Emitted([], true), {}, {})
    else Feed(Emission(actions[..|actions| - 1]), actions[|actions| - 1])
  }

  ghost predicate AllAllowed<H(!new)>(env: Env<H>, actions: seq<Action>) {
    actions != [] ==>
      AllAllowed(env, actions[..|actions| - 1])
          && Allowed(env, Emission(actions[..|actions| - 1]), actions[|actions| - 1])
  }

  /** The code as it would be without an optimizer. */
  function Plain(actions: seq<Action>): seq<Instr> {
    if actions == [] then [] else
    var a := actions[|actions| - 1];
    Plain(actions[..|actions| - 1]) + if a.Emit? then [a.i] else []
  }

  lemma {:induction false} RunAppend<H>(env: Env<H>, code: seq<Instr>, i: Instr, m: Machine<H>)
    ensures Run(env, code + [i], m) == (var o := Run(env, code, m); if o.Next? then Step(env, i, o.m) else o)
    decreases |code|
  {
    hide Step;
    if code == [] {
      var o := Step(env, i, m);
      assert (code + [i])[1..] == [];
      if o.Next? { assert Run(env, [], o.m) == o; }
    } else {
      assert (code + [i])[1..] == code[1..] + [i];
      var o := Step(env, code[0], m);
      if o.Next? { RunAppend(env, code[1..], i, o.m); }
    }
  }

  lemma {:induction false} RunUncaptured<H>(env: Env<H>, code: seq<Instr>, m: Machine<H>, regs: set<int>)
    requires Uncaptured(m, regs)
    ensures Uncaptured(Run(env, code, m).m, regs)
    decreases |code|
  {
    hide Step, Uncaptured;
    if code != [] {
      StepUncaptured(env, code[0], m, regs);
      var o := Step(env, code[0], m);
      if o.Next? { RunUncaptured(env, code[1..], o.m, regs); }
    }
  }

  lemma StepUncaptured<H>(env: Env<H>, i: Instr, m: Machine<H>, regs: set<int>)
    requires Uncaptured(m, regs)
    ensures Uncaptured(Step(env, i, m).m, regs)
  {}

  lemma SameMore<H>(a: Outcome<H>, b: Outcome<H>, dead: set<int>, ever: set<int>, dead2: set<int>, ever2: set<int>)
    requires Same(a, b, dead, ever) && (a.Next? ==> dead <= dead2) && ever <= ever2
    ensures Same(a, b, dead2, ever2)
  {}

  /** Both codes go on with the same instruction. */
  lemma ThenSame<H>(env: Env<H>, c1: seq<Instr>, c2: seq<Instr>, i: Instr, m: Machine<H>, dead: set<int>,
                    ever: set<int>)
    requires Same(Run(env, c1, m), Run(env, c2, m), dead, ever) && dead <= ever
    requires Uncaptured(m, ever) && Reads(i) !! dead
    ensures Same(Run(env, c1 + [i], m), Run(env, c2 + [i], m), dead - Writes(i), ever)
  {
    hide Step, Agree, Uncaptured, Run, Reads, Writes;
    RunAppend(env, c1, i, m);
    RunAppend(env, c2, i, m);
    var o1, o2 := Run(env, c1, m), Run(env, c2, m);
    if o1.Next? {
      RunUncaptured(env, c1, m, ever);
      UncapturedLess(o1.m, ever, dead);
      StepSame(env, i, o1.m, o2.m, dead);
      SameMore(Step(env, i, o1.m), Step(env, i, o2.m), dead - Writes(i), dead, dead - Writes(i), ever);
    }
  }

  lemma UncapturedLess<H>(m: Machine<H>, regs: set<int>, fewer: set<int>)
    requires Uncaptured(m, regs) && fewer <= regs
    ensures Uncaptured(m, fewer)
  {}

  /** Replacing the last instruction by one that does the same up to `dead`. */
  lemma LastSame<H>(env: Env<H>, c: seq<Instr>, i: Instr, j: Instr, m: Machine<H>, dead: set<int>, ever: set<int>)
    requires forall m1: Machine<H> :: Same(Step(env, i, m1), Step(env, j, m1), dead, ever)
    ensures Same(Run(env, c + [i], m), Run(env, c + [j], m), dead, ever)
  {
    hide Step, Agree, Run;
    RunAppend(env, c, i, m);
    RunAppend(env, c, j, m);
    var o := Run(env, c, m);
    if o.Next? { assert Same(Step(env, i, o.m), Step(env, j, o.m), dead, ever); }
    else { SelfAgree(o.m); AgreeMore(o.m, o.m, {}, ever); }
  }

  /** Replacing the last two instructions by the fused one. */
  lemma FusedLast<H(!new)>(env: Env<H>, c: seq<Instr>, pi: Instr, i: Instr, f: Instr, locals: set<int>, m: Machine<H>)
    requires Encoded(pi) && Emittable(i) && Fuse(pi, i, locals) == Some(f)
    requires Sound(pi, i) || (i.op == MOVE && ModTotal(env))
    ensures Same(Run(env, c + [pi] + [i], m), Run(env, c + [f], m), Eliminated(pi, i) - Writes(i), Eliminated(pi, i))
  {
    hide Step, Agree, Run, Sound, ModTotal, Fuse, Eliminated, Writes;
    RunAppend(env, c + [pi], i, m);
    RunAppend(env, c, pi, m);
    RunAppend(env, c, f, m);
    var o := Run(env, c, m);
    if o.Next? { FuseOk(env, pi, i, f, locals, o.m); RunTwo(env, pi, i, o.m); }
    else { SelfAgree(o.m); AgreeMore(o.m, o.m, {}, Eliminated(pi, i)); }
  }

  lemma DiscardOk<H>(env: Env<H>, pi: Instr, target: int, m: Machine<H>)
    requires Drops(pi, target)
    ensures Same(Step(env, pi, m), Step(env, pi.(arg0 := NONE), m), {target}, {target})
  {}

  lemma TrimEncoded()
    ensures forall i :: Emittable(i) ==> Encoded(i) && Encoded(Trim(i))
    ensures forall i, target: int :: Encoded(i) && Drops(i, target) ==> Encoded(i.(arg0 := NONE))
  {}

  ghost predicate AllEncoded(code: seq<Instr>) { forall k :: 0 <= k < |code| ==> Encoded(code[k]) }

  lemma {:induction false} EmissionShape<H(!new)>(env: Env<H>, actions: seq<Action>)
    requires AllAllowed(env, actions)
    ensures var t := Emission(actions); AllEncoded(t.e.code) && t.dead <= t.ever
    decreases |actions|
  {
    if actions != [] {
      hide Fuse, Sound, Reads, Writes, Eliminated, ModTotal, Encoded, Emittable, Trim, TrimSound;
      TrimEncoded();
      var before, a := actions[..|actions| - 1], actions[|actions| - 1];
      EmissionShape(env, before);
      var t := Emission(before);
      if a.Emit? && Looks(t.e) {
        var fused := Fuse(Last(t.e), a.i, a.locals);
        if fused.Some? { FuseEncoded(Last(t.e), a.i, fused.value, a.locals); }
      }
    }
  }

  /** One more action keeps the two codes in agreement. */
  lemma FeedSame<H(!new)>(env: Env<H>, plain: seq<Instr>, t: Track, a: Action, m: Machine<H>)
    requires Allowed(env, t, a) && AllEncoded(t.e.code) && t.dead <= t.ever
    requires Uncaptured(m, Feed(t, a).ever)
    requires Same(Run(env, plain, m), Run(env, t.e.code, m), t.dead, t.ever)
    ensures var t2 := Feed(t, a);
      Same(Run(env, plain + if a.Emit? then [a.i] else [], m), Run(env, t2.e.code, m), t2.dead, t2.ever)
  {
    hide Run, Step, Agree, Same, Uncaptured, Fuse, Sound, ModTotal, Reads, Writes, Eliminated, Encoded;
    var t2, code := Feed(t, a), t.e.code;
    UncapturedLess(m, t2.ever, t.ever);
    match a
    case Discard(target) =>
      assert plain + [] == plain;
      if Looks(t.e) { DiscardSame(env, plain, t, target, m); }
    case Emit(i, locals) =>
      ThenSame(env, plain, code, i, m, t.dead, t.ever);
      var mid := Run(env, code + [i], m);
      if Looks(t.e) && Fuse(Last(t.e), i, locals).Some? {
        var c, pi, f := code[..|code| - 1], Last(t.e), Fuse(Last(t.e), i, locals).value;
        assert c + [pi] == code;
        FusedLast(env, c, pi, i, f, locals, m);
        SameTrans(Run(env, plain + [i], m), mid, Run(env, c + [f], m), t.dead - Writes(i), t.ever,
          Eliminated(pi, i) - Writes(i), Eliminated(pi, i));
      } else {
        var j := if Looks(t.e) then Trim(i) else i;
        forall m1: Machine<H> ensures Same(Step(env, i, m1), Step(env, j, m1), {}, {}) {
          if Looks(t.e) { TrimOk(env, i, m1); } else { SelfSame(Step(env, i, m1)); }
        }
        LastSame(env, code, i, j, m, {}, {});
        SameTrans(Run(env, plain + [i], m), mid, Run(env, code + [j], m), t.dead - Writes(i), t.ever, {}, {});
        assert t.dead - Writes(i) + {} == t2.dead && t.ever + {} == t2.ever;
      }
  }

  lemma SelfSame<H>(o: Outcome<H>)
    ensures Same(o, o, {}, {})
  {}

  lemma DiscardSame<H>(env: Env<H>, plain: seq<Instr>, t: Track, target: int, m: Machine<H>)
    requires Looks(t.e) && Same(Run(env, plain, m), Run(env, t.e.code, m), t.dead, t.ever)
    ensures var t2 := Feed(t, Discard(target)); Same(Run(env, plain, m), Run(env, t2.e.code, m), t2.dead, t2.ever)
  {
    hide Run, Step, Agree, Same;
    var c, pi := t.e.code[..|t.e.code| - 1], Last(t.e);
    var gone, j := if Drops(pi, target) then {target} else {}, if Drops(pi, target) then pi.(arg0 := NONE) else pi;
    assert c + [pi] == t.e.code;
    forall m1: Machine<H> ensures Same(Step(env, pi, m1), Step(env, j, m1), gone, gone) {
      if Drops(pi, target) { DiscardOk(env, pi, target, m1); } else { SelfSame(Step(env, pi, m1)); }
    }
    LastSame(env, c, pi, j, m, gone, gone);
    SameTrans(Run(env, plain, m), Run(env, t.e.code, m), Run(env, c + [j], m), t.dead, t.ever, gone, gone);
  }

  /** The optimizer preserves meaning: for every straight-line stream whose actions meet the side
      conditions, what it leaves behind ends in the same way as the plain stream (falls through, jumps
      by the same offset, throws, or returns the same value) with the same heap, outers, captured
      variables and registers, apart from the registers whose stores were eliminated. */
  lemma {:induction false} StreamPreserved<H(!new)>(env: Env<H>, actions: seq<Action>, m: Machine<H>)
    requires AllAllowed(env, actions) && Uncaptured(m, Emission(actions).ever)
    ensures var t := Emission(actions);
      Same(Run(env, Plain(actions), m), Run(env, t.e.code, m), t.dead, t.ever)
    decreases |actions|
  {
    hide Run, Step, Same, Uncaptured, Feed, Allowed;
    if actions == [] {
      SelfSame(Run(env, [], m));
    } else {
      var before, a := actions[..|actions| - 1], actions[|actions| - 1];
      var t := Emission(before);
      EmissionShape(env, before);
      EverGrows(t, a);
      UncapturedLess(m, Feed(t, a).ever, t.ever);
      StreamPreserved(env, before, m);
      FeedSame(env, Plain(before), t, a, m);
    }
  }

  lemma EverGrows(t: Track, a: Action)
    ensures t.ever <= Feed(t, a).ever
  {}
}
