/** Bytecode streams: the format in which function prototypes are saved, and the parser that
    loads them.  Sizes are those of a 32-bit build with one-byte characters. */
module Serial {
  type byte = x: int | 0 <= x < 256

  /** What remains of the input after a successful read. */
  datatype Parsed<T> = Fail | Done(value: T, rest: seq<byte>)
  {
    predicate IsFailure() { Fail? }
    function PropagateFailure<U>(): Parsed<U> requires Fail? { Parsed<U>.Fail }
    function Extract(): (T, seq<byte>) requires Done? { (value, rest) }
  }

  const INT_SIZE := 4
  const FLOAT_SIZE := 4
  const CHAR_SIZE := 1
  const RANGE := 0x1_0000_0000

  // 'SQIR', 'PART', 'TAIL'
  const HEAD := 0x53514952
  const PART := 0x50415254
  const TAIL := 0x5441494C

  const OT_NULL := 0x01000001
  const OT_INTEGER := 0x05000002
  const OT_FLOAT := 0x05000004
  const OT_STRING := 0x08000010

  // ---------- Data ----------

  /** A literal or a name.  Only the first four kinds can be saved. */
  datatype Obj = Null | Integer(i: int) | Float(raw: seq<byte>) | String(chars: seq<byte>) | Other(tag: int)

  datatype Outer = Outer(kind: int, src: Obj, name: Obj)
  datatype Local = Local(name: Obj, pos: int, start: int, end: int)
  datatype Line = Line(line: int, op: int)
  datatype Instr = Instr(arg1: int, op: byte, arg0: byte, arg2: byte, arg3: byte)

  datatype Proto = Proto(
    source: Obj, name: Obj,
    literals: seq<Obj>, parameters: seq<Obj>, outers: seq<Outer>, locals: seq<Local>,
    lines: seq<Line>, defaults: seq<int>, code: seq<Instr>, functions: seq<Proto>,
    stackSize: int, generator: bool, varParams: int)

  /** What fits the machine types. */
  predicate IsInt(i: int) { -(RANGE / 2) <= i < RANGE / 2 }

  predicate IsUnsigned(i: int) { 0 <= i < RANGE }

  predicate Saveable(o: Obj) {
    match o
    case Null => true
    case Integer(i) => IsInt(i)
    case Float(raw) => |raw| == FLOAT_SIZE
    case String(cs) => IsInt(|cs|)
    case Other(_) => false
  }

  predicate SaveableOuter(o: Outer) { IsUnsigned(o.kind) && Saveable(o.src) && Saveable(o.name) }

  predicate SaveableLocal(l: Local) {
    Saveable(l.name) && IsUnsigned(l.pos) && IsUnsigned(l.start) && IsUnsigned(l.end)
  }

  predicate SaveableLine(l: Line) { IsInt(l.line) && IsInt(l.op) }

  predicate SaveableInstr(i: Instr) { IsInt(i.arg1) }

  /** Prototypes whose literals, names and nested functions can all be saved. */
  predicate SaveableProto(p: Proto) {
    && Saveable(p.source) && Saveable(p.name) && IsInt(p.stackSize) && IsInt(p.varParams)
    && IsInt(|p.literals|) && IsInt(|p.parameters|) && IsInt(|p.outers|) && IsInt(|p.locals|)
    && IsInt(|p.lines|) && IsInt(|p.defaults|) && IsInt(|p.code|) && IsInt(|p.functions|)
    && (forall o :: o in p.literals ==> Saveable(o)) && (forall o :: o in p.parameters ==> Saveable(o))
    && (forall o :: o in p.outers ==> SaveableOuter(o)) && (forall l :: l in p.locals ==> SaveableLocal(l))
    && (forall l :: l in p.lines ==> SaveableLine(l)) && (forall d :: d in p.defaults ==> IsInt(d))
    && (forall i :: i in p.code ==> SaveableInstr(i)) && (forall f :: f in p.functions ==> SaveableProto(f))
  }

  // ---------- Integers ----------

  /** Little-endian, `w` bytes. */
  function Bytes(n: nat, w: nat): (r: seq<byte>)
    ensures |r| == w
    decreases w
  {
    if w == 0 then [] else [n % 256] + Bytes(n / 256, w - 1)
  }

  function Number(s: seq<byte>): (n: nat) {
    if s == [] then 0 else s[0] + 256 * Number(s[1..])
  }

  function WriteUnsigned(i: int): (r: seq<byte>)
    ensures |r| == INT_SIZE
  {
    Bytes(i % RANGE, INT_SIZE)
  }

  function WriteInt(i: int): (r: seq<byte>)
    ensures |r| == INT_SIZE
  {
    WriteUnsigned(i)
  }

  function ReadBytes(s: seq<byte>, n: int): (res: Parsed<seq<byte>>)
    ensures res.Done? ==> |res.rest| <= |s|
  {
    if 0 <= n <= |s| then Done(s[..n], s[n..]) else Fail
  }

  function ReadUnsigned(s: seq<byte>): (res: Parsed<int>)
    ensures res.Done? ==> |res.rest| <= |s| - INT_SIZE
  {
    var (b, r) :- ReadBytes(s, INT_SIZE);
    Done(Number(b), r)
  }

  function ReadInt(s: seq<byte>): (res: Parsed<int>)
    ensures res.Done? ==> |res.rest| <= |s| - INT_SIZE
  {
    var (n, r) :- ReadUnsigned(s);
    Done(if n < RANGE / 2 then n else n - RANGE, r)
  }

  lemma {:induction false} BytesNumber(n: nat)
    requires n < RANGE
    ensures Number(Bytes(n, INT_SIZE)) == n
  {
    var a, b, c := n / 256, n / 256 / 256, n / 256 / 256 / 256;
    assert Bytes(n, 4) == [n % 256] + Bytes(a, 3) && Bytes(a, 3) == [a % 256] + Bytes(b, 2);
    assert Bytes(b, 2) == [b % 256] + Bytes(c, 1) && Bytes(c, 1) == [c % 256] + Bytes(c / 256, 0);
    assert Number([c % 256]) == c % 256 + 256 * Number([c % 256][1..]);
    assert Number(Bytes(c, 1)) == c;
    assert Bytes(b, 2)[1..] == Bytes(c, 1);
    assert Number(Bytes(b, 2)) == b;
    assert Bytes(a, 3)[1..] == Bytes(b, 2);
    assert Number(Bytes(a, 3)) == a;
    assert Bytes(n, 4)[1..] == Bytes(a, 3);
  }

  lemma UnsignedRound(i: int, t: seq<byte>)
    requires IsUnsigned(i)
    ensures ReadUnsigned(WriteUnsigned(i) + t) == Done(i, t)
  {
    BytesNumber(i);
    assert (WriteUnsigned(i) + t)[..INT_SIZE] == WriteUnsigned(i) && (WriteUnsigned(i) + t)[INT_SIZE..] == t;
  }

  lemma IntRound(i: int, t: seq<byte>)
    requires IsInt(i)
    ensures ReadInt(WriteInt(i) + t) == Done(i, t)
  {
    BytesNumber(i % RANGE);
    assert (WriteInt(i) + t)[..INT_SIZE] == WriteInt(i) && (WriteInt(i) + t)[INT_SIZE..] == t;
  }

  // ---------- Laws of readers and writers ----------

  /** Reading what was written gives back the value and exactly what follows. */
  ghost predicate Exact<T(!new)>(write: T -> seq<byte>, read: seq<byte> -> Parsed<T>, x: T) {
    forall t :: read(write(x) + t) == Done(x, t)
  }

  /** A successful read does not look at what follows, and consumes a prefix. */
  ghost predicate Steady<T(!new)>(read: seq<byte> -> Parsed<T>) {
    forall s, t {:trigger read(s + t)} :: read(s).Done? ==> read(s + t) == Done(read(s).value, read(s).rest + t)
  }

  // ---------- Tags, objects and records ----------

  function WriteTag(tag: int): seq<byte> { WriteUnsigned(tag) }

  function ReadTag(tag: int, s: seq<byte>): (res: Parsed<()>)
    ensures res.Done? ==> |res.rest| <= |s| - INT_SIZE
  {
    var (t, r) :- ReadUnsigned(s);
    if t == tag then Done((), r) else Fail
  }

  function WriteObj(o: Obj): seq<byte> {
    match o
    case Null => WriteTag(OT_NULL)
    case Integer(i) => WriteTag(OT_INTEGER) + WriteInt(i)
    case Float(raw) => WriteTag(OT_FLOAT) + raw
    case String(cs) => WriteTag(OT_STRING) + WriteInt(|cs|) + cs
    case Other(tag) => WriteTag(tag)
  }

  function ReadObj(s: seq<byte>): (res: Parsed<Obj>)
    ensures res.Done? ==> |res.rest| <= |s| - INT_SIZE
  {
    var (tag, r) :- ReadUnsigned(s);
    if tag == OT_STRING then
      var (len, r1) :- ReadInt(r);
      var (cs, r2) :- ReadBytes(r1, len * CHAR_SIZE);
      Done(String(cs), r2)
    else if tag == OT_INTEGER then
      var (i, r1) :- ReadInt(r);
      Done(Integer(i), r1)
    else if tag == OT_FLOAT then
      var (raw, r1) :- ReadBytes(r, FLOAT_SIZE);
      Done(Float(raw), r1)
    else if tag == OT_NULL then Done(Null, r)
    else Fail
  }

  function WriteOuter(o: Outer): seq<byte> { WriteUnsigned(o.kind) + WriteObj(o.src) + WriteObj(o.name) }

  function ReadOuter(s: seq<byte>): (res: Parsed<Outer>)
    ensures res.Done? ==> |res.rest| <= |s| - INT_SIZE
  {
    var (kind, r) :- ReadUnsigned(s);
    var (src, r1) :- ReadObj(r);
    var (name, r2) :- ReadObj(r1);
    Done(Outer(kind, src, name), r2)
  }

  function WriteLocal(l: Local): seq<byte> {
    WriteObj(l.name) + WriteUnsigned(l.pos) + WriteUnsigned(l.start) + WriteUnsigned(l.end)
  }

  function ReadLocal(s: seq<byte>): (res: Parsed<Local>)
    ensures res.Done? ==> |res.rest| <= |s| - INT_SIZE
  {
    var (name, r) :- ReadObj(s);
    var (pos, r1) :- ReadUnsigned(r);
    var (start, r2) :- ReadUnsigned(r1);
    var (end, r3) :- ReadUnsigned(r2);
    Done(Local(name, pos, start, end), r3)
  }

  function WriteLine(l: Line): seq<byte> { WriteInt(l.line) + WriteInt(l.op) }

  function ReadLine(s: seq<byte>): (res: Parsed<Line>)
    ensures res.Done? ==> |res.rest| <= |s| - INT_SIZE
  {
    var (line, r) :- ReadInt(s);
    var (op, r1) :- ReadInt(r);
    Done(Line(line, op), r1)
  }

  function WriteInstr(i: Instr): seq<byte> { WriteInt(i.arg1) + [i.op, i.arg0, i.arg2, i.arg3] }

  function ReadInstr(s: seq<byte>): (res: Parsed<Instr>)
    ensures res.Done? ==> |res.rest| <= |s| - INT_SIZE
  {
    var (arg1, r) :- ReadInt(s);
    var (b, r1) :- ReadBytes(r, 4);
    Done(Instr(arg1, b[0], b[1], b[2], b[3]), r1)
  }

  function WriteBool(b: bool): seq<byte> { [if b then 1 else 0] }

  function ReadBool(s: seq<byte>): (res: Parsed<bool>)
    ensures res.Done? ==> |res.rest| <= |s|
  {
    var (b, r) :- ReadBytes(s, 1);
    Done(b[0] != 0, r)
  }

  // ---------- Each of them obeys the laws ----------

  lemma TagExact(tag: int, t: seq<byte>)
    requires IsUnsigned(tag)
    ensures ReadTag(tag, WriteTag(tag) + t) == Done((), t)
  {
    UnsignedRound(tag, t);
  }

  lemma BytesExact(b: seq<byte>, t: seq<byte>)
    ensures ReadBytes(b + t, |b|) == Done(b, t)
  {
    assert (b + t)[..|b|] == b && (b + t)[|b|..] == t;
  }

  lemma BytesSteady(s: seq<byte>, n: int, t: seq<byte>)
    requires ReadBytes(s, n).Done?
    ensures ReadBytes(s + t, n) == Done(ReadBytes(s, n).value, ReadBytes(s, n).rest + t)
  {
    assert (s + t)[..n] == s[..n] && (s + t)[n..] == s[n..] + t;
  }

  lemma UnsignedSteady(s: seq<byte>, t: seq<byte>)
    requires ReadUnsigned(s).Done?
    ensures ReadUnsigned(s + t) == Done(ReadUnsigned(s).value, ReadUnsigned(s).rest + t)
  {
    BytesSteady(s, INT_SIZE, t);
  }

  lemma IntSteady(s: seq<byte>, t: seq<byte>)
    requires ReadInt(s).Done?
    ensures ReadInt(s + t) == Done(ReadInt(s).value, ReadInt(s).rest + t)
  {
    UnsignedSteady(s, t);
  }

  lemma ObjExact(o: Obj)
    requires Saveable(o)
    ensures Exact(WriteObj, ReadObj, o)
  {
    hide Bytes, Number, WriteUnsigned, WriteInt, ReadUnsigned, ReadInt, ReadBytes;
    forall t ensures ReadObj(WriteObj(o) + t) == Done(o, t) {
      match o
      case Null => UnsignedRound(OT_NULL, t);
      case Integer(i) =>
        assert WriteObj(o) + t == WriteTag(OT_INTEGER) + (WriteInt(i) + t);
        UnsignedRound(OT_INTEGER, WriteInt(i) + t);
        IntRound(i, t);
      case Float(raw) =>
        assert WriteObj(o) + t == WriteTag(OT_FLOAT) + (raw + t);
        UnsignedRound(OT_FLOAT, raw + t);
        BytesExact(raw, t);
      case String(cs) =>
        assert WriteObj(o) + t == WriteTag(OT_STRING) + (WriteInt(|cs|) + (cs + t));
        UnsignedRound(OT_STRING, WriteInt(|cs|) + (cs + t));
        IntRound(|cs|, cs + t);
        BytesExact(cs, t);
    }
  }

  lemma ObjSteady()
    ensures Steady(ReadObj)
  {
    forall s, t | ReadObj(s).Done? ensures ReadObj(s + t) == Done(ReadObj(s).value, ReadObj(s).rest + t) {
      UnsignedSteady(s, t);
      var Done(tag, r) := ReadUnsigned(s);
      if tag == OT_STRING {
        IntSteady(r, t);
        BytesSteady(ReadInt(r).rest, ReadInt(r).value * CHAR_SIZE, t);
      } else if tag == OT_INTEGER {
        IntSteady(r, t);
      } else if tag == OT_FLOAT {
        BytesSteady(r, FLOAT_SIZE, t);
      }
    }
  }

  lemma OuterExact(o: Outer)
    requires SaveableOuter(o)
    ensures Exact(WriteOuter, ReadOuter, o)
  {
    hide WriteObj, ReadObj, WriteUnsigned, ReadUnsigned;
    ObjExact(o.src);
    ObjExact(o.name);
    forall t ensures ReadOuter(WriteOuter(o) + t) == Done(o, t) {
      assert WriteOuter(o) + t == WriteUnsigned(o.kind) + (WriteObj(o.src) + (WriteObj(o.name) + t));
      UnsignedRound(o.kind, WriteObj(o.src) + (WriteObj(o.name) + t));
    }
  }

  lemma OuterSteady()
    ensures Steady(ReadOuter)
  {
    hide ReadObj, ReadUnsigned;
    ObjSteady();
    forall s, t | ReadOuter(s).Done? ensures ReadOuter(s + t) == Done(ReadOuter(s).value, ReadOuter(s).rest + t) {
      UnsignedSteady(s, t);
      var r := ReadUnsigned(s).rest;
      assert ReadObj(r + t) == Done(ReadObj(r).value, ReadObj(r).rest + t);
      var r1 := ReadObj(r).rest;
      assert ReadObj(r1 + t) == Done(ReadObj(r1).value, ReadObj(r1).rest + t);
    }
  }

  lemma LocalExact(l: Local)
    requires SaveableLocal(l)
    ensures Exact(WriteLocal, ReadLocal, l)
  {
    hide WriteObj, ReadObj, WriteUnsigned, ReadUnsigned;
    ObjExact(l.name);
    forall t ensures ReadLocal(WriteLocal(l) + t) == Done(l, t) {
      var t3 := WriteUnsigned(l.end) + t;
      var t2 := WriteUnsigned(l.start) + t3;
      var t1 := WriteUnsigned(l.pos) + t2;
      assert WriteLocal(l) + t == WriteObj(l.name) + t1;
      UnsignedRound(l.pos, t2);
      UnsignedRound(l.start, t3);
      UnsignedRound(l.end, t);
    }
  }

  lemma LocalSteady()
    ensures Steady(ReadLocal)
  {
    hide ReadObj, ReadUnsigned;
    ObjSteady();
    forall s, t | ReadLocal(s).Done? ensures ReadLocal(s + t) == Done(ReadLocal(s).value, ReadLocal(s).rest + t) {
      assert ReadObj(s + t) == Done(ReadObj(s).value, ReadObj(s).rest + t);
      var r := ReadObj(s).rest;
      UnsignedSteady(r, t);
      UnsignedSteady(ReadUnsigned(r).rest, t);
      UnsignedSteady(ReadUnsigned(ReadUnsigned(r).rest).rest, t);
    }
  }

  lemma LineExact(l: Line)
    requires SaveableLine(l)
    ensures Exact(WriteLine, ReadLine, l)
  {
    hide WriteInt, ReadInt;
    forall t ensures ReadLine(WriteLine(l) + t) == Done(l, t) {
      assert WriteLine(l) + t == WriteInt(l.line) + (WriteInt(l.op) + t);
      IntRound(l.line, WriteInt(l.op) + t);
      IntRound(l.op, t);
    }
  }

  lemma LineSteady()
    ensures Steady(ReadLine)
  {
    hide ReadInt;
    forall s, t | ReadLine(s).Done? ensures ReadLine(s + t) == Done(ReadLine(s).value, ReadLine(s).rest + t) {
      IntSteady(s, t);
      IntSteady(ReadInt(s).rest, t);
    }
  }

  lemma InstrExact(i: Instr)
    requires SaveableInstr(i)
    ensures Exact(WriteInstr, ReadInstr, i)
  {
    hide WriteInt, ReadInt;
    forall t ensures ReadInstr(WriteInstr(i) + t) == Done(i, t) {
      var b: seq<byte> := [i.op, i.arg0, i.arg2, i.arg3];
      assert WriteInstr(i) + t == WriteInt(i.arg1) + (b + t);
      IntRound(i.arg1, b + t);
      BytesExact(b, t);
    }
  }

  lemma InstrSteady()
    ensures Steady(ReadInstr)
  {
    hide ReadInt;
    forall s, t | ReadInstr(s).Done? ensures ReadInstr(s + t) == Done(ReadInstr(s).value, ReadInstr(s).rest + t) {
      IntSteady(s, t);
      BytesSteady(ReadInt(s).rest, 4, t);
    }
  }

  lemma IntLaws(i: int)
    ensures IsInt(i) ==> Exact(WriteInt, ReadInt, i)
    ensures Steady(ReadInt)
  {
    hide WriteInt, ReadInt;
    forall t ensures IsInt(i) ==> ReadInt(WriteInt(i) + t) == Done(i, t) { if IsInt(i) { IntRound(i, t); } }
    forall s, t | ReadInt(s).Done? ensures ReadInt(s + t) == Done(ReadInt(s).value, ReadInt(s).rest + t) {
      IntSteady(s, t);
    }
  }

  // ---------- Lists behind a tag ----------

  function WriteMany<T>(write: T -> seq<byte>, xs: seq<T>): seq<byte> {
    if xs == [] then [] else write(xs[0]) + WriteMany(write, xs[1..])
  }

  ghost predicate Shrinks<T(!new)>(read: seq<byte> -> Parsed<T>) { forall s :: read(s).Done? ==> |read(s).rest| <= |s| }

  function ReadMany<T(!new)>(read: seq<byte> -> Parsed<T>, n: int, s: seq<byte>): (res: Parsed<seq<T>>)
    requires Shrinks(read)
    ensures res.Done? ==> |res.rest| <= |s| && |res.value| == n
    decreases n
  {
    if n < 0 then Fail
    else if n == 0 then Done([], s)
    else
      var (x, r) :- read(s);
      var (xs, r1) :- ReadMany(read, n - 1, r);
      Done([x] + xs, r1)
  }

  function WriteList<T>(write: T -> seq<byte>, xs: seq<T>): seq<byte> { WriteTag(PART) + WriteMany(write, xs) }

  function ReadList<T(!new)>(read: seq<byte> -> Parsed<T>, n: int, s: seq<byte>): (res: Parsed<seq<T>>)
    requires Shrinks(read)
    ensures res.Done? ==> |res.rest| <= |s| && |res.value| == n
  {
    var (_, r) :- ReadTag(PART, s);
    ReadMany(read, n, r)
  }

  lemma {:induction false} ManyExact<T(!new)>(write: T -> seq<byte>, read: seq<byte> -> Parsed<T>, xs: seq<T>,
                                              t: seq<byte>)
    requires Shrinks(read) && forall x :: x in xs ==> Exact(write, read, x)
    ensures ReadMany(read, |xs|, WriteMany(write, xs) + t) == Done(xs, t)
    decreases |xs|
  {
    if xs != [] {
      assert Exact(write, read, xs[0]);
      assert WriteMany(write, xs) + t == write(xs[0]) + (WriteMany(write, xs[1..]) + t);
      assert xs == [xs[0]] + xs[1..];
      ManyExact(write, read, xs[1..], t);
    } else {
      assert WriteMany(write, xs) + t == t;
    }
  }

  lemma {:induction false} ManySteady<T(!new)>(read: seq<byte> -> Parsed<T>, n: int, s: seq<byte>, t: seq<byte>)
    requires Shrinks(read) && Steady(read) && ReadMany(read, n, s).Done?
    ensures ReadMany(read, n, s + t) == Done(ReadMany(read, n, s).value, ReadMany(read, n, s).rest + t)
    decreases n
  {
    if n > 0 {
      assert read(s + t) == Done(read(s).value, read(s).rest + t);
      ManySteady(read, n - 1, read(s).rest, t);
    }
  }

  lemma {:induction false} ListExact<T(!new)>(write: T -> seq<byte>, read: seq<byte> -> Parsed<T>, xs: seq<T>,
                                              t: seq<byte>)
    requires Shrinks(read) && forall x :: x in xs ==> Exact(write, read, x)
    ensures ReadList(read, |xs|, WriteList(write, xs) + t) == Done(xs, t)
  {
    hide WriteTag, ReadTag, ReadMany, WriteMany;
    assert WriteList(write, xs) + t == WriteTag(PART) + (WriteMany(write, xs) + t);
    TagExact(PART, WriteMany(write, xs) + t);
    ManyExact(write, read, xs, t);
  }

  lemma {:induction false} ListSteady<T(!new)>(read: seq<byte> -> Parsed<T>, n: int, s: seq<byte>, t: seq<byte>)
    requires Shrinks(read) && Steady(read) && ReadList(read, n, s).Done?
    ensures ReadList(read, n, s + t) == Done(ReadList(read, n, s).value, ReadList(read, n, s).rest + t)
  {
    TagSteady(PART, s, t);
    ManySteady(read, n, ReadTag(PART, s).rest, t);
  }

  lemma TagSteady(tag: int, s: seq<byte>, t: seq<byte>)
    requires ReadTag(tag, s).Done?
    ensures ReadTag(tag, s + t) == Done((), ReadTag(tag, s).rest + t)
  {
    UnsignedSteady(s, t);
  }

  // ---------- Prototypes ----------

  datatype Counts = Counts(literals: int, parameters: int, outers: int, locals: int, lines: int, defaults: int,
                           code: int, functions: int)

  function CountsOf(p: Proto): Counts {
    Counts(|p.literals|, |p.parameters|, |p.outers|, |p.locals|, |p.lines|, |p.defaults|, |p.code|, |p.functions|)
  }

  function WriteNames(p: Proto): seq<byte> { WriteTag(PART) + WriteObj(p.source) + WriteObj(p.name) }

  function ReadNames(s: seq<byte>): (res: Parsed<(Obj, Obj)>)
    ensures res.Done? ==> |res.rest| < |s|
  {
    var (_, r) :- ReadTag(PART, s);
    var (source, r1) :- ReadObj(r);
    var (name, r2) :- ReadObj(r1);
    Done((source, name), r2)
  }

  function CountsSeq(c: Counts): seq<int> {
    [c.literals, c.parameters, c.outers, c.locals, c.lines, c.defaults, c.code, c.functions]
  }

  function WriteCounts(c: Counts): seq<byte> { WriteList(WriteInt, CountsSeq(c)) }

  function ReadCounts(s: seq<byte>): (res: Parsed<Counts>)
    ensures res.Done? ==> |res.rest| <= |s|
  {
    var (n, r) :- ReadList(ReadInt, 8, s);
    Done(Counts(n[0], n[1], n[2], n[3], n[4], n[5], n[6], n[7]), r)
  }

  function WriteTail(p: Proto): seq<byte> { WriteInt(p.stackSize) + WriteBool(p.generator) + WriteInt(p.varParams) }

  function ReadTail(s: seq<byte>): (res: Parsed<(int, bool, int)>)
    ensures res.Done? ==> |res.rest| <= |s|
  {
    var (stackSize, r) :- ReadInt(s);
    var (generator, r1) :- ReadBool(r);
    var (varParams, r2) :- ReadInt(r1);
    Done((stackSize, generator, varParams), r2)
  }

  /** The lists that hold no nested prototypes. */
  function WriteBody(p: Proto): seq<byte> {
    WriteList(WriteObj, p.literals) + WriteList(WriteObj, p.parameters) + WriteList(WriteOuter, p.outers)
    + WriteList(WriteLocal, p.locals) + WriteList(WriteLine, p.lines) + WriteList(WriteInt, p.defaults)
    + WriteList(WriteInstr, p.code)
  }

  datatype Body = Body(literals: seq<Obj>, parameters: seq<Obj>, outers: seq<Outer>, locals: seq<Local>,
                       lines: seq<Line>, defaults: seq<int>, code: seq<Instr>)

  function BodyOf(p: Proto): Body { Body(p.literals, p.parameters, p.outers, p.locals, p.lines, p.defaults, p.code) }

  function ReadBody(c: Counts, s: seq<byte>): (res: Parsed<Body>)
    ensures res.Done? ==> |res.rest| <= |s|
  {
    var (literals, r1) :- ReadList(ReadObj, c.literals, s);
    var (parameters, r2) :- ReadList(ReadObj, c.parameters, r1);
    var (outers, r3) :- ReadList(ReadOuter, c.outers, r2);
    var (locals, r4) :- ReadList(ReadLocal, c.locals, r3);
    var (lines, r5) :- ReadList(ReadLine, c.lines, r4);
    var (defaults, r6) :- ReadList(ReadInt, c.defaults, r5);
    var (code, r7) :- ReadList(ReadInstr, c.code, r6);
    Done(Body(literals, parameters, outers, locals, lines, defaults, code), r7)
  }

  function WriteProto(p: Proto): seq<byte>
    decreases p, 1
  {
    WriteNames(p) + WriteCounts(CountsOf(p)) + WriteBody(p) + WriteTag(PART) + WriteProtos(p.functions) + WriteTail(p)
  }

  function WriteProtos(ps: seq<Proto>): seq<byte>
    decreases ps, 0
  {
    if ps == [] then [] else WriteProto(ps[0]) + WriteProtos(ps[1..])
  }

  function ReadProto(s: seq<byte>): (res: Parsed<Proto>)
    ensures res.Done? ==> |res.rest| < |s|
    decreases |s|, 0
  {
    var (names, r) :- ReadNames(s);
    var (c, r1) :- ReadCounts(r);
    var (b, r2) :- ReadBody(c, r1);
    var (_, r3) :- ReadTag(PART, r2);
    var (functions, r4) :- ReadProtos(c.functions, r3);
    var (tail, r5) :- ReadTail(r4);
    Done(Proto(names.0, names.1, b.literals, b.parameters, b.outers, b.locals, b.lines, b.defaults, b.code, functions,
               tail.0, tail.1, tail.2), r5)
  }

  function ReadProtos(n: int, s: seq<byte>): (res: Parsed<seq<Proto>>)
    ensures res.Done? ==> |res.rest| <= |s|
    decreases |s|, 1
  {
    if n < 0 then Fail
    else if n == 0 then Done([], s)
    else
      var (p, r) :- ReadProto(s);
      var (ps, r1) :- ReadProtos(n - 1, r);
      Done([p] + ps, r1)
  }

  // ---------- Prototypes survive a round trip ----------

  lemma NamesExact(p: Proto, t: seq<byte>)
    requires SaveableProto(p)
    ensures ReadNames(WriteNames(p) + t) == Done((p.source, p.name), t)
  {
    hide WriteObj, ReadObj, WriteTag, ReadTag, SaveableProto;
    assert Saveable(p.source) && Saveable(p.name) by { NamesSaveable(p); }
    ObjExact(p.source);
    ObjExact(p.name);
    assert WriteNames(p) + t == WriteTag(PART) + (WriteObj(p.source) + (WriteObj(p.name) + t));
    TagExact(PART, WriteObj(p.source) + (WriteObj(p.name) + t));
  }

  lemma NamesSaveable(p: Proto)
    requires SaveableProto(p)
    ensures Saveable(p.source) && Saveable(p.name)
  {}

  lemma CountsExact(c: Counts, t: seq<byte>)
    requires forall n :: n in CountsSeq(c) ==> IsInt(n)
    ensures ReadCounts(WriteCounts(c) + t) == Done(c, t)
  {
    hide WriteList, ReadList;
    IntsExact(CountsSeq(c), t);
  }

  lemma IntsExact(ns: seq<int>, t: seq<byte>)
    requires forall n :: n in ns ==> IsInt(n)
    ensures ReadList(ReadInt, |ns|, WriteList(WriteInt, ns) + t) == Done(ns, t)
  {
    hide WriteList, ReadList, WriteInt, ReadInt;
    forall n | n in ns ensures Exact(WriteInt, ReadInt, n) { IntLaws(n); }
    ListExact(WriteInt, ReadInt, ns, t);
  }

  lemma TailExact(p: Proto, t: seq<byte>)
    requires IsInt(p.stackSize) && IsInt(p.varParams)
    ensures ReadTail(WriteTail(p) + t) == Done((p.stackSize, p.generator, p.varParams), t)
  {
    hide WriteInt, ReadInt;
    var t2 := WriteInt(p.varParams) + t;
    var t1 := WriteBool(p.generator) + t2;
    assert WriteTail(p) + t == WriteInt(p.stackSize) + t1;
    IntRound(p.stackSize, t1);
    IntRound(p.varParams, t);
    BytesExact(WriteBool(p.generator), t2);
  }

  lemma BodyExact(p: Proto, t: seq<byte>)
    requires SaveableProto(p)
    ensures ReadBody(CountsOf(p), WriteBody(p) + t) == Done(BodyOf(p), t)
  {
    hide WriteList, ReadList, SaveableProto, Exact, Shrinks;
    AllExact(p);
    AllShrink();
    var t6 := WriteList(WriteInstr, p.code) + t;
    var t5 := WriteList(WriteInt, p.defaults) + t6;
    var t4 := WriteList(WriteLine, p.lines) + t5;
    var t3 := WriteList(WriteLocal, p.locals) + t4;
    var t2 := WriteList(WriteOuter, p.outers) + t3;
    var t1 := WriteList(WriteObj, p.parameters) + t2;
    assert WriteBody(p) + t == WriteList(WriteObj, p.literals) + t1;
    ListExact(WriteObj, ReadObj, p.literals, t1);
    ListExact(WriteObj, ReadObj, p.parameters, t2);
    ListExact(WriteOuter, ReadOuter, p.outers, t3);
    ListExact(WriteLocal, ReadLocal, p.locals, t4);
    ListExact(WriteLine, ReadLine, p.lines, t5);
    IntsExact(p.defaults, t6);
    ListExact(WriteInstr, ReadInstr, p.code, t);
  }

  lemma AllShrink()
    ensures Shrinks(ReadObj) && Shrinks(ReadOuter) && Shrinks(ReadLocal) && Shrinks(ReadLine) && Shrinks(ReadInt)
            && Shrinks(ReadInstr)
  {}

  lemma AllExact(p: Proto)
    requires SaveableProto(p)
    ensures forall x :: x in p.literals ==> Exact(WriteObj, ReadObj, x)
    ensures forall x :: x in p.parameters ==> Exact(WriteObj, ReadObj, x)
    ensures forall x :: x in p.outers ==> Exact(WriteOuter, ReadOuter, x)
    ensures forall x :: x in p.locals ==> Exact(WriteLocal, ReadLocal, x)
    ensures forall x :: x in p.lines ==> Exact(WriteLine, ReadLine, x)
    ensures forall x :: x in p.defaults ==> IsInt(x)
    ensures forall x :: x in p.code ==> Exact(WriteInstr, ReadInstr, x)
  {
    hide Exact;
    forall x | x in p.literals ensures Exact(WriteObj, ReadObj, x) { ObjExact(x); }
    forall x | x in p.parameters ensures Exact(WriteObj, ReadObj, x) { ObjExact(x); }
    forall x | x in p.outers ensures Exact(WriteOuter, ReadOuter, x) { OuterExact(x); }
    forall x | x in p.locals ensures Exact(WriteLocal, ReadLocal, x) { LocalExact(x); }
    forall x | x in p.lines ensures Exact(WriteLine, ReadLine, x) { LineExact(x); }
    forall x | x in p.code ensures Exact(WriteInstr, ReadInstr, x) { InstrExact(x); }
  }

  lemma {:induction false} ProtoExact(p: Proto, t: seq<byte>)
    requires SaveableProto(p)
    ensures ReadProto(WriteProto(p) + t) == Done(p, t)
    decreases p, 1
  {
    hide WriteNames, ReadNames, WriteCounts, ReadCounts, WriteBody, ReadBody, WriteTag, ReadTag, WriteTail, ReadTail;
    var t4 := WriteTail(p) + t;
    var t3 := WriteProtos(p.functions) + t4;
    var t2 := WriteTag(PART) + t3;
    var t1 := WriteBody(p) + t2;
    var t0 := WriteCounts(CountsOf(p)) + t1;
    assert WriteProto(p) + t == WriteNames(p) + t0;
    NamesExact(p, t0);
    CountsExact(CountsOf(p), t1);
    BodyExact(p, t2);
    TagExact(PART, t3);
    ProtosExact(p.functions, t4);
    TailExact(p, t);
  }

  lemma {:induction false} ProtosExact(ps: seq<Proto>, t: seq<byte>)
    requires forall p :: p in ps ==> SaveableProto(p)
    ensures ReadProtos(|ps|, WriteProtos(ps) + t) == Done(ps, t)
    decreases ps, 0
  {
    hide WriteProto, ReadProto;
    if ps != [] {
      assert WriteProtos(ps) + t == WriteProto(ps[0]) + (WriteProtos(ps[1..]) + t);
      assert ps == [ps[0]] + ps[1..];
      ProtoExact(ps[0], WriteProtos(ps[1..]) + t);
      ProtosExact(ps[1..], t);
    } else {
      assert WriteProtos(ps) + t == t;
    }
  }

  // ---------- A successful load does not depend on what follows ----------

  lemma NamesSteady(s: seq<byte>, t: seq<byte>)
    requires ReadNames(s).Done?
    ensures ReadNames(s + t) == Done(ReadNames(s).value, ReadNames(s).rest + t)
  {
    hide ReadTag, ReadObj;
    TagSteady(PART, s, t);
    ObjSteady();
    var r := ReadTag(PART, s).rest;
    assert ReadObj(r + t) == Done(ReadObj(r).value, ReadObj(r).rest + t);
    var r1 := ReadObj(r).rest;
    assert ReadObj(r1 + t) == Done(ReadObj(r1).value, ReadObj(r1).rest + t);
  }

  lemma CountsSteady(s: seq<byte>, t: seq<byte>)
    requires ReadCounts(s).Done?
    ensures ReadCounts(s + t) == Done(ReadCounts(s).value, ReadCounts(s).rest + t)
  {
    hide ReadList, Steady;
    IntLaws(0);
    ListSteady(ReadInt, 8, s, t);
  }

  lemma TailSteady(s: seq<byte>, t: seq<byte>)
    requires ReadTail(s).Done?
    ensures ReadTail(s + t) == Done(ReadTail(s).value, ReadTail(s).rest + t)
  {
    hide ReadInt, ReadBytes;
    IntSteady(s, t);
    var r := ReadInt(s).rest;
    BytesSteady(r, 1, t);
    IntSteady(ReadBool(r).rest, t);
  }

  lemma BodySteady(c: Counts, s: seq<byte>, t: seq<byte>)
    requires ReadBody(c, s).Done?
    ensures ReadBody(c, s + t) == Done(ReadBody(c, s).value, ReadBody(c, s).rest + t)
  {
    hide ReadList, Steady;
    ObjSteady();
    OuterSteady();
    LocalSteady();
    LineSteady();
    IntLaws(0);
    InstrSteady();
    ListSteady(ReadObj, c.literals, s, t);
    var r1 := ReadList(ReadObj, c.literals, s).rest;
    ListSteady(ReadObj, c.parameters, r1, t);
    var r2 := ReadList(ReadObj, c.parameters, r1).rest;
    ListSteady(ReadOuter, c.outers, r2, t);
    var r3 := ReadList(ReadOuter, c.outers, r2).rest;
    ListSteady(ReadLocal, c.locals, r3, t);
    var r4 := ReadList(ReadLocal, c.locals, r3).rest;
    ListSteady(ReadLine, c.lines, r4, t);
    var r5 := ReadList(ReadLine, c.lines, r4).rest;
    ListSteady(ReadInt, c.defaults, r5, t);
    var r6 := ReadList(ReadInt, c.defaults, r5).rest;
    ListSteady(ReadInstr, c.code, r6, t);
  }

  lemma {:induction false} ProtoSteady(s: seq<byte>, t: seq<byte>)
    requires ReadProto(s).Done?
    ensures ReadProto(s + t) == Done(ReadProto(s).value, ReadProto(s).rest + t)
    decreases |s|, 0
  {
    hide ReadNames, ReadCounts, ReadBody, ReadTag, ReadTail;
    NamesSteady(s, t);
    var r := ReadNames(s).rest;
    CountsSteady(r, t);
    var Done(c, r1) := ReadCounts(r);
    BodySteady(c, r1, t);
    var r2 := ReadBody(c, r1).rest;
    TagSteady(PART, r2, t);
    var r3 := ReadTag(PART, r2).rest;
    ProtosSteady(c.functions, r3, t);
    TailSteady(ReadProtos(c.functions, r3).rest, t);
  }

  lemma {:induction false} ProtosSteady(n: int, s: seq<byte>, t: seq<byte>)
    requires ReadProtos(n, s).Done?
    ensures ReadProtos(n, s + t) == Done(ReadProtos(n, s).value, ReadProtos(n, s).rest + t)
    decreases |s|, 1
  {
    hide ReadProto;
    if n > 0 {
      ProtoSteady(s, t);
      ProtosSteady(n - 1, ReadProto(s).rest, t);
    }
  }

  // ---------- Closures ----------

  function WriteHeader(): seq<byte> { WriteTag(HEAD) + WriteTag(CHAR_SIZE) + WriteTag(INT_SIZE) + WriteTag(FLOAT_SIZE) }

  function ReadHeader(s: seq<byte>): (res: Parsed<()>) {
    var (_, r) :- ReadTag(HEAD, s);
    var (_, r1) :- ReadTag(CHAR_SIZE, r);
    var (_, r2) :- ReadTag(INT_SIZE, r1);
    ReadTag(FLOAT_SIZE, r2)
  }

  function WriteClosure(p: Proto): seq<byte> { WriteHeader() + WriteProto(p) + WriteTag(TAIL) }

  function ReadClosure(s: seq<byte>): Parsed<Proto> {
    var (_, r) :- ReadHeader(s);
    var (p, r1) :- ReadProto(r);
    var (_, r2) :- ReadTag(TAIL, r1);
    Done(p, r2)
  }

  /** Loading a saved closure gives the same prototype tree, and leaves what follows it. */
  lemma {:induction false} ClosureRoundTrip(p: Proto, t: seq<byte>)
    requires SaveableProto(p)
    ensures ReadClosure(WriteClosure(p) + t) == Done(p, t)
  {
    hide WriteTag, ReadTag, WriteProto, ReadProto, SaveableProto;
    var t4 := WriteProto(p) + (WriteTag(TAIL) + t);
    var t3 := WriteTag(FLOAT_SIZE) + t4;
    var t2 := WriteTag(INT_SIZE) + t3;
    var t1 := WriteTag(CHAR_SIZE) + t2;
    assert WriteClosure(p) + t == WriteTag(HEAD) + t1;
    TagExact(HEAD, t1);
    TagExact(CHAR_SIZE, t2);
    TagExact(INT_SIZE, t3);
    TagExact(FLOAT_SIZE, t4);
    ProtoExact(p, WriteTag(TAIL) + t);
    TagExact(TAIL, t);
  }

  lemma {:induction false} ClosureSteady(s: seq<byte>, t: seq<byte>)
    requires ReadClosure(s).Done?
    ensures ReadClosure(s + t) == Done(ReadClosure(s).value, ReadClosure(s).rest + t)
  {
    hide ReadTag, ReadProto;
    TagSteady(HEAD, s, t);
    var r := ReadTag(HEAD, s).rest;
    TagSteady(CHAR_SIZE, r, t);
    var r1 := ReadTag(CHAR_SIZE, r).rest;
    TagSteady(INT_SIZE, r1, t);
    var r2 := ReadTag(INT_SIZE, r1).rest;
    TagSteady(FLOAT_SIZE, r2, t);
    var r3 := ReadTag(FLOAT_SIZE, r2).rest;
    ProtoSteady(r3, t);
    TagSteady(TAIL, ReadProto(r3).rest, t);
  }

  /** A truncated stream never loads. */
  lemma {:induction false} NoPrefixLoads(p: Proto, n: nat)
    requires SaveableProto(p) && n < |WriteClosure(p)|
    ensures ReadClosure(WriteClosure(p)[..n]).Fail?
  {
    hide WriteClosure, ReadClosure, SaveableProto;
    var s := WriteClosure(p);
    assert s[..n] + s[n..] == s && s + [] == s;
    ClosureRoundTrip(p, []);
    if ReadClosure(s[..n]).Done? {
      ClosureSteady(s[..n], s[n..]);
    }
  }

  /** Different prototypes have different streams, and no stream is the beginning of another. */
  lemma {:induction false} StreamsDiffer(p: Proto, q: Proto)
    requires SaveableProto(p) && SaveableProto(q) && WriteClosure(p) <= WriteClosure(q)
    ensures p == q
  {
    hide WriteClosure, ReadClosure, SaveableProto;
    var s := WriteClosure(q)[|WriteClosure(p)|..];
    assert WriteClosure(p) + s == WriteClosure(q) + [];
    ClosureRoundTrip(p, s);
    ClosureRoundTrip(q, []);
  }
}
