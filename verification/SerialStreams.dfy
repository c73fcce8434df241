/** Saving and loading as the virtual machine does it: one write or read after another, with a
    loop for every list, giving up at the first failure. */
module SerialStreams {
  import opened Serial

  // ---------- Saving ----------

  /** Only null, numbers and strings can be saved. */
  predicate Plain(o: Obj) { !o.Other? }

  predicate PlainProto(p: Proto) {
    && Plain(p.source) && Plain(p.name)
    && (forall o :: o in p.literals ==> Plain(o)) && (forall o :: o in p.parameters ==> Plain(o))
    && (forall o :: o in p.outers ==> Plain(o.src) && Plain(o.name)) && (forall l :: l in p.locals ==> Plain(l.name))
    && (forall f :: f in p.functions ==> PlainProto(f))
  }

  class Writer {
    var output: seq<byte>

    method SafeWrite(b: seq<byte>)
      modifies this
      ensures output == old(output) + b
    {
      output := output + b;
    }

    method WriteObject(o: Obj) returns (ok: bool)
      modifies this
      ensures ok == Plain(o) && output == old(output) + WriteObj(o)
    {
      hide WriteUnsigned, WriteInt;
      ok := true;
      match o
      case String(cs) =>
        SafeWrite(WriteTag(OT_STRING));
        SafeWrite(WriteInt(|cs|));
        SafeWrite(cs);
      case Integer(i) =>
        SafeWrite(WriteTag(OT_INTEGER));
        SafeWrite(WriteInt(i));
      case Float(raw) =>
        SafeWrite(WriteTag(OT_FLOAT));
        SafeWrite(raw);
      case Null => SafeWrite(WriteTag(OT_NULL));
      case Other(tag) =>
        SafeWrite(WriteTag(tag));
        ok := false;
    }

    method WriteObjects(xs: seq<Obj>) returns (ok: bool)
      modifies this
      ensures ok == forall x :: x in xs ==> Plain(x)
      ensures ok ==> output == old(output) + WriteList(WriteObj, xs)
    {
      hide WriteObj, WriteUnsigned, WriteInt;
      ok := true;
      SafeWrite(WriteTag(PART));
      ghost var start := output;
      for i := 0 to |xs|
        invariant ok && output == start + WriteMany(WriteObj, xs[..i])
        invariant forall x :: x in xs[..i] ==> Plain(x)
      {
        ManyAppend(WriteObj, xs[..i], xs[i]);
        assert xs[..i + 1] == xs[..i] + [xs[i]];
        ok := WriteObject(xs[i]);
        if !ok { assert xs[i] in xs; return; }
      }
      assert xs[..|xs|] == xs;
    }

    method WriteOuters(xs: seq<Outer>) returns (ok: bool)
      modifies this
      ensures ok == forall x :: x in xs ==> Plain(x.src) && Plain(x.name)
      ensures ok ==> output == old(output) + WriteList(WriteOuter, xs)
    {
      hide WriteObj, WriteUnsigned, WriteInt;
      ok := true;
      SafeWrite(WriteTag(PART));
      ghost var start := output;
      for i := 0 to |xs|
        invariant ok && output == start + WriteMany(WriteOuter, xs[..i])
        invariant forall x :: x in xs[..i] ==> Plain(x.src) && Plain(x.name)
      {
        ManyAppend(WriteOuter, xs[..i], xs[i]);
        assert xs[..i + 1] == xs[..i] + [xs[i]];
        SafeWrite(WriteUnsigned(xs[i].kind));
        ok := WriteObject(xs[i].src);
        if !ok { assert xs[i] in xs; return; }
        ok := WriteObject(xs[i].name);
        if !ok { assert xs[i] in xs; return; }
      }
      assert xs[..|xs|] == xs;
    }

    method WriteLocals(xs: seq<Local>) returns (ok: bool)
      modifies this
      ensures ok == forall x :: x in xs ==> Plain(x.name)
      ensures ok ==> output == old(output) + WriteList(WriteLocal, xs)
    {
      hide WriteObj, WriteUnsigned, WriteInt;
      ok := true;
      SafeWrite(WriteTag(PART));
      ghost var start := output;
      for i := 0 to |xs|
        invariant ok && output == start + WriteMany(WriteLocal, xs[..i])
        invariant forall x :: x in xs[..i] ==> Plain(x.name)
      {
        ManyAppend(WriteLocal, xs[..i], xs[i]);
        assert xs[..i + 1] == xs[..i] + [xs[i]];
        ok := WriteObject(xs[i].name);
        if !ok { assert xs[i] in xs; return; }
        SafeWrite(WriteUnsigned(xs[i].pos));
        SafeWrite(WriteUnsigned(xs[i].start));
        SafeWrite(WriteUnsigned(xs[i].end));
      }
      assert xs[..|xs|] == xs;
    }

    method WriteBlock(b: seq<byte>)
      modifies this
      ensures output == old(output) + (WriteTag(PART) + b)
    {
      SafeWrite(WriteTag(PART));
      SafeWrite(b);
    }

    /** SQFunctionProto::Save */
    method Save(p: Proto) returns (ok: bool)
      modifies this
      ensures ok == PlainProto(p)
      ensures ok ==> output == old(output) + WriteProto(p)
      decreases p, 1
    {
      hide WriteObj, WriteList, WriteUnsigned, WriteInt, WriteProtos, WriteBool;
      SafeWrite(WriteTag(PART));
      ok := WriteObject(p.source);
      if !ok { return; }
      ok := WriteObject(p.name);
      if !ok { return; }
      SafeWrite(WriteCounts(CountsOf(p)));
      assert output == old(output) + WriteNames(p) + WriteCounts(CountsOf(p));
      ok := SaveLists(p);
      if !ok { return; }
      SafeWrite(WriteTag(PART));
      ok := SaveAll(p.functions);
      if !ok { return; }
      SafeWrite(WriteInt(p.stackSize));
      SafeWrite(WriteBool(p.generator));
      SafeWrite(WriteInt(p.varParams));
      ProtoPieces(old(output), p);
    }

    static lemma ProtoPieces(o: seq<byte>, p: Proto)
      ensures o + WriteNames(p) + WriteCounts(CountsOf(p)) + WriteBody(p) + WriteTag(PART) + WriteProtos(p.functions)
                + WriteInt(p.stackSize) + WriteBool(p.generator) + WriteInt(p.varParams)
           == o + WriteProto(p)
    {
      hide WriteNames, WriteCounts, WriteBody, WriteProtos, WriteInt, WriteBool, WriteTag;
    }

    method SaveLists(p: Proto) returns (ok: bool)
      modifies this
      ensures ok == ((forall o :: o in p.literals ==> Plain(o)) && (forall o :: o in p.parameters ==> Plain(o))
                     && (forall o :: o in p.outers ==> Plain(o.src) && Plain(o.name))
                     && (forall l :: l in p.locals ==> Plain(l.name)))
      ensures ok ==> output == old(output) + WriteBody(p)
    {
      hide WriteMany, WriteObj, WriteUnsigned, WriteInt;
      ok := WriteObjects(p.literals);
      if !ok { return; }
      ok := WriteObjects(p.parameters);
      if !ok { return; }
      ok := WriteOuters(p.outers);
      if !ok { return; }
      ok := WriteLocals(p.locals);
      if !ok { return; }
      WriteBlock(WriteMany(WriteLine, p.lines));
      WriteBlock(WriteMany(WriteInt, p.defaults));
      WriteBlock(WriteMany(WriteInstr, p.code));
    }

    method SaveAll(ps: seq<Proto>) returns (ok: bool)
      modifies this
      ensures ok == forall p :: p in ps ==> PlainProto(p)
      ensures ok ==> output == old(output) + WriteProtos(ps)
      decreases ps, 0
    {
      hide WriteProto, PlainProto;
      ok := true;
      for i := 0 to |ps|
        invariant ok && output == old(output) + WriteProtos(ps[..i])
        invariant forall p :: p in ps[..i] ==> PlainProto(p)
      {
        ok := Save(ps[i]);
        if !ok { assert ps[i] in ps; return; }
        ProtosAppend(ps[..i], ps[i]);
        assert ps[..i + 1] == ps[..i] + [ps[i]];
      }
      assert ps[..|ps|] == ps;
    }
  }

  lemma {:induction false} ManyAppend<T>(write: T -> seq<byte>, xs: seq<T>, x: T)
    ensures WriteMany(write, xs + [x]) == WriteMany(write, xs) + write(x)
    decreases |xs|
  {
    if xs == [] {
      assert WriteMany(write, [x]) == write(x) + WriteMany(write, [x][1..]);
    } else {
      assert (xs + [x])[1..] == xs[1..] + [x];
      ManyAppend(write, xs[1..], x);
    }
  }

  lemma {:induction false} ProtosAppend(ps: seq<Proto>, p: Proto)
    ensures WriteProtos(ps + [p]) == WriteProtos(ps) + WriteProto(p)
    decreases |ps|
  {
    hide WriteProto;
    if ps == [] {
      assert WriteProtos([p]) == WriteProto(p) + WriteProtos([p][1..]);
    } else {
      assert (ps + [p])[1..] == ps[1..] + [p];
      ProtosAppend(ps[1..], p);
    }
  }

  // ---------- Loading ----------

  /** `xs` in front of what `r` parsed. */
  function After<T>(xs: seq<T>, r: Parsed<seq<T>>): Parsed<seq<T>> {
    match r case Fail => Fail case Done(ys, t) => Done(xs + ys, t)
  }

  lemma AfterNone<T>(r: Parsed<seq<T>>)
    ensures After([], r) == r
  {
    if r.Done? { assert [] + r.value == r.value; }
  }

  lemma AfterOne<T(!new)>(read: seq<byte> -> Parsed<T>, xs: seq<T>, n: int, s: seq<byte>)
    requires Shrinks(read) && n > 0
    ensures After(xs, ReadMany(read, n, s))
         == if read(s).Done? then After(xs + [read(s).value], ReadMany(read, n - 1, read(s).rest)) else Fail
  {
    if read(s).Done? && ReadMany(read, n - 1, read(s).rest).Done? {
      var x, ys := read(s).value, ReadMany(read, n - 1, read(s).rest).value;
      assert xs + ([x] + ys) == xs + [x] + ys;
    }
  }

  lemma AfterProto(ps: seq<Proto>, n: int, s: seq<byte>)
    requires n > 0
    ensures After(ps, ReadProtos(n, s))
         == if ReadProto(s).Done? then After(ps + [ReadProto(s).value], ReadProtos(n - 1, ReadProto(s).rest)) else Fail
  {
    hide ReadProto;
    if ReadProto(s).Done? && ReadProtos(n - 1, ReadProto(s).rest).Done? {
      var p, qs := ReadProto(s).value, ReadProtos(n - 1, ReadProto(s).rest).value;
      assert ps + ([p] + qs) == ps + [p] + qs;
    }
  }

  /** A method that returned `ok` and `x` and left `input` has done what the parser says. */
  ghost predicate Follows<T>(r: Parsed<T>, ok: bool, x: T, input: seq<byte>) {
    ok == r.Done? && (ok ==> x == r.value && input == r.rest)
  }

  class Reader {
    var input: seq<byte>

    method SafeRead(n: int) returns (ok: bool, b: seq<byte>)
      modifies this
      ensures Follows(ReadBytes(old(input), n), ok, b, input)
    {
      ok, b := 0 <= n <= |input|, [];
      if ok {
        b, input := input[..n], input[n..];
      }
    }

    method LoadUnsigned() returns (ok: bool, n: int)
      modifies this
      ensures Follows(ReadUnsigned(old(input)), ok, n, input)
    {
      var b;
      ok, b := SafeRead(INT_SIZE);
      n := Number(b);
    }

    method LoadInt() returns (ok: bool, n: int)
      modifies this
      ensures Follows(ReadInt(old(input)), ok, n, input)
    {
      ok, n := LoadUnsigned();
      if n >= RANGE / 2 { n := n - RANGE; }
    }

    method CheckTag(tag: int) returns (ok: bool)
      modifies this
      ensures Follows(ReadTag(tag, old(input)), ok, (), input)
    {
      var t;
      ok, t := LoadUnsigned();
      ok := ok && t == tag;
    }

    method ReadObject() returns (ok: bool, o: Obj)
      modifies this
      ensures Follows(ReadObj(old(input)), ok, o, input)
    {
      hide ReadUnsigned, ReadInt, ReadBytes;
      o := Null;
      var t, len, i, b;
      ok, t := LoadUnsigned();
      if !ok { return; }
      if t == OT_STRING {
        ok, len := LoadInt();
        if !ok { return; }
        ok, b := SafeRead(len * CHAR_SIZE);
        o := String(b);
      } else if t == OT_INTEGER {
        ok, i := LoadInt();
        o := Integer(i);
      } else if t == OT_FLOAT {
        ok, b := SafeRead(FLOAT_SIZE);
        o := Float(b);
      } else if t != OT_NULL {
        ok := false;
      }
    }

    method LoadOuter() returns (ok: bool, x: Outer)
      modifies this
      ensures Follows(ReadOuter(old(input)), ok, x, input)
    {
      hide ReadObj, ReadUnsigned, ReadInt, ReadBytes;
      x := Outer(0, Null, Null);
      var kind, src, name;
      ok, kind := LoadUnsigned();
      if !ok { return; }
      ok, src := ReadObject();
      if !ok { return; }
      ok, name := ReadObject();
      if !ok { return; }
      x := Outer(kind, src, name);
    }

    method LoadLocal() returns (ok: bool, x: Local)
      modifies this
      ensures Follows(ReadLocal(old(input)), ok, x, input)
    {
      hide ReadObj, ReadUnsigned, ReadInt, ReadBytes;
      x := Local(Null, 0, 0, 0);
      var name, pos, start, end;
      ok, name := ReadObject();
      if !ok { return; }
      ok, pos := LoadUnsigned();
      if !ok { return; }
      ok, start := LoadUnsigned();
      if !ok { return; }
      ok, end := LoadUnsigned();
      if !ok { return; }
      x := Local(name, pos, start, end);
    }

    method LoadLine() returns (ok: bool, x: Line)
      modifies this
      ensures Follows(ReadLine(old(input)), ok, x, input)
    {
      hide ReadObj, ReadUnsigned, ReadInt, ReadBytes;
      x := Line(0, 0);
      var line, op;
      ok, line := LoadInt();
      if !ok { return; }
      ok, op := LoadInt();
      if !ok { return; }
      x := Line(line, op);
    }

    method LoadInstr() returns (ok: bool, x: Instr)
      modifies this
      ensures Follows(ReadInstr(old(input)), ok, x, input)
    {
      hide ReadInt;
      x := Instr(0, 0, 0, 0, 0);
      var arg1, b;
      ok, arg1 := LoadInt();
      if !ok { return; }
      ok, b := SafeRead(4);
      if !ok { return; }
      x := Instr(arg1, b[0], b[1], b[2], b[3]);
    }

    method LoadObjects(n: int) returns (ok: bool, xs: seq<Obj>)
      modifies this
      ensures Follows(ReadList(ReadObj, n, old(input)), ok, xs, input)
    {
      hide ReadObj, ReadTag;
      xs := [];
      ok := CheckTag(PART);
      if !ok || n < 0 { return false, xs; }
      ghost var start := input;
      AfterNone(ReadMany(ReadObj, n, start));
      for i := 0 to n
        invariant ok && ReadMany(ReadObj, n, start) == After(xs, ReadMany(ReadObj, n - i, input))
      {
        AfterOne(ReadObj, xs, n - i, input);
        var x;
        ok, x := ReadObject();
        if !ok { return; }
        xs := xs + [x];
      }
      assert xs + [] == xs;
    }

    method LoadOuters(n: int) returns (ok: bool, xs: seq<Outer>)
      modifies this
      ensures Follows(ReadList(ReadOuter, n, old(input)), ok, xs, input)
    {
      hide ReadOuter, ReadTag;
      xs := [];
      ok := CheckTag(PART);
      if !ok || n < 0 { return false, xs; }
      ghost var start := input;
      AfterNone(ReadMany(ReadOuter, n, start));
      for i := 0 to n
        invariant ok && ReadMany(ReadOuter, n, start) == After(xs, ReadMany(ReadOuter, n - i, input))
      {
        AfterOne(ReadOuter, xs, n - i, input);
        var x;
        ok, x := LoadOuter();
        if !ok { return; }
        xs := xs + [x];
      }
      assert xs + [] == xs;
    }

    method LoadLocals(n: int) returns (ok: bool, xs: seq<Local>)
      modifies this
      ensures Follows(ReadList(ReadLocal, n, old(input)), ok, xs, input)
    {
      hide ReadLocal, ReadTag;
      xs := [];
      ok := CheckTag(PART);
      if !ok || n < 0 { return false, xs; }
      ghost var start := input;
      AfterNone(ReadMany(ReadLocal, n, start));
      for i := 0 to n
        invariant ok && ReadMany(ReadLocal, n, start) == After(xs, ReadMany(ReadLocal, n - i, input))
      {
        AfterOne(ReadLocal, xs, n - i, input);
        var x;
        ok, x := LoadLocal();
        if !ok { return; }
        xs := xs + [x];
      }
      assert xs + [] == xs;
    }

    method LoadLines(n: int) returns (ok: bool, xs: seq<Line>)
      modifies this
      ensures Follows(ReadList(ReadLine, n, old(input)), ok, xs, input)
    {
      hide ReadLine, ReadTag;
      xs := [];
      ok := CheckTag(PART);
      if !ok || n < 0 { return false, xs; }
      ghost var start := input;
      AfterNone(ReadMany(ReadLine, n, start));
      for i := 0 to n
        invariant ok && ReadMany(ReadLine, n, start) == After(xs, ReadMany(ReadLine, n - i, input))
      {
        AfterOne(ReadLine, xs, n - i, input);
        var x;
        ok, x := LoadLine();
        if !ok { return; }
        xs := xs + [x];
      }
      assert xs + [] == xs;
    }

    method LoadInts(n: int) returns (ok: bool, xs: seq<int>)
      modifies this
      ensures Follows(ReadList(ReadInt, n, old(input)), ok, xs, input)
    {
      hide ReadInt, ReadTag;
      xs := [];
      ok := CheckTag(PART);
      if !ok || n < 0 { return false, xs; }
      ghost var start := input;
      AfterNone(ReadMany(ReadInt, n, start));
      for i := 0 to n
        invariant ok && ReadMany(ReadInt, n, start) == After(xs, ReadMany(ReadInt, n - i, input))
      {
        AfterOne(ReadInt, xs, n - i, input);
        var x;
        ok, x := LoadInt();
        if !ok { return; }
        xs := xs + [x];
      }
      assert xs + [] == xs;
    }

    method LoadInstrs(n: int) returns (ok: bool, xs: seq<Instr>)
      modifies this
      ensures Follows(ReadList(ReadInstr, n, old(input)), ok, xs, input)
    {
      hide ReadInstr, ReadTag;
      xs := [];
      ok := CheckTag(PART);
      if !ok || n < 0 { return false, xs; }
      ghost var start := input;
      AfterNone(ReadMany(ReadInstr, n, start));
      for i := 0 to n
        invariant ok && ReadMany(ReadInstr, n, start) == After(xs, ReadMany(ReadInstr, n - i, input))
      {
        AfterOne(ReadInstr, xs, n - i, input);
        var x;
        ok, x := LoadInstr();
        if !ok { return; }
        xs := xs + [x];
      }
      assert xs + [] == xs;
    }

    method LoadLists(c: Counts) returns (ok: bool, b: Body)
      modifies this
      ensures Follows(ReadBody(c, old(input)), ok, b, input)
    {
      hide ReadList;
      b := Body([], [], [], [], [], [], []);
      var literals, parameters, outers, locals, lines, defaults, code;
      ok, literals := LoadObjects(c.literals);
      if !ok { return; }
      ok, parameters := LoadObjects(c.parameters);
      if !ok { return; }
      ok, outers := LoadOuters(c.outers);
      if !ok { return; }
      ok, locals := LoadLocals(c.locals);
      if !ok { return; }
      ok, lines := LoadLines(c.lines);
      if !ok { return; }
      ok, defaults := LoadInts(c.defaults);
      if !ok { return; }
      ok, code := LoadInstrs(c.code);
      if !ok { return; }
      b := Body(literals, parameters, outers, locals, lines, defaults, code);
    }

    method LoadNames() returns (ok: bool, names: (Obj, Obj))
      modifies this
      ensures Follows(ReadNames(old(input)), ok, names, input)
    {
      hide ReadTag, ReadObj;
      names := (Null, Null);
      var source, name;
      ok := CheckTag(PART);
      if !ok { return; }
      ok, source := ReadObject();
      if !ok { return; }
      ok, name := ReadObject();
      names := (source, name);
    }

    method LoadTail() returns (ok: bool, tail: (int, bool, int))
      modifies this
      ensures Follows(ReadTail(old(input)), ok, tail, input)
    {
      hide ReadInt;
      tail := (0, false, 0);
      var stackSize, b, varParams;
      ok, stackSize := LoadInt();
      if !ok { return; }
      ok, b := SafeRead(1);
      if !ok { return; }
      ok, varParams := LoadInt();
      if !ok { return; }
      tail := (stackSize, b[0] != 0, varParams);
    }

    /** SQFunctionProto::Load */
    method Load() returns (ok: bool, p: Proto)
      modifies this
      ensures Follows(ReadProto(old(input)), ok, p, input)
      decreases |input|, 0
    {
      hide ReadNames, ReadList, ReadBody, ReadTag, ReadTail, ReadProtos;
      p := Proto(Null, Null, [], [], [], [], [], [], [], [], 0, false, 0);
      var names, n, b, functions, tail;
      ok, names := LoadNames();
      if !ok { return; }
      ok, n := LoadInts(8);
      if !ok { return; }
      var c := Counts(n[0], n[1], n[2], n[3], n[4], n[5], n[6], n[7]);
      ok, b := LoadLists(c);
      if !ok { return; }
      ok := CheckTag(PART);
      if !ok { return; }
      ok, functions := LoadAll(c.functions);
      if !ok { return; }
      ok, tail := LoadTail();
      p := Proto(names.0, names.1, b.literals, b.parameters, b.outers, b.locals, b.lines, b.defaults, b.code, functions,
                 tail.0, tail.1, tail.2);
    }

    method LoadAll(n: int) returns (ok: bool, ps: seq<Proto>)
      modifies this
      ensures Follows(ReadProtos(n, old(input)), ok, ps, input)
      decreases |input|, 1
    {
      hide ReadProto;
      ps := [];
      ok := n >= 0;
      if !ok { return; }
      AfterNone(ReadProtos(n, input));
      for i := 0 to n
        invariant ok && |input| <= |old(input)| && ReadProtos(n, old(input)) == After(ps, ReadProtos(n - i, input))
      {
        AfterProto(ps, n - i, input);
        var p;
        ok, p := Load();
        if !ok { return; }
        ps := ps + [p];
      }
      assert ps + [] == ps;
    }
  }

  /** Saving a prototype and loading the stream gives the prototype back. */
  method SaveAndLoad(p: Proto) returns (saved: bool, ok: bool, q: Proto)
    requires SaveableProto(p)
    ensures saved && ok && q == p
  {
    hide WriteProto, ReadProto;
    var w := new Writer;
    w.output := [];
    saved := w.Save(p) by { SaveableIsPlain(p); }
    assert PlainProto(p) by { SaveableIsPlain(p); }
    var r := new Reader;
    r.input := w.output;
    ok, q := r.Load();
    ProtoExact(p, []);
    assert WriteProto(p) + [] == WriteProto(p) && [] + WriteProto(p) == WriteProto(p);
  }

  lemma {:induction false} SaveableIsPlain(p: Proto)
    requires SaveableProto(p)
    ensures PlainProto(p)
    decreases p
  {
    forall f | f in p.functions ensures PlainProto(f) { SaveableIsPlain(f); }
  }
}
