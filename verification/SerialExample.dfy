/** The stream of one small function, byte by byte: it fixes the format, which round trips alone do not. */
module SerialExample {
  import opened Serial

  const Sample := Proto(
    String([102]), Null, [Integer(-1), Float([0, 0, 128, 63])], [String([116])], [Outer(1, Null, Integer(2))],
    [Local(Null, 1, 2, 3)], [Line(4, 5)], [6], [Instr(7, 8, 9, 10, 11)], [], 12, true, 13)

  // "RIQS", "TRAP", "LIAT"
  const Head: seq<byte> := [82, 73, 81, 83]
  const Part: seq<byte> := [84, 82, 65, 80]
  const Tail: seq<byte> := [76, 73, 65, 84]

  const NullBytes: seq<byte> := [1, 0, 0, 1]
  const IntegerTag: seq<byte> := [2, 0, 0, 5]
  const FloatTag: seq<byte> := [4, 0, 0, 5]
  const StringTag: seq<byte> := [16, 0, 0, 8]

  lemma FourBytes(n: nat)
    requires n < RANGE
    ensures WriteUnsigned(n) == [n % 256, n / 256 % 256, n / 65536 % 256, n / 16777216]
  {
    var a, b, c := n / 256, n / 65536, n / 16777216;
    assert a / 256 == b && b / 256 == c && c < 256;
    assert Bytes(n, 4) == [n % 256] + Bytes(a, 3) && Bytes(a, 3) == [a % 256] + Bytes(b, 2);
    assert Bytes(b, 2) == [b % 256] + Bytes(c, 1) && Bytes(c, 1) == [c % 256] + Bytes(c / 256, 0);
  }

  lemma Word(n: nat)
    requires n < 256
    ensures WriteUnsigned(n) == WriteInt(n) == [n, 0, 0, 0]
  {
    FourBytes(n);
  }

  lemma Tags()
    ensures WriteTag(HEAD) == Head && WriteTag(PART) == Part && WriteTag(TAIL) == Tail
    ensures WriteTag(OT_NULL) == NullBytes && WriteTag(OT_INTEGER) == IntegerTag
    ensures WriteTag(OT_FLOAT) == FloatTag && WriteTag(OT_STRING) == StringTag
  {
    hide WriteUnsigned;
    FourBytes(HEAD);
    FourBytes(PART);
    FourBytes(TAIL);
    FourBytes(OT_NULL);
    FourBytes(OT_INTEGER);
    FourBytes(OT_FLOAT);
    FourBytes(OT_STRING);
  }

  lemma Objects()
    ensures WriteObj(Null) == NullBytes && WriteObj(Integer(-1)) == IntegerTag + [255, 255, 255, 255]
    ensures WriteObj(Integer(2)) == IntegerTag + [2, 0, 0, 0]
    ensures WriteObj(Float([0, 0, 128, 63])) == FloatTag + [0, 0, 128, 63]
    ensures WriteObj(String([102])) == StringTag + [1, 0, 0, 0, 102]
    ensures WriteObj(String([116])) == StringTag + [1, 0, 0, 0, 116]
  {
    hide Bytes, WriteTag;
    Tags();
    Word(1);
    Word(2);
    FourBytes(RANGE - 1);
  }

  /** A list of one. */
  lemma One<T>(write: T -> seq<byte>, x: T)
    ensures WriteList(write, [x]) == WriteTag(PART) + write(x)
  {
    assert WriteMany(write, [x]) == write(x) + WriteMany(write, []);
  }

  lemma SampleNames()
    ensures WriteNames(Sample) == Part + StringTag + [1, 0, 0, 0, 102] + NullBytes
  {
    hide WriteTag, WriteObj;
    Tags();
    Objects();
  }

  lemma Many<T>(write: T -> seq<byte>, x: T, xs: seq<T>)
    ensures WriteMany(write, [x] + xs) == write(x) + WriteMany(write, xs)
  {
    assert ([x] + xs)[1..] == xs;
  }

  /** n ones and then a zero. */
  function OnesZero(n: nat): seq<int> { if n == 0 then [0] else [1] + OnesZero(n - 1) }

  function Words(n: nat): seq<byte> { if n == 0 then [0, 0, 0, 0] else [1, 0, 0, 0] + Words(n - 1) }

  lemma {:induction false} ManyOnes(n: nat)
    ensures WriteMany(WriteInt, OnesZero(n)) == Words(n)
  {
    hide WriteInt;
    if n == 0 {
      Word(0);
      Many(WriteInt, 0, []);
      assert [0] + [] == [0];
    } else {
      Word(1);
      Many(WriteInt, 1, OnesZero(n - 1));
      ManyOnes(n - 1);
    }
  }

  /** Two literals, no nested function, and one of everything else. */
  lemma SampleCounts()
    ensures WriteCounts(CountsOf(Sample)) == Part + [2, 0, 0, 0] + Words(6)
  {
    hide WriteTag, WriteInt, WriteMany, Words, OnesZero;
    Tags();
    Word(2);
    ManyOnes(6);
    SixOnes();
    Many(WriteInt, 2, OnesZero(6));
    assert CountsSeq(CountsOf(Sample)) == [2] + OnesZero(6);
  }

  lemma SixOnes()
    ensures OnesZero(6) == [1, 1, 1, 1, 1, 1, 0]
  {
    assert OnesZero(3) == [1, 1, 1, 0];
  }

  lemma SixWords()
    ensures Words(6) == [1, 0, 0, 0, 1, 0, 0, 0, 1, 0, 0, 0, 1, 0, 0, 0, 1, 0, 0, 0, 1, 0, 0, 0, 0, 0, 0, 0]
  {
    assert Words(3) == [1, 0, 0, 0, 1, 0, 0, 0, 1, 0, 0, 0, 0, 0, 0, 0];
  }

  lemma SampleLists()
    ensures WriteList(WriteObj, Sample.literals) ==
            Part + IntegerTag + [255, 255, 255, 255] + FloatTag + [0, 0, 128, 63]
    ensures WriteList(WriteObj, Sample.parameters) == Part + StringTag + [1, 0, 0, 0, 116]
    ensures WriteList(WriteOuter, Sample.outers) == Part + [1, 0, 0, 0] + NullBytes + IntegerTag + [2, 0, 0, 0]
    ensures WriteList(WriteLocal, Sample.locals) ==
            Part + NullBytes + [1, 0, 0, 0] + [2, 0, 0, 0] + [3, 0, 0, 0]
  {
    hide WriteTag, WriteObj, WriteUnsigned, WriteList;
    Tags();
    Objects();
    Word(1);
    Word(2);
    Word(3);
    Two(WriteObj, Integer(-1), Float([0, 0, 128, 63]));
    One(WriteObj, String([116]));
    One(WriteOuter, Outer(1, Null, Integer(2)));
    One(WriteLocal, Local(Null, 1, 2, 3));
  }

  lemma Two<T>(write: T -> seq<byte>, x: T, y: T)
    ensures WriteList(write, [x, y]) == WriteTag(PART) + write(x) + write(y)
  {
    hide WriteTag;
    Many(write, x, [y]);
    Many(write, y, []);
    assert [x] + [y] == [x, y] && [y] + [] == [y];
  }

  lemma SampleMoreLists()
    ensures WriteList(WriteLine, Sample.lines) == Part + [4, 0, 0, 0] + [5, 0, 0, 0]
    ensures WriteList(WriteInt, Sample.defaults) == Part + [6, 0, 0, 0]
    ensures WriteList(WriteInstr, Sample.code) == Part + [7, 0, 0, 0] + [8, 9, 10, 11]
    ensures WriteTail(Sample) == [12, 0, 0, 0] + [1] + [13, 0, 0, 0]
  {
    hide WriteTag, WriteInt, WriteList;
    Tags();
    Word(4);
    Word(5);
    Word(6);
    Word(7);
    Word(12);
    Word(13);
    One(WriteLine, Line(4, 5));
    One(WriteInt, 6);
    One(WriteInstr, Instr(7, 8, 9, 10, 11));
  }

  /** The whole stream. */
  lemma SampleStream()
    ensures SaveableProto(Sample)
    ensures WriteClosure(Sample) ==
      Head + [1, 0, 0, 0] + [4, 0, 0, 0] + [4, 0, 0, 0]
      + (Part + StringTag + [1, 0, 0, 0, 102] + NullBytes)
      + (Part + [2, 0, 0, 0] + Words(6))
      + ((Part + IntegerTag + [255, 255, 255, 255] + FloatTag + [0, 0, 128, 63])
         + (Part + StringTag + [1, 0, 0, 0, 116])
         + (Part + [1, 0, 0, 0] + NullBytes + IntegerTag + [2, 0, 0, 0])
         + (Part + NullBytes + [1, 0, 0, 0] + [2, 0, 0, 0] + [3, 0, 0, 0])
         + (Part + [4, 0, 0, 0] + [5, 0, 0, 0])
         + (Part + [6, 0, 0, 0])
         + (Part + [7, 0, 0, 0] + [8, 9, 10, 11]))
      + Part
      + ([12, 0, 0, 0] + [1] + [13, 0, 0, 0])
      + Tail
  {
    hide WriteUnsigned, WriteNames, WriteCounts, WriteList, WriteTail, Words;
    Tags();
    HeaderBytes();
    SampleNames();
    SampleCounts();
    SampleLists();
    SampleMoreLists();
    var p := Sample;
    assert WriteBody(p) == WriteList(WriteObj, p.literals) + WriteList(WriteObj, p.parameters)
      + WriteList(WriteOuter, p.outers) + WriteList(WriteLocal, p.locals) + WriteList(WriteLine, p.lines)
      + WriteList(WriteInt, p.defaults) + WriteList(WriteInstr, p.code);
    assert WriteProtos(p.functions) == [];
    assert WriteProto(p) == WriteNames(p) + WriteCounts(CountsOf(p)) + WriteBody(p) + Part + WriteTail(p);
  }

  lemma HeaderBytes()
    ensures WriteHeader() == Head + [1, 0, 0, 0] + [4, 0, 0, 0] + [4, 0, 0, 0]
  {
    hide WriteUnsigned;
    Tags();
    Word(1);
    Word(4);
  }
}
