/** The interpreter's books on frames: each call records its caller relative to itself, and one list
    holds the traps of all calls. */
module Bookkeeping {
  import opened CallFrames

  /** generator is whatever the interpreter keeps there; the books do not look at it. */
  datatype CallInfo<G> = CallInfo(
    prevstkbase: int, prevtop: int, etraps: int, ncalls: nat, root: bool, target: int, ip: int, generator: G)

  datatype Books<G> = Books(calls: seq<CallInfo<G>>, etraps: seq<Trap>, base: int, top: int)

  function LastCall<G>(k: Books<G>): CallInfo<G>
    requires k.calls != []
  {
    k.calls[|k.calls| - 1]
  }

  /** The calls with the current one changed. */
  function Last<G>(calls: seq<CallInfo<G>>, c: CallInfo<G>): seq<CallInfo<G>>
    requires calls != []
  {
    calls[..|calls| - 1] + [c]
  }

  /** The books of the caller, with all traps but the last n. */
  function Caller<G>(k: Books<G>, n: nat): Books<G>
    requires k.calls != [] && n <= |k.etraps|
  {
    var c := LastCall(k);
    var base := k.base - c.prevstkbase;
    Books(k.calls[..|k.calls| - 1], k.etraps[..|k.etraps| - n], base, base + c.prevtop)
  }

  /** What a call says about its frame, apart from where the frame lies. */
  predicate Describes<G>(c: CallInfo<G>, f: Frame) {
    c.etraps == |f.traps| && c.ncalls == f.ncalls && c.root == f.root && c.target == f.target && c.ip == f.ip
  }

  /** The books describe these frames. */
  ghost predicate Match<G>(k: Books<G>, frames: seq<Frame>)
    decreases |k.calls|
  {
    && |frames| == |k.calls| + 1
    && var f := frames[|k.calls|];
       f.base == k.base && f.top == k.top &&
       if k.calls == [] then f.traps == [] && k.etraps == [] else
       && Describes(LastCall(k), f) && |f.traps| <= |k.etraps| && k.etraps[|k.etraps| - |f.traps|..] == f.traps
       && Match(Caller(k, |f.traps|), frames[..|k.calls|])
  }

  function TrapCount<G>(calls: seq<CallInfo<G>>): int {
    if calls == [] then 0 else TrapCount(calls[..|calls| - 1]) + calls[|calls| - 1].etraps
  }

  /** The trap list is as long as the frames say together. */
  lemma {:induction false} MatchCounts<G>(k: Books<G>, frames: seq<Frame>)
    requires Match(k, frames)
    ensures |k.etraps| == TrapCount(k.calls)
    decreases |k.calls|
  {
    if k.calls != [] { MatchCounts(Caller(k, |frames[|k.calls|].traps|), frames[..|k.calls|]); }
  }

  lemma {:induction false} SplitTraps<G>(k: Books<G>, frames: seq<Frame>)
    requires Match(k, frames) && k.calls != []
    ensures var n := |frames[|k.calls|].traps|;
      n <= |k.etraps| && k.etraps == k.etraps[..|k.etraps| - n] + frames[|k.calls|].traps
  {
    var n := |frames[|k.calls|].traps|;
    assert k.etraps[|k.etraps| - n..] == frames[|k.calls|].traps;
  }

  /** A frame is entered, with traps that it brings along. */
  lemma {:induction false} MatchEnter<G>(k: Books<G>, frames: seq<Frame>, c: CallInfo<G>, f: Frame)
    requires Match(k, frames) && Describes(c, f)
    requires c.prevstkbase == f.base - k.base && c.prevtop == k.top - k.base
    ensures Match(Books(k.calls + [c], k.etraps + f.traps, f.base, f.top), frames + [f])
  {
    var k2 := Books(k.calls + [c], k.etraps + f.traps, f.base, f.top);
    assert (frames + [f])[..|frames|] == frames;
    assert k2.calls[..|k.calls|] == k.calls && k2.etraps[..|k.etraps|] == k.etraps
        && k2.etraps[|k.etraps|..] == f.traps;
    assert Caller(k2, |f.traps|) == k;
  }

  /** The current frame changes, and pushes or pops traps of its own. */
  lemma {:induction false} MatchCurrent<G>(k: Books<G>, frames: seq<Frame>, c: CallInfo<G>, f: Frame)
    requires Match(k, frames) && k.calls != [] && Describes(c, f) && f.base == k.base
    requires c.prevstkbase == LastCall(k).prevstkbase && c.prevtop == LastCall(k).prevtop
    requires |frames[|k.calls|].traps| <= |k.etraps|
    ensures var below := k.etraps[..|k.etraps| - |frames[|k.calls|].traps|];
      Match(Books(Last(k.calls, c), below + f.traps, k.base, f.top), frames[..|k.calls|] + [f])
  {
    var below := k.etraps[..|k.etraps| - |frames[|k.calls|].traps|];
    var k2 := Books(Last(k.calls, c), below + f.traps, k.base, f.top);
    assert (frames[..|k.calls|] + [f])[..|k.calls|] == frames[..|k.calls|];
    assert k2.etraps[..|below|] == below && k2.etraps[|below|..] == f.traps;
    assert Caller(k2, |f.traps|) == Caller(k, |frames[|k.calls|].traps|);
  }

  lemma {:induction false} MatchTop<G>(k: Books<G>, frames: seq<Frame>, top: int)
    requires Match(k, frames)
    ensures Match(k.(top := top), frames[..|k.calls|] + [frames[|k.calls|].(top := top)])
  {
    var f := frames[|k.calls|].(top := top);
    assert (frames[..|k.calls|] + [f])[..|k.calls|] == frames[..|k.calls|];
    if k.calls != [] { assert Caller(k.(top := top), |f.traps|) == Caller(k, |f.traps|); }
  }

  /** Leaving a frame keeps the books in order exactly when the frame has popped its traps. */
  lemma {:induction false} MatchLeave<G>(k: Books<G>, frames: seq<Frame>)
    requires Match(k, frames) && k.calls != []
    ensures Match(Caller(k, 0), frames[..|k.calls|]) <==> frames[|k.calls|].traps == []
  {
    if frames[|k.calls|].traps != [] && Match(Caller(k, 0), frames[..|k.calls|]) {
      MatchCounts(Caller(k, 0), frames[..|k.calls|]);
      MatchCounts(k, frames);
    }
  }

  lemma {:induction false} MatchCaller<G>(k: Books<G>, frames: seq<Frame>)
    requires Match(k, frames) && k.calls != []
    ensures frames[|k.calls| - 1].base == k.base - LastCall(k).prevstkbase
    ensures frames[|k.calls| - 1].top == frames[|k.calls| - 1].base + LastCall(k).prevtop
  {
    var n := |frames[|k.calls|].traps|;
    assert Match(Caller(k, n), frames[..|k.calls|]);
    assert frames[..|k.calls|][|k.calls| - 1] == frames[|k.calls| - 1];
  }

  /** If the base moves, so do all callers. */
  lemma {:induction false} MatchShift<G>(k: Books<G>, frames: seq<Frame>, d: int)
    requires Match(k, frames)
    ensures Match(k.(base := k.base + d, top := k.top + d), Shift(frames, d))
    decreases |k.calls|
  {
    if k.calls != [] {
      var n := |frames[|k.calls|].traps|;
      MatchShift(Caller(k, n), frames[..|k.calls|], d);
      assert Shift(frames, d)[..|k.calls|] == Shift(frames[..|k.calls|], d);
    }
  }

  /** An error that the current frame catches: it goes to the base of the trap. */
  lemma {:induction false} MatchCatch<G>(k: Books<G>, frames: seq<Frame>)
    requires Match(k, frames) && k.calls != [] && frames[|k.calls|].traps != []
    ensures k.etraps != []
    ensures var f, c, t := frames[|k.calls|], LastCall(k), k.etraps[|k.etraps| - 1];
      && t == f.traps[|f.traps| - 1]
      && var caught := f.(traps := f.traps[..|f.traps| - 1], base := t.stackbase, top := t.stacksize, ip := t.ip);
         Match(Books(Last(k.calls, c.(ip := t.ip, etraps := c.etraps - 1)), k.etraps[..|k.etraps| - 1], t.stackbase,
                     t.stacksize),
               Shift(frames[..|k.calls|], t.stackbase - f.base) + [caught])
  {
    SplitTraps(k, frames);
    var f, c, t, n := frames[|k.calls|], LastCall(k), k.etraps[|k.etraps| - 1], |k.calls|;
    var d, m := t.stackbase - f.base, |k.etraps| - |f.traps|;
    var caught := f.(traps := f.traps[..|f.traps| - 1], base := t.stackbase, top := t.stacksize, ip := t.ip);
    var k2 := Books(Last(k.calls, c.(ip := t.ip, etraps := c.etraps - 1)), k.etraps[..|k.etraps| - 1], t.stackbase,
                    t.stacksize);
    var below := Caller(k, |f.traps|);
    MatchShift(below, frames[..n], d);
    assert Match(below.(base := below.base + d, top := below.top + d), Shift(frames[..n], d));
    assert k2.etraps[..m] == below.etraps && k2.etraps[m..] == caught.traps;
    assert Caller(k2, |caught.traps|) == below.(base := below.base + d, top := below.top + d);
    assert (Shift(frames[..n], d) + [caught])[..n] == Shift(frames[..n], d);
  }
}
