/** Whole runs on classes and instances agree with a world of named members. */
module ClassRuns {
  import opened Wrappers
  import opened Classes

  /** A class by name, the number of its base, and how many field and method slots it has needed so far;
      an instance with its own field values. */
  datatype RefClass = RefClass(named: Named, base: Option<nat>, nfields: nat, nmethods: nat)
  datatype RefInstance = RefInstance(cls: nat, fields: map<Key, Value>)
  datatype World = World(classes: seq<RefClass>, instances: seq<RefInstance>)

  datatype Op =
    | Derive(base: Option<nat>)
    | Define(c: nat, key: Key, val: Value, bstatic: bool)
    | Instantiate(c: nat)
    | CloneOf(i: nat)
    | Read(i: nat, key: Key)
    | Write(i: nat, key: Key, val: Value)
    | ReadClass(c: nat, key: Key)
    | Constructor(c: nat)

  datatype Out = Done(ok: bool) | Found(v: Option<Value>)

  /** Numbers that are known, and no more than 2^24 slots of a kind in a class. */
  predicate Fits(ss: Shared, w: World, op: Op) {
    match op
    case Derive(base) => base.Some? ==> base.value < |w.classes|
    case Define(c, key, val, bstatic) =>
      && c < |w.classes|
      && (AddsField(w.classes[c].named, key, val, bstatic) ==> w.classes[c].nfields < BIT)
      && (AddsMethod(w.classes[c].named, key, val, bstatic, ss.metaIndex(key)) ==> w.classes[c].nmethods < BIT)
    case Instantiate(c) => c < |w.classes|
    case CloneOf(i) => i < |w.instances|
    case Read(i, _) => i < |w.instances|
    case Write(i, _, _) => i < |w.instances|
    case ReadClass(c, _) => c < |w.classes|
    case Constructor(c) => c < |w.classes|
  }

  /** Bases come before the classes derived from them, and instances have a class. */
  ghost predicate Fine(w: World) {
    && (forall k :: 0 <= k < |w.classes| && w.classes[k].base.Some? ==> w.classes[k].base.value < k)
    && (forall i :: 0 <= i < |w.instances| ==> w.instances[i].cls < |w.classes|)
  }

  /** Class d is c, or its base, or the base of that, and so on. */
  predicate Up(w: World, c: nat, d: nat)
    decreases c
  {
    c == d || (c < |w.classes| && w.classes[c].base.Some? && w.classes[c].base.value < c
        && Up(w, w.classes[c].base.value, d))
  }

  function Lookup(fields: map<Key, Value>, methods: map<Key, Value>, key: Key): Option<Value> {
    if key in fields then Some(fields[key]) else if key in methods then Some(methods[key]) else None
  }

  /** The class and all above it are locked. */
  function Locked(w: World, c: nat): seq<RefClass> {
    seq(|w.classes|, d requires 0 <= d < |w.classes| =>
      var k := w.classes[d]; k.(named := k.named.(locked := k.named.locked || Up(w, c, d))))
  }

  const Blank := RefClass(Named(map[], map[], map[], None, false), None, 0, 0)

  function Step(ss: Shared, w: World, op: Op): (World, Out)
    requires Fine(w) && Fits(ss, w, op)
  {
    match op
    case Derive(None) => (w.(classes := w.classes + [Blank]), Done(true))
    case Derive(Some(b)) =>
      var k := w.classes[b];
      (w.(classes := w.classes + [k.(named := k.named.(locked := false), base := Some(b))]), Done(true))
    case Define(c, key, val, bstatic) =>
      var k := w.classes[c];
      var r := WithSlot(k.named, key, val, bstatic, ss.metaIndex(key), key == ss.ctorKey, k.base.Some?);
      if r.None? then (w, Done(false)) else
      var nf := k.nfields + if AddsField(k.named, key, val, bstatic) then 1 else 0;
      var nm := k.nmethods + if AddsMethod(k.named, key, val, bstatic, ss.metaIndex(key)) then 1 else 0;
      (w.(classes := w.classes[c := RefClass(r.value, k.base, nf, nm)]), Done(true))
    case Instantiate(c) =>
      (World(Locked(w, c), w.instances + [RefInstance(c, w.classes[c].named.fields)]), Done(true))
    case CloneOf(i) => (w.(instances := w.instances + [w.instances[i]]), Done(true))
    case Read(i, key) => (w, Found(Lookup(w.instances[i].fields, w.classes[w.instances[i].cls].named.methods, key)))
    case Write(i, key, val) =>
      var o := w.instances[i];
      if key in o.fields then (w.(instances := w.instances[i := o.(fields := o.fields[key := val])]), Done(true))
      else (w, Done(false))
    case ReadClass(c, key) => (w, Found(Lookup(w.classes[c].named.fields, w.classes[c].named.methods, key)))
    case Constructor(c) => (w, Found(w.classes[c].named.ctor))
  }

  lemma StepFine(ss: Shared, w: World, op: Op)
    requires Fine(w) && Fits(ss, w, op)
    ensures Fine(Step(ss, w, op).0)
  {}

  ghost predicate AllFit(ss: Shared, w: World, ops: seq<Op>)
    requires Fine(w)
    decreases |ops|
  {
    ops != [] ==> Fits(ss, w, ops[0]) && (StepFine(ss, w, ops[0]); AllFit(ss, Step(ss, w, ops[0]).0, ops[1..]))
  }

  function Run(ss: Shared, w: World, ops: seq<Op>): (World, seq<Out>)
    requires Fine(w) && AllFit(ss, w, ops)
    decreases |ops|
  {
    if ops == [] then (w, []) else
    StepFine(ss, w, ops[0]);
    var s := Step(ss, w, ops[0]);
    var rest := Run(ss, s.0, ops[1..]);
    (rest.0, [s.1] + rest.1)
  }

  // ---------- What the answers have to do with each other ----------

  function Answer(ss: Shared, w: World, op: Op): Out
    requires Fine(w) && Fits(ss, w, op)
  {
    Step(ss, w, op).1
  }

  /** A slot is refused exactly if the class is locked and the slot is neither a function nor static; then
      nothing changes. */
  lemma DefineRefused(ss: Shared, w: World, c: nat, key: Key, val: Value, bstatic: bool)
    requires Fine(w) && Fits(ss, w, Define(c, key, val, bstatic))
    ensures var s := Step(ss, w, Define(c, key, val, bstatic));
      && (s.1 == Done(false) <==> w.classes[c].named.locked && val.Plain? && !bstatic)
      && (s.1 == Done(false) ==> s.0 == w)
  {}

  /** A slot that is accepted is read back by its name, for a field or a static value as it was given.  Only
      a closure that becomes a method of a derived class is bound to it.  A function with the name of a
      metamethod goes to the metamethods as it is, unless there is a field of that name.  All other names
      answer as before. */
  lemma DefineReads(ss: Shared, w: World, c: nat, key: Key, val: Value, bstatic: bool, other: Key)
    requires Fine(w) && Fits(ss, w, Define(c, key, val, bstatic))
    ensures var w2 := Step(ss, w, Define(c, key, val, bstatic)).0;
      var k, k2 := w.classes[c].named, w2.classes[c].named;
      var meta := key !in k.fields && !val.Plain? && ss.metaIndex(key) != -1;
      Answer(ss, w, Define(c, key, val, bstatic)) == Done(true) ==>
        && Fine(w2) && |w2.classes| == |w.classes|
        && (!meta ==>
              Answer(ss, w2, ReadClass(c, key)) == Found(Some(
                if val.Closure? && key !in k.fields && w.classes[c].base.Some? then Closure(val.id, true) else val)))
        && (meta ==> Answer(ss, w2, ReadClass(c, key)) == Answer(ss, w, ReadClass(c, key)))
        && k2.metamethods == (if meta then k.metamethods[ss.metaIndex(key) := val] else k.metamethods)
        && (other != key ==> Answer(ss, w2, ReadClass(c, other)) == Answer(ss, w, ReadClass(c, other)))
        && Answer(ss, w2, Constructor(c)) ==
             if key == ss.ctorKey && !meta && key !in k.fields && (!val.Plain? || bstatic)
             then Answer(ss, w2, ReadClass(c, key)) else Answer(ss, w, Constructor(c))
  {}

  /** Defining a slot leaves other classes and all instances alone, and is no reason to lock or unlock. */
  lemma DefineSpares(ss: Shared, w: World, c: nat, key: Key, val: Value, bstatic: bool)
    requires Fine(w) && Fits(ss, w, Define(c, key, val, bstatic))
    ensures var w2 := Step(ss, w, Define(c, key, val, bstatic)).0;
      && w2.instances == w.instances && |w2.classes| == |w.classes|
      && (forall d :: 0 <= d < |w.classes| && d != c ==> w2.classes[d] == w.classes[d])
      && w2.classes[c].named.locked == w.classes[c].named.locked && w2.classes[c].base == w.classes[c].base
  {}

  /** A derived class starts with everything its base answers, unlocked. */
  lemma DeriveReads(ss: Shared, w: World, b: nat, key: Key)
    requires Fine(w) && b < |w.classes|
    ensures var w2, d := Step(ss, w, Derive(Some(b))).0, |w.classes|;
      && Fine(w2) && |w2.classes| == d + 1 && w2.classes[..d] == w.classes && w2.instances == w.instances
      && Answer(ss, w2, ReadClass(d, key)) == Answer(ss, w, ReadClass(b, key))
      && Answer(ss, w2, Constructor(d)) == Answer(ss, w, Constructor(b))
      && !w2.classes[d].named.locked && w2.classes[d].base == Some(b)
      && w2.classes[d].named.metamethods == w.classes[b].named.metamethods
  {}

  /** A new instance answers as its class does, and its class and all bases of it, but no other, get locked. */
  lemma InstantiateReads(ss: Shared, w: World, c: nat, key: Key)
    requires Fine(w) && c < |w.classes|
    ensures var w2, i := Step(ss, w, Instantiate(c)).0, |w.instances|;
      && Fine(w2) && |w2.classes| == |w.classes| && |w2.instances| == i + 1 && w2.instances[..i] == w.instances
      && Answer(ss, w2, Read(i, key)) == Answer(ss, w, ReadClass(c, key))
      && forall d :: 0 <= d < |w.classes| ==>
           && w2.classes[d].named.locked == (w.classes[d].named.locked || Up(w, c, d))
           && Answer(ss, w2, ReadClass(d, key)) == Answer(ss, w, ReadClass(d, key))
  {}

  /** A copy answers as the original; a field that is written is read back from that instance and no other,
      and only fields can be written. */
  lemma WriteReads(ss: Shared, w: World, i: nat, key: Key, val: Value, j: nat, other: Key)
    requires Fine(w) && i < |w.instances| && j < |w.instances|
    ensures var w2, n := Step(ss, w, CloneOf(i)).0, |w.instances|;
      && Fine(w2) && |w2.instances| == n + 1 && w2.instances[..n] == w.instances && w2.classes == w.classes
      && Answer(ss, w2, Read(n, key)) == Answer(ss, w, Read(i, key))
    ensures var s := Step(ss, w, Write(i, key, val));
      && Fine(s.0) && |s.0.instances| == |w.instances| && s.0.classes == w.classes
      && s.1 == Done(key in w.instances[i].fields)
      && Answer(ss, s.0, Read(j, other)) ==
           if s.1 == Done(true) && j == i && other == key then Found(Some(val)) else Answer(ss, w, Read(j, other))
  {}

  /** Every instance has the fields of its class, which is locked. */
  ghost predicate Whole(w: World)
    requires Fine(w)
  {
    forall i :: 0 <= i < |w.instances| ==>
      var k := w.classes[w.instances[i].cls].named; k.locked && w.instances[i].fields.Keys == k.fields.Keys
  }

  lemma StepWhole(ss: Shared, w: World, op: Op, c: nat)
    requires Fine(w) && Fits(ss, w, op) && Whole(w) && c < |w.classes| && w.classes[c].named.locked
    ensures var w2 := Step(ss, w, op).0;
      && Fine(w2) && Whole(w2) && c < |w2.classes| && w2.classes[c].named.locked
      && w2.classes[c].named.fields.Keys == w.classes[c].named.fields.Keys
  {
    StepKeepsWhole(ss, w, op);
  }

  lemma StepKeepsWhole(ss: Shared, w: World, op: Op)
    requires Fine(w) && Fits(ss, w, op) && Whole(w)
    ensures Fine(Step(ss, w, op).0) && Whole(Step(ss, w, op).0)
  {
    match op
    case Define(c, key, val, bstatic) =>
      var w2 := Step(ss, w, op).0;
      forall i | 0 <= i < |w2.instances|
        ensures var k := w2.classes[w2.instances[i].cls].named;
          k.locked && w2.instances[i].fields.Keys == k.fields.Keys
      {
        assert w.classes[w.instances[i].cls].named.locked;
      }
    case Instantiate(c) => assert Up(w, c, c);
    case _ =>
  }

  /** Over every run a locked class stays locked and keeps its fields, so every instance keeps having exactly
      the fields of its class. */
  lemma {:induction false} RunWhole(ss: Shared, w: World, ops: seq<Op>, c: nat)
    requires Fine(w) && AllFit(ss, w, ops) && Whole(w) && c < |w.classes| && w.classes[c].named.locked
    ensures var w2 := Run(ss, w, ops).0;
      && Fine(w2) && Whole(w2) && c < |w2.classes| && w2.classes[c].named.locked
      && w2.classes[c].named.fields.Keys == w.classes[c].named.fields.Keys
    decreases |ops|
  {
    hide Fine, Fits, Whole, Step;
    if ops != [] {
      StepFine(ss, w, ops[0]);
      StepWhole(ss, w, ops[0], c);
      RunWhole(ss, Step(ss, w, ops[0]).0, ops[1..], c);
    }
  }

  ghost predicate HasField(w: World, i: nat, key: Key, val: Value) {
    i < |w.instances| && key in w.instances[i].fields && w.instances[i].fields[key] == val
  }

  /** The operation writes this field of this instance. */
  predicate WritesField(op: Op, i: nat, key: Key) { op.Write? && op.i == i && op.key == key }

  lemma StepKeepsField(ss: Shared, w: World, op: Op, i: nat, key: Key, val: Value)
    requires Fine(w) && Fits(ss, w, op) && HasField(w, i, key, val) && !WritesField(op, i, key)
    ensures HasField(Step(ss, w, op).0, i, key, val)
  {}

  /** Over every run a field of an instance reads as it was last written there: whatever is done to classes,
      to other instances and to other fields. */
  lemma {:induction false} RunKeepsField(ss: Shared, w: World, ops: seq<Op>, i: nat, key: Key, val: Value)
    requires Fine(w) && AllFit(ss, w, ops) && HasField(w, i, key, val)
    requires forall k :: 0 <= k < |ops| ==> !WritesField(ops[k], i, key)
    ensures var w2 := Run(ss, w, ops).0;
      Fine(w2) && HasField(w2, i, key, val) && Answer(ss, w2, Read(i, key)) == Found(Some(val))
    decreases |ops|
  {
    if ops == [] {
    } else {
      hide Fine, Fits, HasField, Step;
      StepFine(ss, w, ops[0]);
      StepKeepsField(ss, w, ops[0], i, key, val);
      RunKeepsField(ss, Step(ss, w, ops[0]).0, ops[1..], i, key, val);
    }
  }

  // ---------- The objects ----------

  /** The class objects stand for the classes of the world, with as many slots. */
  ghost predicate ClassesMatch(ss: Shared, w: World, cs: seq<SQClass>)
    reads cs
  {
    && |cs| == |w.classes|
    && (forall j, k :: 0 <= j < k < |cs| ==> cs[j] != cs[k])
    && (forall k :: 0 <= k < |cs| ==> ClassMatches(ss, w.classes[k], cs, k))
  }

  ghost predicate ClassMatches(ss: Shared, r: RefClass, cs: seq<SQClass>, k: nat)
    requires k < |cs|
    reads cs[k]
  {
    && cs[k].Valid() && cs[k].ss == ss && cs[k].View() == r.named && |cs[k].defaultvalues| == r.nfields
    && |cs[k].methods| == r.nmethods && BaseMatches(r, cs, k)
  }

  ghost predicate BaseMatches(r: RefClass, cs: seq<SQClass>, k: nat)
    requires k < |cs|
  {
    match r.base
    case None => cs[k].base == null
    case Some(b) => b < k && cs[k].base == cs[b] && cs[b].depth < cs[k].depth
  }

  ghost predicate InstancesMatch(w: World, cs: seq<SQClass>, xs: seq<SQInstance>)
    reads xs, cs
  {
    && |xs| == |w.instances|
    && (forall j, k :: 0 <= j < k < |xs| ==> xs[j] != xs[k])
    && (forall k :: 0 <= k < |xs| ==>
          && w.instances[k].cls < |cs| && xs[k].class_ == cs[w.instances[k].cls]
          && xs[k].Valid() && xs[k].FieldValues() == w.instances[k].fields)
  }

  ghost function All(cs: seq<SQClass>): set<SQClass> { set c | c in cs }

  ghost predicate Represents(ss: Shared, w: World, cs: seq<SQClass>, xs: seq<SQInstance>)
    reads cs, xs
  {
    && Fine(w) && ClassesMatch(ss, w, cs) && InstancesMatch(w, cs, xs)
    && WithBases(All(cs)) && LockedUp(All(cs))
  }

  method DoDerive(ss: Shared, ghost w: World, cs: seq<SQClass>, ghost xs: seq<SQInstance>, op: Op)
    returns (c: SQClass)
    requires Represents(ss, w, cs, xs) && Fits(ss, w, op) && op.Derive?
    ensures fresh(c) && Represents(ss, Step(ss, w, op).0, cs + [c], xs) && Step(ss, w, op).1 == Done(true)
  {
    hide SQClass.Valid, SQClass.View, SQInstance.Valid, SQInstance.FieldValues;
    hide ClassesMatch, InstancesMatch, WithBases, LockedUp;
    if op.base.Some? { ClassAt(ss, w, cs, op.base.value); }
    ClassCount(ss, w, cs);
    c := new SQClass(ss, if op.base.Some? then cs[op.base.value] else null);
    ghost var w2 := Step(ss, w, op).0;
    assert ClassMatches(ss, w2.classes[|cs|], cs + [c], |cs|);
    MoreClasses(ss, w, cs, c, w2.classes[|cs|]);
    MoreInstances(w, w2, cs, c, xs);
    MoreBases(cs, c);
  }

  lemma ClassAt(ss: Shared, w: World, cs: seq<SQClass>, k: nat)
    requires ClassesMatch(ss, w, cs) && k < |w.classes|
    ensures k < |cs| && ClassMatches(ss, w.classes[k], cs, k)
  {}

  lemma ClassCount(ss: Shared, w: World, cs: seq<SQClass>)
    requires ClassesMatch(ss, w, cs)
    ensures |cs| == |w.classes|
  {}

  lemma MoreClasses(ss: Shared, w: World, cs: seq<SQClass>, c: SQClass, k: RefClass)
    requires ClassesMatch(ss, w, cs) && c !in cs && ClassMatches(ss, k, cs + [c], |cs|)
    ensures ClassesMatch(ss, w.(classes := w.classes + [k]), cs + [c])
  {
    hide SQClass.Valid, SQClass.View;
    var ds, w2 := cs + [c], w.(classes := w.classes + [k]);
    forall j: nat | j < |cs| ensures ds[j] == cs[j] && ClassMatches(ss, w2.classes[j], ds, j) {
      assert ClassMatches(ss, w.classes[j], cs, j);
    }
  }

  lemma MoreInstances(w: World, w2: World, cs: seq<SQClass>, c: SQClass, xs: seq<SQInstance>)
    requires InstancesMatch(w, cs, xs) && w2.instances == w.instances
    ensures InstancesMatch(w2, cs + [c], xs)
  {
    hide SQInstance.Valid, SQInstance.FieldValues;
  }

  lemma MoreBases(cs: seq<SQClass>, c: SQClass)
    requires WithBases(All(cs)) && LockedUp(All(cs)) && !c.locked
             && (c.base != null ==> c.base in cs && c.base.depth < c.depth)
    ensures WithBases(All(cs + [c])) && LockedUp(All(cs + [c]))
  {
    assert All(cs + [c]) == All(cs) + {c};
  }

  method DoDefine(ss: Shared, ghost w: World, cs: seq<SQClass>, ghost xs: seq<SQInstance>, op: Op)
    returns (ok: bool)
    requires Represents(ss, w, cs, xs) && Fits(ss, w, op) && op.Define?
    modifies cs
    ensures Represents(ss, Step(ss, w, op).0, cs, xs) && Step(ss, w, op).1 == Done(ok)
  {
    hide SQClass.Valid, SQClass.View, SQInstance.Valid, SQInstance.FieldValues, WithSlot;
    assert ClassMatches(ss, w.classes[op.c], cs, op.c);
    RefusedAddsNothing(w.classes[op.c], op, ss);
    ok := DefineSlot(cs[op.c], op.key, op.val, op.bstatic, set x | x in xs);
    ghost var w2 := Step(ss, w, op).0;
    forall k: nat | k < |cs| ensures ClassMatches(ss, w2.classes[k], cs, k) {
      assert old(ClassMatches(ss, w.classes[k], cs, k));
    }
  }

  lemma RefusedAddsNothing(k: RefClass, op: Op, ss: Shared)
    requires op.Define?
    ensures var r := WithSlot(k.named, op.key, op.val, op.bstatic, ss.metaIndex(op.key), op.key == ss.ctorKey,
                              k.base.Some?);
            r.None? ==>
              && !AddsField(k.named, op.key, op.val, op.bstatic)
              && !AddsMethod(k.named, op.key, op.val, op.bstatic, ss.metaIndex(op.key))
  {}

  method DoInstantiate(ss: Shared, ghost w: World, cs: seq<SQClass>, ghost xs: seq<SQInstance>, op: Op)
    returns (x: SQInstance)
    requires Represents(ss, w, cs, xs) && Fits(ss, w, op) && op.Instantiate?
    modifies cs
    ensures fresh(x) && Represents(ss, Step(ss, w, op).0, cs, xs + [x]) && Step(ss, w, op).1 == Done(true)
  {
    hide Laid, Fields, Methods, CtorOf, WithSlot;
    assert ClassMatches(ss, w.classes[op.c], cs, op.c);
    forall d: nat | d < |cs| ensures Above(cs[op.c], cs[d]) <==> Up(w, op.c, d) { SameUp(ss, w, cs, op.c, d); }
    x := CreateInstance(cs[op.c], All(cs));
  }

  /** Bases of objects and of the reference are the same. */
  lemma {:induction false} SameUp(ss: Shared, w: World, cs: seq<SQClass>, c: nat, d: nat)
    requires Fine(w) && ClassesMatch(ss, w, cs) && c < |cs| && d < |cs|
    ensures Above(cs[c], cs[d]) <==> Up(w, c, d)
    decreases c
  {
    hide SQClass.Valid, SQClass.View;
    assert ClassMatches(ss, w.classes[c], cs, c);
    if c != d && w.classes[c].base.Some? { SameUp(ss, w, cs, w.classes[c].base.value, d); }
  }

  /** Operations on instances, and reading classes. */
  method DoAccess(ss: Shared, ghost w: World, cs: seq<SQClass>, xs: seq<SQInstance>, op: Op)
    returns (out: Out)
    requires Represents(ss, w, cs, xs) && Fits(ss, w, op) && (op.Read? || op.Write? || op.ReadClass? || op.Constructor?)
    modifies xs
    ensures Represents(ss, Step(ss, w, op).0, cs, xs) && Step(ss, w, op).1 == out
  {
    hide SQClass.Valid, SQClass.View, SQInstance.Valid, SQInstance.FieldValues;
    match op {
      case Read(i, key) =>
        assert ClassMatches(ss, w.classes[w.instances[i].cls], cs, w.instances[i].cls);
        var v := xs[i].Get(key); out := Found(v);
      case Write(i, key, val) => var ok := xs[i].Set(key, val); out := Done(ok);
      case ReadClass(c, key) =>
        assert ClassMatches(ss, w.classes[c], cs, c);
        var v := cs[c].Get(key); out := Found(v);
      case Constructor(c) =>
        assert ClassMatches(ss, w.classes[c], cs, c);
        var v := cs[c].GetConstructor(); out := Found(v);
    }
  }

  method DoClone(ss: Shared, ghost w: World, cs: seq<SQClass>, xs: seq<SQInstance>, op: Op)
    returns (x: SQInstance)
    requires Represents(ss, w, cs, xs) && Fits(ss, w, op) && op.CloneOf?
    ensures fresh(x) && Represents(ss, Step(ss, w, op).0, cs, xs + [x]) && Step(ss, w, op).1 == Done(true)
  {
    hide SQClass.Valid, SQClass.View, SQInstance.Valid, SQInstance.FieldValues;
    x := new SQInstance.Clone(xs[op.i]);
  }

  /** Any operation. */
  method Do(ss: Shared, ghost w: World, cs: seq<SQClass>, xs: seq<SQInstance>, op: Op)
    returns (out: Out, cs2: seq<SQClass>, xs2: seq<SQInstance>)
    requires Represents(ss, w, cs, xs) && Fits(ss, w, op)
    modifies cs, xs
    ensures Represents(ss, Step(ss, w, op).0, cs2, xs2) && Step(ss, w, op).1 == out
    ensures cs <= cs2 && (forall k :: |cs| <= k < |cs2| ==> fresh(cs2[k]))
    ensures xs <= xs2 && (forall k :: |xs| <= k < |xs2| ==> fresh(xs2[k]))
  {
    hide ClassesMatch, InstancesMatch, LockedUp, WithBases, Step;
    cs2, xs2, out := cs, xs, Done(true);
    if op.Define? {
      var ok := DoDefine(ss, w, cs, xs, op);
      out := Done(ok);
    } else {
      if op.Derive? {
        var c := DoDerive(ss, w, cs, xs, op);
        cs2 := cs + [c];
      } else if op.Instantiate? {
        var x := DoInstantiate(ss, w, cs, xs, op);
        xs2 := xs + [x];
      } else if op.CloneOf? {
        var x := DoClone(ss, w, cs, xs, op);
        xs2 := xs + [x];
      } else {
        out := DoAccess(ss, w, cs, xs, op);
      }
    }
  }

  /** Every run that derives, defines, instantiates, copies, reads and writes answers as the world of
      named members does. */
  method RunAll(ss: Shared, ops: seq<Op>) returns (outs: seq<Out>)
    requires AllFit(ss, World([], []), ops)
    ensures outs == Run(ss, World([], []), ops).1
  {
    hide Represents, Step, Fits;
    var cs: seq<SQClass>, xs: seq<SQInstance> := [], [];
    ghost var w := World([], []);
    Nothing(ss);
    outs := [];
    for n := 0 to |ops|
      invariant Fine(w) && AllFit(ss, w, ops[n..]) && Represents(ss, w, cs, xs)
      invariant Run(ss, World([], []), ops).1 == outs + Run(ss, w, ops[n..]).1
      invariant (forall k :: 0 <= k < |cs| ==> fresh(cs[k])) && (forall k :: 0 <= k < |xs| ==> fresh(xs[k]))
    {
      ghost var rest := ops[n..];
      assert rest[0] == ops[n] && rest[1..] == ops[n + 1..];
      StepFine(ss, w, ops[n]);
      var out;
      out, cs, xs := Do(ss, w, cs, xs, ops[n]);
      outs := outs + [out];
      w := Step(ss, w, ops[n]).0;
    }
  }

  lemma Nothing(ss: Shared)
    ensures Represents(ss, World([], []), [], [])
  {}
}
