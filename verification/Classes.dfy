/** SQClass and SQInstance: members live in numbered slots behind an index table; this module shows
    that the layout implements named fields and methods. */
module Classes {
  type Key(==, !new)

  import opened Wrappers

  /** Closures carry the class they are bound to as their base. */
  datatype Value = Closure(id: int, bound: bool) | NativeClosure(id: int) | Plain(id: int)

  // ---------- Member indices ----------

  const BIT := 0x0100_0000

  /** MEMBER_TYPE_METHOD | i and MEMBER_TYPE_FIELD | i, for 32-bit i. */
  function MakeMethod(i: nat): nat { if i / BIT % 2 == 1 then i else i + BIT }
  function MakeField(i: nat): nat { if i / (2 * BIT) % 2 == 1 then i else i + 2 * BIT }

  predicate IsMethod(m: nat) { m / BIT % 2 == 1 }
  predicate IsField(m: nat) { m / (2 * BIT) % 2 == 1 }
  function Idx(m: nat): nat { m % BIT }

  /** The encoding can be read back exactly for indices below 2^24. */
  lemma MethodReadsBack(i: nat)
    requires i < 0x8000_0000
    ensures IsMethod(MakeMethod(i)) && !IsField(MakeMethod(i)) && Idx(MakeMethod(i)) == i <==> i < BIT
  {}

  lemma FieldReadsBack(i: nat)
    requires i < 0x8000_0000
    ensures IsField(MakeField(i)) && !IsMethod(MakeField(i)) && Idx(MakeField(i)) == i <==> i < BIT
  {}

  // ---------- Named members ----------

  /** A class as its user sees it. */
  datatype Named = Named(fields: map<Key, Value>, methods: map<Key, Value>, metamethods: map<int, Value>,
                         ctor: Option<Value>, locked: bool)

  predicate Callable(v: Value) { v.Closure? || v.NativeClosure? }

  function Bound(v: Value, derived: bool): Value { if derived && v.Closure? then v.(bound := true) else v }

  /** What a new slot means: fields of a locked class are fixed; a field keeps being a field; functions
      and static values go to the methods, those with a metamethod name to the metamethods. */
  function WithSlot(c: Named, key: Key, val: Value, static_: bool, mm: int, isCtor: bool,
                    derived: bool): Option<Named> {
    var toStatics := Callable(val) || static_;
    if c.locked && !toStatics then None
    else if key in c.fields then Some(c.(fields := c.fields[key := val]))
    else if toStatics then
      if Callable(val) && mm != -1 then Some(c.(metamethods := c.metamethods[mm := val]))
      else Some(c.(methods := c.methods[key := Bound(val, derived)], ctor := if isCtor then Some(Bound(val, derived))
                   else c.ctor))
    else Some(c.(fields := c.fields[key := val], methods := c.methods - {key}))
  }

  /** A new slot that needs a field slot of its own. */
  predicate AddsField(c: Named, key: Key, val: Value, static_: bool) {
    !c.locked && !Callable(val) && !static_ && key !in c.fields
  }

  /** A new slot that needs a method slot of its own. */
  predicate AddsMethod(c: Named, key: Key, val: Value, static_: bool, mm: int) {
    (Callable(val) || static_) && key !in c.fields && key !in c.methods && !(Callable(val) && mm != -1)
  }

  // ---------- Layout ----------

  datatype Layout = Layout(members: map<Key, nat>, defaultvalues: seq<Value>, methods: seq<Value>, constructoridx: int)

  /** Every member has a slot of its own kind in range, and no two members share one. */
  ghost predicate Laid(l: Layout, ctorKey: Key) {
    && (forall k :: k in l.members ==> IsField(l.members[k]) != IsMethod(l.members[k]))
    && (forall k :: k in l.members ==> Idx(l.members[k]) < if IsField(l.members[k]) then |l.defaultvalues|
        else |l.methods|)
    && (forall k, j :: k in l.members && j in l.members && k != j ==> l.members[k] != l.members[j])
    && (forall k :: k in l.members ==> l.members[k] == if IsField(l.members[k]) then MakeField(Idx(l.members[k]))
        else MakeMethod(Idx(l.members[k])))
    && |l.defaultvalues| <= BIT && |l.methods| <= BIT
    && -1 <= l.constructoridx < |l.methods|
    && (ctorKey in l.members && IsMethod(l.members[ctorKey]) ==> l.constructoridx == Idx(l.members[ctorKey]))
    && (forall k :: k in l.members && k != ctorKey && IsMethod(l.members[k]) ==> l.constructoridx != Idx(l.members[k]))
  }

  ghost function Fields(l: Layout, values: seq<Value>, ctorKey: Key): map<Key, Value>
    requires Laid(l, ctorKey) && |values| == |l.defaultvalues|
  {
    map k | k in l.members && IsField(l.members[k]) :: values[Idx(l.members[k])]
  }

  ghost function Methods(l: Layout, ctorKey: Key): map<Key, Value>
    requires Laid(l, ctorKey)
  {
    map k | k in l.members && !IsField(l.members[k]) :: l.methods[Idx(l.members[k])]
  }

  /** An existing field gets a value, in a class or in an instance. */
  lemma SetField(l: Layout, values: seq<Value>, ctorKey: Key, key: Key, v: Value)
    requires Laid(l, ctorKey) && |values| == |l.defaultvalues| && key in l.members && IsField(l.members[key])
    ensures Idx(l.members[key]) < |values|
    ensures Fields(l, values[Idx(l.members[key]) := v], ctorKey) == Fields(l, values, ctorKey)[key := v]
  {}

  /** An existing method gets a value. */
  lemma SetMethod(l: Layout, ctorKey: Key, key: Key, v: Value)
    requires Laid(l, ctorKey) && key in l.members && !IsField(l.members[key])
    ensures var l2 := l.(methods := l.methods[Idx(l.members[key]) := v]);
      Laid(l2, ctorKey) && Methods(l2, ctorKey) == Methods(l, ctorKey)[key := v]
          && Fields(l2, l.defaultvalues, ctorKey) == Fields(l, l.defaultvalues, ctorKey)
  {}

  /** A new method takes the next method slot. */
  lemma AddMethod(l: Layout, ctorKey: Key, key: Key, v: Value)
    requires Laid(l, ctorKey) && key !in l.members && |l.methods| < BIT
    ensures var l2 := Layout(l.members[key := MakeMethod(|l.methods|)], l.defaultvalues, l.methods + [v],
                             if key == ctorKey then |l.methods| else l.constructoridx);
      Laid(l2, ctorKey) && Methods(l2, ctorKey) == Methods(l, ctorKey)[key := v]
          && Fields(l2, l.defaultvalues, ctorKey) == Fields(l, l.defaultvalues, ctorKey)
  {
    hide MakeField, IsField, IsMethod, Idx, MakeMethod;
    MethodReadsBack(|l.methods|);
  }

  /** A new field takes the next field slot; a method of that name is no longer a member. */
  lemma AddField(l: Layout, ctorKey: Key, key: Key, v: Value)
    requires Laid(l, ctorKey) && (key in l.members ==> !IsField(l.members[key])) && |l.defaultvalues| < BIT
    ensures var l2 := l.(members := l.members[key := MakeField(|l.defaultvalues|)],
                         defaultvalues := l.defaultvalues + [v]);
      Laid(l2, ctorKey) && Methods(l2, ctorKey) == Methods(l, ctorKey) - {key}
          && Fields(l2, l2.defaultvalues, ctorKey) == Fields(l, l.defaultvalues, ctorKey)[key := v]
  {
    hide MakeField, IsField, IsMethod, Idx, MakeMethod;
    FieldReadsBack(|l.defaultvalues|);
  }

  ghost function CtorOf(l: Layout): Option<Value>
    requires -1 <= l.constructoridx < |l.methods|
  {
    if l.constructoridx == -1 then None else Some(l.methods[l.constructoridx])
  }

  /** What the shared state knows: the name of constructors, and which names are metamethods. */
  datatype Shared = Shared(ctorKey: Key, metaIndex: Key -> int)

  class SQClass {
    const ss: Shared
    const base: SQClass?
    ghost const depth: nat
    var members: map<Key, nat>
    var defaultvalues: seq<Value>
    var methods: seq<Value>
    var metamethods: map<int, Value>
    var constructoridx: int
    var locked: bool

    ghost function Shape(): Layout
      reads this
    {
      Layout(members, defaultvalues, methods, constructoridx)
    }

    ghost predicate Valid()
      reads this
    {
      Laid(Shape(), ss.ctorKey) && (base != null ==> base.depth < depth)
    }

    /** The class as its user sees it. */
    ghost function View(): Named
      reads this
      requires Valid()
    {
      Named(Fields(Shape(), defaultvalues, ss.ctorKey), Methods(Shape(), ss.ctorKey), metamethods, CtorOf(Shape()),
            locked)
    }

    /** A derived class starts with every member of its base, in the same slots. */
    constructor (ss: Shared, base: SQClass?)
      requires base != null ==> base.Valid() && base.ss == ss
      ensures Valid() && this.ss == ss && this.base == base && !locked && (base != null ==> base.depth < depth)
      ensures base != null ==> Shape() == base.Shape() && View() == base.View().(locked := false)
      ensures base == null ==> View() == Named(map[], map[], map[], None, false) && defaultvalues == methods == []
    {
      this.ss, this.base, locked := ss, base, false;
      depth := if base == null then 0 else base.depth + 1;
      if base == null {
        members, defaultvalues, methods, metamethods, constructoridx := map[], [], [], map[], -1;
      } else {
        members, defaultvalues, methods, metamethods, constructoridx :=
          base.members, base.defaultvalues, base.methods, base.metamethods, base.constructoridx;
      }
    }

    method NewSlot(key: Key, val: Value, bstatic: bool) returns (ok: bool)
      requires Valid() && (AddsField(View(), key, val, bstatic) ==> |defaultvalues| < BIT)
      requires AddsMethod(View(), key, val, bstatic, ss.metaIndex(key)) ==> |methods| < BIT
      modifies this`members, this`defaultvalues, this`methods, this`metamethods, this`constructoridx
      ensures Valid()
      ensures var r := WithSlot(old(View()), key, val, bstatic, ss.metaIndex(key), key == ss.ctorKey, base != null);
        ok == r.Some? && View() == if ok then r.value else old(View())
      ensures locked ==> |defaultvalues| == |old(defaultvalues)| && SameFields(old(members), members)
      ensures |defaultvalues| == |old(defaultvalues)| + if old(AddsField(View(), key, val, bstatic)) then 1 else 0
      ensures |methods| == |old(methods)|
                           + if old(AddsMethod(View(), key, val, bstatic, ss.metaIndex(key))) then 1 else 0
    {
      hide MakeField, MakeMethod, Idx, IsField, IsMethod, Laid;
      var toStatics := Callable(val) || bstatic;
      MemberKinds(Shape(), ss.ctorKey);
      if locked && !toStatics { return false; }
      if key in members && IsField(members[key]) {
        SetField(Shape(), defaultvalues, ss.ctorKey, key, val);
        DefaultLaid(Shape(), ss.ctorKey, key, val);
        defaultvalues := defaultvalues[Idx(members[key]) := val];
        return true;
      }
      if toStatics {
        var mmidx := ss.metaIndex(key);
        if Callable(val) && mmidx != -1 {
          metamethods := metamethods[mmidx := val];
        } else {
          var theval := Bound(val, base != null);
          SetStatic(key, theval);
        }
        return true;
      }
      AddField(Shape(), ss.ctorKey, key, val);
      members := members[key := MakeField(|defaultvalues|)];
      defaultvalues := defaultvalues + [val];
      return true;
    }

    method SetStatic(key: Key, v: Value)
      requires Valid() && (key in members ==> !IsField(members[key])) && (key !in members ==> |methods| < BIT)
      modifies this`members, this`methods, this`constructoridx
      ensures Valid() && SameFields(old(members), members)
      ensures |methods| == |old(methods)| + if key in old(members) then 0 else 1
      ensures View() == old(View()).(methods := old(View()).methods[key := v], ctor := if key == ss.ctorKey then Some(v)
                                     else old(View()).ctor)
    {
      hide MakeField, MakeMethod, Idx, IsField, IsMethod, Laid;
      MemberKinds(Shape(), ss.ctorKey);
      if key !in members {
        AddMethod(Shape(), ss.ctorKey, key, v);
        MethodReadsBack(|methods|);
        if key == ss.ctorKey { constructoridx := |methods|; }
        members := members[key := MakeMethod(|methods|)];
        methods := methods + [v];
      } else {
        SetMethod(Shape(), ss.ctorKey, key, v);
        methods := methods[Idx(members[key]) := v];
      }
    }

    /** Locks the class, its base, and so on all the way up; nothing else changes. */
    method Lock(ghost all: set<SQClass>)
      requires this in all && WithBases(all)
      modifies all`locked
      ensures forall c :: c in all ==> (c.locked <==> old(c.locked) || Above(this, c))
      decreases depth
    {
      locked := true;
      if base != null { base.Lock(all); }
    }

    /** The default of a field, or a method. */
    method Get(key: Key) returns (r: Option<Value>)
      requires Valid()
      ensures r == if key in View().fields then Some(View().fields[key])
                   else if key in View().methods then Some(View().methods[key]) else None
    {
      if key in members {
        var m := members[key];
        return if IsField(m) then Some(defaultvalues[Idx(m)]) else Some(methods[Idx(m)]);
      }
      return None;
    }

    method GetConstructor() returns (r: Option<Value>)
      requires Valid()
      ensures r == View().ctor
    {
      return if constructoridx != -1 then Some(methods[constructoridx]) else None;
    }
  }

  /** Class d is c, or its base, or the base of that, and so on. */
  ghost predicate Above(c: SQClass, d: SQClass)
    decreases c.depth
  {
    c == d || (c.base != null && c.base.depth < c.depth && Above(c.base, d))
  }

  /** The set holds the bases of its classes. */
  ghost predicate WithBases(all: set<SQClass>) {
    forall c :: c in all && c.base != null ==> c.base in all && c.base.depth < c.depth
  }

  /** The bases of locked classes are locked. */
  ghost predicate LockedUp(all: set<SQClass>)
    requires WithBases(all)
    reads all
  {
    forall c :: c in all && c.locked && c.base != null ==> c.base.locked
  }

  lemma {:induction false} AllAboveLocked(all: set<SQClass>, c: SQClass, d: SQClass)
    requires WithBases(all) && LockedUp(all) && c in all && c.locked && Above(c, d)
    ensures d in all && d.locked
    decreases c.depth
  {
    if c != d { AllAboveLocked(all, c.base, d); }
  }

  lemma {:induction false} AboveBase(c: SQClass, d: SQClass)
    requires Above(c, d) && d.base != null && d.base.depth < d.depth
    ensures Above(c, d.base)
    decreases c.depth
  {
    if c != d { AboveBase(c.base, d); } else { assert Above(d.base, d.base); }
  }

  ghost predicate SameFields(m: map<Key, nat>, m2: map<Key, nat>) {
    forall k :: (k in m && IsField(m[k]) <==> k in m2 && IsField(m2[k])) && (k in m && IsField(m[k]) ==>
        k in m2 && m2[k] == m[k])
  }

  lemma MemberKinds(l: Layout, ctorKey: Key)
    requires Laid(l, ctorKey)
    ensures forall k :: k in l.members ==> IsField(l.members[k]) != IsMethod(l.members[k])
    ensures forall k :: k in l.members ==> Idx(l.members[k]) < if IsField(l.members[k]) then |l.defaultvalues|
            else |l.methods|
    ensures -1 <= l.constructoridx < |l.methods|
    ensures ctorKey in l.members && IsMethod(l.members[ctorKey]) ==> l.constructoridx == Idx(l.members[ctorKey])
    ensures forall k :: k in l.members && k != ctorKey && IsMethod(l.members[k]) ==>
            l.constructoridx != Idx(l.members[k])
  {}

  lemma DefaultLaid(l: Layout, ctorKey: Key, key: Key, v: Value)
    requires Laid(l, ctorKey) && key in l.members && IsField(l.members[key])
    ensures var l2 := l.(defaultvalues := l.defaultvalues[Idx(l.members[key]) := v]);
            Laid(l2, ctorKey) && Methods(l2, ctorKey) == Methods(l, ctorKey)
  {}

  class SQInstance {
    const class_: SQClass
    var values: seq<Value>

    /** An instance has one value for every field slot of its class, which is locked. */
    ghost predicate Valid()
      reads this, class_
    {
      class_.Valid() && class_.locked && |values| == |class_.defaultvalues|
    }

    ghost function FieldValues(): map<Key, Value>
      reads this, class_
      requires Valid()
    {
      Fields(class_.Shape(), values, class_.ss.ctorKey)
    }

    constructor (c: SQClass)
      requires c.Valid() && c.locked
      ensures Valid() && class_ == c && FieldValues() == c.View().fields
    {
      class_, values := c, c.defaultvalues;
    }

    constructor Clone(i: SQInstance)
      requires i.Valid()
      ensures Valid() && class_ == i.class_ && FieldValues() == i.FieldValues()
    {
      class_, values := i.class_, i.values;
    }

    /** A field of this instance, or a method of its class. */
    method Get(key: Key) returns (r: Option<Value>)
      requires Valid()
      ensures r == if key in FieldValues() then Some(FieldValues()[key])
                   else if key in class_.View().methods then Some(class_.View().methods[key]) else None
    {
      if key in class_.members {
        var m := class_.members[key];
        return if IsField(m) then Some(values[Idx(m)]) else Some(class_.methods[Idx(m)]);
      }
      return None;
    }

    /** Sets one field and no other. */
    method Set(key: Key, val: Value) returns (ok: bool)
      requires Valid()
      modifies this`values
      ensures Valid() && ok == (key in old(FieldValues()))
      ensures FieldValues() == if ok then old(FieldValues())[key := val] else old(FieldValues())
    {
      if key in class_.members && IsField(class_.members[key]) {
        SetField(class_.Shape(), values, class_.ss.ctorKey, key, val);
        values := values[Idx(class_.members[key]) := val];
        return true;
      }
      return false;
    }
  }

  /** Every instance starts with the default values, and the class and all its bases are locked. */
  method CreateInstance(c: SQClass, ghost all: set<SQClass>) returns (i: SQInstance)
    requires c in all && c.Valid() && WithBases(all) && LockedUp(all)
    modifies all`locked
    ensures fresh(i) && i.Valid() && i.class_ == c && i.FieldValues() == c.View().fields
    ensures LockedUp(all) && forall d :: d in all ==> (d.locked <==> old(d.locked) || Above(c, d))
  {
    hide Laid;
    if !c.locked {
      c.Lock(all);
      forall d | d in all && d.locked && d.base != null ensures d.base.locked {
        if Above(c, d) { AboveBase(c, d); }
      }
    } else {
      forall d | d in all && Above(c, d) ensures d.locked { AllAboveLocked(all, c, d); }
    }
    assert Above(c, c);
    i := new SQInstance(c);
  }

  lemma FieldsSame(l: Layout, l2: Layout, values: seq<Value>, ctorKey: Key)
    requires Laid(l, ctorKey) && Laid(l2, ctorKey) && |values| == |l.defaultvalues| == |l2.defaultvalues|
             && SameFields(l.members, l2.members)
    ensures Fields(l, values, ctorKey) == Fields(l2, values, ctorKey)
  {}

  /** Whatever is added to a class that has instances, every instance stays whole and keeps its
      field values: all its accesses stay in range. */
  method DefineSlot(c: SQClass, key: Key, val: Value, bstatic: bool, ghost instances: set<SQInstance>)
    returns (ok: bool)
    requires c.Valid() && (AddsField(c.View(), key, val, bstatic) ==> |c.defaultvalues| < BIT)
    requires AddsMethod(c.View(), key, val, bstatic, c.ss.metaIndex(key)) ==> |c.methods| < BIT
    requires forall i :: i in instances ==> i.Valid()
    modifies c
    ensures c.Valid() && forall i :: i in instances ==> i.Valid() && i.FieldValues() == old(i.FieldValues())
    ensures var r := WithSlot(old(c.View()), key, val, bstatic, c.ss.metaIndex(key), key == c.ss.ctorKey,
                              c.base != null);
      ok == r.Some? && c.View() == if ok then r.value else old(c.View())
    ensures |c.defaultvalues| == |old(c.defaultvalues)| + if old(AddsField(c.View(), key, val, bstatic)) then 1 else 0
    ensures |c.methods| == |old(c.methods)|
                           + if old(AddsMethod(c.View(), key, val, bstatic, c.ss.metaIndex(key))) then 1 else 0
    ensures c.locked == old(c.locked)
  {
    hide Laid, Fields, SameFields;
    ghost var l := c.Shape();
    ok := c.NewSlot(key, val, bstatic);
    forall i | i in instances ensures i.Valid() && i.FieldValues() == old(i.FieldValues()) {
      if i.class_ == c { FieldsSame(l, c.Shape(), i.values, c.ss.ctorKey); }
    }
  }
}
