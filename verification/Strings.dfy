/** SQStringTable: strings are interned, so that equal contents are the same object. */
module Strings {
  import opened Masks
  import opened Removal

  /** Characters as _hashstr sees them, converted to unsigned short. */
  type Text = seq<bv16>

  // ---------- The hash ----------

  /** Long strings are not hashed in full: (l >> 5) | 1. */
  function StepFor(l: nat): (step: nat)
    ensures l / 32 <= step <= l / 32 + 1 && step % 2 == 1
  {
    if l / 32 % 2 == 0 then l / 32 + 1 else l / 32
  }

  function Mix(h: bv32, c: bv16): bv32 { h ^ ((h << 5) + (h >> 2) + (c as bv32)) }

  /** One more character for every `step` of the length that is left. */
  function HashFrom(s: Text, k: nat, left: nat, step: nat, h: bv32): bv32
    requires step >= 1 && left <= |s| - k
    decreases left
  {
    if left < step then h else HashFrom(s, k + 1, left - step, step, Mix(h, s[k]))
  }

  function Hash(s: Text): nat { HashFrom(s, 0, |s|, StepFor(|s|), (|s| % 0x1_0000_0000) as bv32) as nat }

  method HashStr(s: Text) returns (r: nat)
    ensures r == Hash(s)
  {
    var h := (|s| % 0x1_0000_0000) as bv32;
    var step, l, k := StepFor(|s|), |s|, 0;
    while l >= step
      invariant 0 <= l <= |s| - k && HashFrom(s, k, l, step, h) as nat == Hash(s)
      decreases l
    {
      h := Mix(h, s[k]);
      l, k := l - step, k + 1;
    }
    return h as nat;
  }

  lemma MixExamples()
    ensures Mix(1, 97) == 128 && Mix(2, 97) == 163 && Mix(163, 98) == 5193
  {}

  /** The hashes of "", "a" and "ab". */
  lemma {:induction false} HashExamples()
    ensures Hash([]) == 0 && Hash([97]) == 128 && Hash([97, 98]) == 5193
  {
    hide Mix;
    MixExamples();
  }

  /** How many characters are looked at. */
  function Looks(left: nat, step: nat): (n: nat)
    requires step >= 1
    ensures n * step <= left
    decreases left
  {
    if left < step then 0 else 1 + Looks(left - step, step)
  }

  /** The hash depends on the length and the characters looked at, which are the first ones. */
  lemma {:induction false} HashPrefix(s: Text, t: Text, k: nat, left: nat, step: nat, h: bv32)
    requires |s| == |t| && step >= 1 && left <= |s| - k
    requires forall i :: k <= i < k + Looks(left, step) && i < |s| ==> s[i] == t[i]
    ensures HashFrom(s, k, left, step, h) == HashFrom(t, k, left, step, h)
    decreases left
  {
    if left >= step { HashPrefix(s, t, k + 1, left - step, step, Mix(h, s[k])); }
  }

  lemma {:induction false} LooksBound(left: nat, step: nat, b: nat)
    requires step >= 1 && left < step + b * step
    ensures Looks(left, step) <= b
    decreases left
  {
    if left >= step {
      assert b * step == step + (b - 1) * step;
      LooksBound(left - step, step, b - 1);
    }
  }

  /** At most 63 characters count, however long the string is. */
  lemma FewCharacters(l: nat)
    ensures Looks(l, StepFor(l)) <= 63
  {
    assert l < StepFor(l) + 63 * StepFor(l);
    LooksBound(l, StepFor(l), 63);
  }

  lemma HashOfPrefix(s: Text, t: Text)
    requires |s| == |t| && s[..if |s| < 63 then |s| else 63] == t[..if |s| < 63 then |s| else 63]
    ensures Hash(s) == Hash(t)
  {
    var m := if |s| < 63 then |s| else 63;
    FewCharacters(|s|);
    forall i | 0 <= i < Looks(|s|, StepFor(|s|)) && i < |s| ensures s[i] == t[i] { assert s[..m][i] == t[..m][i]; }
    HashPrefix(s, t, 0, |s|, StepFor(|s|), (|s| % 0x1_0000_0000) as bv32);
  }

  // ---------- Chains ----------

  class SQString {
    const val: Text
    const hash: nat
    var next: SQString?

    constructor (val: Text, hash: nat, next: SQString?)
      ensures this.val == val && this.hash == hash && this.next == next
    {
      this.val, this.hash, this.next := val, hash, next;
    }
  }

  type Links = map<SQString, SQString?>

  ghost predicate Linked(next: Links, head: SQString?, s: seq<SQString>) {
    && (forall k :: 0 <= k < |s| ==> s[k] in next)
    && head == (if s == [] then null else s[0])
    && (s != [] ==> next[s[|s| - 1]] == null)
    && (forall j, k :: 0 <= j < |s| && k == j + 1 < |s| ==> next[s[j]] == s[k])
    && (forall j, k :: 0 <= j < k < |s| ==> s[j] != s[k])
  }

  lemma LinkedElse(next: Links, next2: Links, head: SQString?, s: seq<SQString>)
    requires Linked(next, head, s) && forall k :: 0 <= k < |s| ==> s[k] in next2 && next2[s[k]] == next[s[k]]
    ensures Linked(next2, head, s)
  {}

  lemma NextOf(next: Links, head: SQString?, s: seq<SQString>, k: nat)
    requires Linked(next, head, s) && k < |s|
    ensures s[k] in next && next[s[k]] == if k + 1 < |s| then s[k + 1] else null
  {}

  lemma LinkedTail(next: Links, head: SQString?, s: seq<SQString>)
    requires Linked(next, head, s) && s != []
    ensures head == s[0] && s[0] in next && Linked(next, next[s[0]], s[1..]) && s[0] !in s[1..] && s == [s[0]] + s[1..]
  {
    NextOf(next, head, s, 0);
    assert forall k :: 0 <= k < |s| - 1 ==> s[1..][k] == s[k + 1];
  }

  lemma LinkedCons(next: Links, head: SQString?, s: seq<SQString>, x: SQString)
    requires Linked(next, head, s) && x !in s && x in next && next[x] == head
    ensures Linked(next, x, [x] + s)
  {}

  lemma LinkedCut(next: Links, next2: Links, head: SQString?, s: seq<SQString>, k: nat)
    requires Linked(next, head, s) && 0 < k < |s|
    requires forall j :: 0 <= j < |s| && j != k ==> s[j] in next2 && next2[s[j]] == if j == k - 1 then next[s[k]]
             else next[s[j]]
    ensures Linked(next2, head, Without(s, k))
  {
    NextOf(next, head, s, k);
    var t := Without(s, k);
    assert forall j {:trigger t[j]} :: 0 <= j < |t| ==> t[j] == if j < k then s[j] else s[j + 1];
  }

  // ---------- The table ----------

  /** Buckets, the strings in each, and how they are linked. */
  datatype Table = Table(strings: seq<SQString?>, chains: seq<seq<SQString>>, next: Links)

  function Bucket(h: nat, n: nat): (i: nat)
    requires n > 0
    ensures i < n
  {
    h % n
  }

  /** For a power of two that is the hash masked with the number of buckets less one. */
  lemma BucketMasks(h: nat, n: nat)
    requires PowerOfTwo(n)
    ensures Bucket(h, n) == And(h, n - 1)
  {
    MaskIsMod(h, n);
  }

  ghost predicate Shaped(t: Table) {
    && |t.strings| == |t.chains| > 0
    && (forall h :: 0 <= h < |t.chains| ==> Linked(t.next, t.strings[h], t.chains[h]))
    && (forall h, x {:trigger x in t.chains[h]} :: 0 <= h < |t.chains| && x in t.chains[h] ==>
         x in t.next && Bucket(x.hash, |t.chains|) == h)
  }

  /** Every live string is in the bucket of its hash, and no two have the same contents. */
  ghost predicate Interned(t: Table) {
    && Shaped(t)
    && (forall x :: x in t.next ==> x in t.chains[Bucket(x.hash, |t.chains|)] && x.hash == Hash(x.val))
    && (forall x, y :: x in t.next && y in t.next && x.val == y.val ==> x == y)
  }

  /** A string goes to the head of its bucket. */
  function Pushed(t: Table, x: SQString): Table
    requires |t.strings| == |t.chains| > 0
  {
    var h := Bucket(x.hash, |t.strings|);
    Table(t.strings[h := x], t.chains[h := [x] + t.chains[h]], t.next[x := t.strings[h]])
  }

  lemma PushedShaped(t: Table, x: SQString)
    requires Shaped(t) && (forall h :: 0 <= h < |t.chains| ==> x !in t.chains[h])
    ensures Shaped(Pushed(t, x))
    ensures var u := Pushed(t, x);
            forall h, y {:trigger y in u.chains[h]} :: 0 <= h < |u.chains| && y in u.chains[h] ==>
                y == x || y in t.chains[h]
  {
    hide Linked, Bucket;
    var u, g := Pushed(t, x), Bucket(x.hash, |t.strings|);
    forall h | 0 <= h < |t.chains| ensures Linked(u.next, t.strings[h], t.chains[h]) {
      InLinks(t.next, t.strings[h], t.chains[h]);
      forall k | 0 <= k < |t.chains[h]| ensures u.next[t.chains[h][k]] == t.next[t.chains[h][k]] {
        assert t.chains[h][k] in t.chains[h];
      }
      LinkedElse(t.next, u.next, t.strings[h], t.chains[h]);
    }
    LinkedCons(u.next, t.strings[g], t.chains[g], x);
    forall h, y | 0 <= h < |u.chains| && y in u.chains[h] ensures y in u.next && Bucket(y.hash, |u.chains|) == h
        && (y == x || y in t.chains[h]) {
    }
  }

  lemma InLinks(next: Links, head: SQString?, s: seq<SQString>)
    requires Linked(next, head, s)
    ensures forall k :: 0 <= k < |s| ==> s[k] in next
    ensures forall j, k :: 0 <= j < k < |s| ==> s[j] != s[k]
  {}

  lemma PushedInterned(t: Table, x: SQString)
    requires Interned(t) && x !in t.next && x.hash == Hash(x.val) && forall y :: y in t.next ==> y.val != x.val
    ensures Interned(Pushed(t, x)) && Pushed(t, x).next.Keys == t.next.Keys + {x}
  {
    hide Linked, Bucket;
    PushedShaped(t, x);
    var u := Pushed(t, x);
    forall y | y in u.next ensures y in u.chains[Bucket(y.hash, |u.chains|)] {
      if y != x { assert y in t.chains[Bucket(y.hash, |t.chains|)]; }
    }
  }

  /** The k-th string of bucket h is unlinked. */
  function Cut(t: Table, h: nat, k: nat): Table
    requires |t.strings| == |t.chains| && h < |t.chains| && k < |t.chains[h]|
    requires t.chains[h][k] in t.next && (k > 0 ==> t.chains[h][k - 1] in t.next)
  {
    var x, c := t.chains[h][k], t.chains[h];
    Table(if k > 0 then t.strings else t.strings[h := t.next[x]], t.chains[h := Without(c, k)],
          (if k > 0 then t.next[c[k - 1] := t.next[x]] else t.next) - {x})
  }

  lemma CutOthers(t: Table, h: nat, k: nat)
    requires Shaped(t) && h < |t.chains| && k < |t.chains[h]| && t.chains[h][k] in t.next
             && (k > 0 ==> t.chains[h][k - 1] in t.next)
    ensures var u := Cut(t, h, k); forall g :: 0 <= g < |t.chains| && g != h ==>
            Linked(u.next, t.strings[g], t.chains[g])
  {
    hide Linked, Bucket;
    var u, c := Cut(t, h, k), t.chains[h];
    assert c[k] in c && (k > 0 ==> c[k - 1] in c);
    forall g | 0 <= g < |t.chains| && g != h ensures Linked(u.next, t.strings[g], t.chains[g]) {
      InLinks(t.next, t.strings[g], t.chains[g]);
      forall j | 0 <= j < |t.chains[g]| ensures t.chains[g][j] in u.next
          && u.next[t.chains[g][j]] == t.next[t.chains[g][j]] { assert t.chains[g][j] in t.chains[g]; }
      LinkedElse(t.next, u.next, t.strings[g], t.chains[g]);
    }
  }

  lemma CutChain(t: Table, h: nat, k: nat)
    requires Shaped(t) && h < |t.chains| && k < |t.chains[h]| && t.chains[h][k] in t.next
             && (k > 0 ==> t.chains[h][k - 1] in t.next)
    ensures var u := Cut(t, h, k); Linked(u.next, u.strings[h], u.chains[h])
  {
    hide Linked, Bucket;
    var u, c := Cut(t, h, k), t.chains[h];
    InLinks(t.next, t.strings[h], c);
    if k > 0 {
      LinkedCut(t.next, u.next, t.strings[h], c, k);
    } else {
      LinkedTail(t.next, t.strings[h], c);
      assert Without(c, 0) == c[1..];
      LinkedElse(t.next, u.next, t.next[c[0]], c[1..]);
    }
  }

  lemma CutShaped(t: Table, h: nat, k: nat)
    requires Shaped(t) && h < |t.chains| && k < |t.chains[h]| && t.chains[h][k] in t.next
             && (k > 0 ==> t.chains[h][k - 1] in t.next)
    ensures Shaped(Cut(t, h, k))
  {
    hide Linked, Bucket;
    InLinks(t.next, t.strings[h], t.chains[h]);
    WithoutHas(t.chains[h], k);
    assert t.chains[h][k] in t.chains[h];
    CutOthers(t, h, k);
    CutChain(t, h, k);
  }

  lemma CutInterned(t: Table, h: nat, k: nat)
    requires Interned(t) && h < |t.chains| && k < |t.chains[h]| && t.chains[h][k] in t.next
             && (k > 0 ==> t.chains[h][k - 1] in t.next)
    ensures Interned(Cut(t, h, k)) && Cut(t, h, k).next.Keys == t.next.Keys - {t.chains[h][k]}
  {
    hide Linked, Bucket, Without;
    CutShaped(t, h, k);
    var u, c := Cut(t, h, k), t.chains[h];
    InLinks(t.next, t.strings[h], c);
    WithoutHas(c, k);
    forall y | y in u.next ensures y in u.chains[Bucket(y.hash, |u.chains|)] {
      assert y in t.chains[Bucket(y.hash, |t.chains|)];
    }
  }

  // ---------- Rehashing ----------

  /** Not yet moved: in a later bucket of the old table, or in what is left of bucket i. */
  ghost predicate Left(t: Table, i: int, rest: seq<SQString>, x: SQString)
    requires |t.chains| > 0
  {
    var g := Bucket(x.hash, |t.chains|);
    g > i || (g == i && x in rest)
  }

  ghost predicate Pending(t: Table, u: Table, i: int, p: SQString?, rest: seq<SQString>)
    requires |t.strings| == |t.chains| && 0 <= i < |t.chains|
  {
    && Linked(u.next, p, rest) && (forall x :: x in rest ==> x in t.chains[i])
    && (forall j :: i < j < |t.chains| ==> Linked(u.next, t.strings[j], t.chains[j]))
  }

  ghost predicate Accounted(t: Table, u: Table, i: int, rest: seq<SQString>)
    requires |t.chains| > 0 && |u.chains| > 0
  {
    forall x :: x in t.next ==> (Left(t, i, rest, x) <==> x !in u.chains[Bucket(x.hash, |u.chains|)])
  }

  /** Half way: u is in order as far as it goes, and the rest is still linked as before. */
  ghost predicate Moving(t: Table, u: Table, i: int, p: SQString?, rest: seq<SQString>) {
    && Interned(t) && Shaped(u) && u.next.Keys == t.next.Keys
    && 0 <= i < |t.chains| && Pending(t, u, i, p, rest) && Accounted(t, u, i, rest)
  }

  lemma Heads(next: Links, p: SQString?, rest: seq<SQString>)
    requires Linked(next, p, rest)
    ensures if p == null then rest == [] else rest != [] && p == rest[0] && p in next
  {}

  lemma InBucket(t: Table, i: int, x: SQString)
    requires Shaped(t) && 0 <= i < |t.chains| && x in t.chains[i]
    ensures x in t.next && Bucket(x.hash, |t.chains|) == i
  {}

  lemma NotAnywhere(u: Table, x: SQString)
    requires Shaped(u) && x !in u.chains[Bucket(x.hash, |u.chains|)]
    ensures forall h :: 0 <= h < |u.chains| ==> x !in u.chains[h]
  {}

  lemma Parts(t: Table)
    requires Interned(t)
    ensures Shaped(t) && |t.strings| == |t.chains| > 0
    ensures forall x :: x in t.next ==> x in t.chains[Bucket(x.hash, |t.chains|)] && x.hash == Hash(x.val)
    ensures forall x, y :: x in t.next && y in t.next && x.val == y.val ==> x == y
  {}

  /** The first string of the rest is linked into the new table. */
  lemma MoveOne(t: Table, u: Table, i: int, p: SQString, rest: seq<SQString>)
    requires Moving(t, u, i, p, rest)
    ensures rest != [] && p == rest[0] && p in u.next && |u.strings| == |u.chains| > 0
            && Moving(t, Pushed(u, p), i, u.next[p], rest[1..])
  {
    hide Linked, Bucket, Interned;
    Parts(t);
    Heads(u.next, p, rest);
    LinkedTail(u.next, p, rest);
    InBucket(t, i, p);
    assert Left(t, i, rest, p);
    NotAnywhere(u, p);
    PushedShaped(u, p);
    MoveOnePending(t, u, i, p, rest);
    MoveOneAccounted(t, u, i, p, rest);
  }

  lemma MoveOnePending(t: Table, u: Table, i: int, p: SQString, rest: seq<SQString>)
    requires Shaped(t) && |u.strings| == |u.chains| > 0 && 0 <= i < |t.chains| && Pending(t, u, i, p, rest)
    ensures p in u.next && rest != [] && Pending(t, Pushed(u, p), i, u.next[p], rest[1..])
  {
    hide Linked, Bucket;
    var v := Pushed(u, p);
    Heads(u.next, p, rest);
    LinkedTail(u.next, p, rest);
    InLinks(u.next, p, rest);
    assert p in rest;
    InBucket(t, i, p);
    LinkedElse(u.next, v.next, u.next[p], rest[1..]);
    forall j | i < j < |t.chains| ensures Linked(v.next, t.strings[j], t.chains[j]) {
      InLinks(u.next, t.strings[j], t.chains[j]);
      forall k | 0 <= k < |t.chains[j]| ensures t.chains[j][k] != p { assert t.chains[j][k] in t.chains[j]; }
      LinkedElse(u.next, v.next, t.strings[j], t.chains[j]);
    }
  }

  lemma MoveOneAccounted(t: Table, u: Table, i: int, p: SQString, rest: seq<SQString>)
    requires Shaped(t) && |u.strings| == |u.chains| > 0 && rest != [] && p == rest[0] && p !in rest[1..]
    requires 0 <= i && Accounted(t, u, i, rest) && Bucket(p.hash, |t.chains|) == i
    ensures Accounted(t, Pushed(u, p), i, rest[1..])
  {
    hide Linked, Bucket;
    var v := Pushed(u, p);
    assert rest == [p] + rest[1..];
    forall x | x in t.next ensures Left(t, i, rest[1..], x) <==> x !in v.chains[Bucket(x.hash, |v.chains|)] {
      assert Left(t, i, rest, x) <==> x !in u.chains[Bucket(x.hash, |u.chains|)];
    }
  }

  /** Bucket i is done. */
  lemma MoveOn(t: Table, u: Table, i: int)
    requires Moving(t, u, i, null, []) && i + 1 < |t.chains|
    ensures Moving(t, u, i + 1, t.strings[i + 1], t.chains[i + 1])
  {
    hide Linked, Bucket, Interned;
    Parts(t);
    forall x | x in t.next ensures Left(t, i + 1, t.chains[i + 1], x) <==> x !in u.chains[Bucket(x.hash, |u.chains|)] {
      assert Left(t, i, [], x) <==> x !in u.chains[Bucket(x.hash, |u.chains|)];
      assert x in t.chains[Bucket(x.hash, |t.chains|)];
    }
  }

  lemma MoveEnd(t: Table, u: Table, i: int)
    requires Moving(t, u, i, null, []) && i + 1 == |t.chains|
    ensures Interned(u) && u.next.Keys == t.next.Keys
  {
    hide Linked, Bucket;
    forall x | x in u.next ensures x in u.chains[Bucket(x.hash, |u.chains|)] {
      assert x in t.next && !Left(t, i, [], x);
    }
  }

  /** n empty buckets; the strings are still linked as in t. */
  function Cleared(t: Table, n: nat): Table { Table(seq(n, _ => null), seq(n, _ => []), t.next) }

  lemma ClearedShaped(t: Table, n: nat)
    requires n > 0
    ensures Shaped(Cleared(t, n))
  {}

  lemma MoveStart(t: Table, n: nat)
    requires Interned(t) && n > 0
    ensures Moving(t, Cleared(t, n), 0, t.strings[0], t.chains[0])
  {
    hide Bucket, Linked, Interned;
    Parts(t);
    var u := Cleared(t, n);
    ClearedShaped(t, n);
    assert Pending(t, u, 0, t.strings[0], t.chains[0]);
    forall x | x in t.next ensures Left(t, 0, t.chains[0], x) && x !in u.chains[Bucket(x.hash, |u.chains|)] {
      assert x in t.chains[Bucket(x.hash, |t.chains|)];
    }
  }

  // ---------- SQStringTable ----------

  class SQStringTable {
    var strings: seq<SQString?>
    var slotused: nat
    ghost var t: Table

    ghost predicate Mirrors()
      reads this, t.next.Keys
    {
      forall x :: x in t.next ==> x.next == t.next[x]
    }

    ghost predicate Valid()
      reads this, t.next.Keys
    {
      Interned(t) && Mirrors() && t.strings == strings && slotused == |t.next.Keys| && PowerOfTwo(|strings|)
    }

    ghost function Live(): set<SQString>
      reads this
    {
      t.next.Keys
    }

    constructor ()
      ensures Valid() && Live() == {}
    {
      strings, slotused := seq(4, _ => null), 0;
      t := Table(seq(4, _ => null), seq(4, _ => []), map[]);
    }

    /** The string with these contents, if it is in its bucket. */
    method Search(news: Text, h: nat) returns (s: SQString?)
      requires Valid() && h == Bucket(Hash(news), |strings|)
      ensures s != null ==> s in Live() && s.val == news
      ensures s == null ==> forall x :: x in Live() ==> x.val != news
    {
      hide PowerOfTwo, Bucket, Hash, Shaped;
      Parts(t);
      ChainOk(t, h);
      ghost var c, k := t.chains[h], 0;
      s := strings[h];
      while s != null
        invariant 0 <= k <= |c| && s == (if k < |c| then c[k] else null) && (s != null ==> s in t.next)
        invariant forall j :: 0 <= j < k ==> c[j].val != news
        decreases |c| - k
      {
        if s.val == news { return; }
        NextOf(t.next, t.strings[h], c, k);
        s, k := s.next, k + 1;
        if s != null { NextOf(t.next, t.strings[h], c, k); }
      }
      forall x | x in t.next ensures x.val == news ==> x in c {
        assert x in t.chains[Bucket(x.hash, |t.chains|)];
      }
    }

    /** Equal contents give the same object: the one that is live, or a new one. */
    method Add(news: Text) returns (s: SQString)
      requires Valid()
      modifies this, Live()
      ensures Valid() && s.val == news && s in Live()
      ensures if exists x :: x in old(Live()) && x.val == news then Live() == old(Live())
              else fresh(s) && Live() == old(Live()) + {s}
    {
      hide PowerOfTwo, Bucket, Hash, Interned;
      var hash := HashStr(news);
      Parts(t);
      var h := Bucket(hash, |strings|);
      var found := Search(news, h);
      if found != null { return found; }
      s := Insert(news, hash, h);
      if slotused > |strings| {
        Powers(|strings|);
        Resize(|strings| * 2);
      }
    }

    method Insert(news: Text, hash: nat, h: nat) returns (s: SQString)
      requires Valid() && hash == Hash(news) && h == Bucket(hash, |strings|) && forall x :: x in Live() ==>
               x.val != news
      modifies this
      ensures Valid() && fresh(s) && s.val == news && Live() == old(Live()) + {s} && |strings| == |old(strings)|
    {
      hide PowerOfTwo, Bucket, Hash, Interned;
      Sizes(t);
      ghost var t0 := t;
      s := new SQString(news, hash, strings[h]);
      PushedInterned(t0, s);
      strings := strings[h := s];
      t := Pushed(t0, s);
      slotused := slotused + 1;
    }

    method Resize(size: nat)
      requires Valid() && PowerOfTwo(size)
      modifies this`strings, this`t, Live()
      ensures Valid() && Live() == old(Live()) && |strings| == size
    {
      hide PowerOfTwo, Bucket, Hash, Interned, Shaped, Pushed, Moving;
      Powers(size);
      var oldtable := strings;
      ghost var t0 := t;
      Parts(t);
      MoveStart(t, size);
      strings := seq(size, _ => null);
      t := Cleared(t0, size);
      var i := 0;
      while i < |oldtable|
        invariant 0 <= i <= |oldtable| && t.strings == strings && |strings| == size && Live() == old(Live())
                  && Mirrors()
        invariant if i < |oldtable| then Moving(t0, t, i, oldtable[i], t0.chains[i]) else Interned(t)
      {
        MoveBucket(t0, i, oldtable[i]);
        if i + 1 < |oldtable| { MoveOn(t0, t, i); } else { MoveEnd(t0, t, i); }
        i := i + 1;
      }
    }

    method MoveBucket(ghost t0: Table, ghost i: int, head: SQString?)
      requires Interned(t0) && 0 <= i < |t0.chains| && Moving(t0, t, i, head, t0.chains[i]) && t.strings == strings
               && Mirrors()
      modifies this`strings, this`t, Live()
      ensures Moving(t0, t, i, null, []) && t.strings == strings && |strings| == |old(strings)| && Live() == old(Live())
              && Mirrors()
    {
      hide PowerOfTwo, Bucket, Hash, Interned, Shaped, Moving;
      var p := head;
      ghost var rest := t0.chains[i];
      while p != null
        invariant Moving(t0, t, i, p, rest) && t.strings == strings && |strings| == |old(strings)|
                  && Live() == old(Live()) && Mirrors()
        decreases |rest|
      {
        MoveOne(t0, t, i, p, rest);
        var next := p.next;
        var h := Bucket(p.hash, |strings|);
        p.next := strings[h];
        strings := strings[h := p];
        t := Pushed(t, p);
        p, rest := next, rest[1..];
      }
      MovedAll(t0, t, i, rest);
    }

    method Remove(bs: SQString)
      requires Valid() && bs in Live()
      modifies this, Live()
      ensures Valid() && Live() == old(Live()) - {bs}
    {
      hide PowerOfTwo, Bucket, Hash, Interned;
      Sizes(t);
      var h := Bucket(bs.hash, |strings|);
      var prev, k := Before(bs, h);
      Unlink(bs, prev, h, k);
    }

    /** What is before the string in its chain. */
    method Before(bs: SQString, h: nat) returns (prev: SQString?, ghost k: nat)
      requires Valid() && bs in Live() && h == Bucket(bs.hash, |strings|)
      ensures h < |t.chains| && k < |t.chains[h]| && t.chains[h][k] == bs && prev == if k == 0 then null
              else t.chains[h][k - 1]
    {
      hide PowerOfTwo, Bucket, Hash, Interned, Shaped;
      Parts(t);
      ChainOk(t, h);
      var s := strings[h];
      prev, k := null, 0;
      ghost var c := t.chains[h];
      ghost var pos :| 0 <= pos < |c| && c[pos] == bs;
      while s != null && s != bs
        invariant 0 <= k <= pos && s == c[k] && prev == (if k == 0 then null else c[k - 1])
        decreases |c| - k
      {
        NextOf(t.next, t.strings[h], c, k);
        prev, s, k := s, s.next, k + 1;
      }
    }

    method Unlink(bs: SQString, prev: SQString?, h: nat, ghost k: nat)
      requires Valid() && h < |t.chains| && k < |t.chains[h]| && t.chains[h][k] == bs && bs in Live()
      requires prev == if k == 0 then null else t.chains[h][k - 1]
      modifies this, Live()
      ensures Valid() && Live() == old(Live()) - {bs}
    {
      hide PowerOfTwo, Bucket, Hash, Interned, Linked;
      Sizes(t);
      if k > 0 { NextOf(t.next, t.strings[h], t.chains[h], k - 1); }
      CutInterned(t, h, k);
      if prev != null { prev.next := bs.next; } else { strings := strings[h := bs.next]; }
      slotused := slotused - 1;
      t := Cut(t, h, k);
    }
  }

  lemma Sizes(t: Table)
    requires Interned(t)
    ensures Shaped(t) && |t.strings| == |t.chains| > 0
  {}

  lemma ChainOk(t: Table, h: nat)
    requires Shaped(t) && h < |t.chains|
    ensures |t.strings| == |t.chains| && Linked(t.next, t.strings[h], t.chains[h])
  {}

  lemma MovedAll(t: Table, u: Table, i: int, rest: seq<SQString>)
    requires Moving(t, u, i, null, rest)
    ensures Moving(t, u, i, null, [])
  {
    Heads(u.next, null, rest);
  }

  // ---------- Runs ----------

  /** Intern a text, or release the string that an earlier Intern gave. */
  datatype Op = Intern(text: Text) | Drop(which: nat)

  /** The reference: a number for each text in use, numbers given in turn and never again, and the
      text and number of every Intern so far. */
  datatype Names = Names(table: map<Text, nat>, next: nat, texts: seq<Text>, ids: seq<nat>)

  /** The string that the i-th Intern gave has not been released. */
  predicate InUse(n: Names, i: nat) {
    i < |n.texts| && i < |n.ids| && n.texts[i] in n.table && n.table[n.texts[i]] == n.ids[i]
  }

  function Step(n: Names, op: Op): Names {
    match op
    case Intern(text) =>
      var id := if text in n.table then n.table[text] else n.next;
      Names(n.table[text := id], if text in n.table then n.next else n.next + 1, n.texts + [text], n.ids + [id])
    case Drop(which) => if InUse(n, which) then n.(table := n.table - {n.texts[which]}) else n
  }

  function Run(ops: seq<Op>): Names {
    if ops == [] then Names(map[], 0, [], []) else Step(Run(ops[..|ops| - 1]), ops[|ops| - 1])
  }

  /** Numbers in use are below the next one and belong to one text each. */
  ghost predicate Numbered(n: Names) {
    && |n.texts| == |n.ids| && (forall i :: 0 <= i < |n.ids| ==> n.ids[i] < n.next)
    && (forall t :: t in n.table ==> n.table[t] < n.next)
    && (forall t, u :: t in n.table && u in n.table && n.table[t] == n.table[u] ==> t == u)
    && (forall i, j :: 0 <= i < |n.ids| && 0 <= j < |n.ids| && n.ids[i] == n.ids[j] ==> n.texts[i] == n.texts[j])
    && (forall i, t :: 0 <= i < |n.ids| && t in n.table && n.table[t] == n.ids[i] ==> n.texts[i] == t)
  }

  lemma StepNumbered(n: Names, op: Op)
    requires Numbered(n)
    ensures Numbered(Step(n, op))
  {}

  /** The objects handed out match the numbers handed out, and the live ones are those in use. */
  ghost predicate Mirrored(n: Names, got: seq<SQString>, live: set<SQString>) {
    && |got| == |n.ids| == |n.texts|
    && (forall i :: 0 <= i < |got| ==> got[i].val == n.texts[i] && (got[i] in live <==> InUse(n, i)))
    && (forall i, j :: 0 <= i < |got| && 0 <= j < |got| ==> (got[i] == got[j] <==> n.ids[i] == n.ids[j]))
    && (forall x :: x in live ==> x in got)
    && (forall t :: t in n.table ==> exists i :: 0 <= i < |got| && n.texts[i] == t && n.ids[i] == n.table[t])
  }

  lemma InternIs(n: Names, t: Text)
    requires Numbered(n) && |n.ids| == |n.texts|
    ensures var m := Step(n, Intern(t));
            var id := if t in n.table then n.table[t] else n.next;
            && m.texts == n.texts + [t] && m.ids == n.ids + [id] && m.table == n.table[t := id]
            && InUse(m, |n.ids|) && forall j: nat :: j < |n.ids| ==> (InUse(m, j) <==> InUse(n, j))
    ensures t !in n.table ==> n.next !in n.ids
  {}

  /** The text is in use: the string is the one handed out before. */
  lemma InternKnown(n: Names, got: seq<SQString>, live: set<SQString>, i: nat)
    requires Numbered(n) && Mirrored(n, got, live) && InUse(n, i)
    ensures Mirrored(Step(n, Intern(n.texts[i])), got + [got[i]], live)
  {
    assert n.texts[i] in n.table && n.table[n.texts[i]] == n.ids[i];
    hide InUse, Step, Numbered;
    InternIs(n, n.texts[i]);
    var m := Step(n, Intern(n.texts[i]));
    assert m.table == n.table;
    forall t | t in m.table ensures exists j :: 0 <= j < |m.ids| && m.texts[j] == t && m.ids[j] == m.table[t] {
      var j :| 0 <= j < |got| && n.texts[j] == t && n.ids[j] == n.table[t];
      assert m.texts[j] == t && m.ids[j] == m.table[t];
    }
  }

  /** The text is not in use: the string is an object never seen. */
  lemma InternNew(n: Names, got: seq<SQString>, live: set<SQString>, s: SQString)
    requires Numbered(n) && Mirrored(n, got, live) && s.val !in n.table && s !in got
    ensures Mirrored(Step(n, Intern(s.val)), got + [s], live + {s})
  {
    hide InUse, Step, Numbered;
    InternIs(n, s.val);
    var m := Step(n, Intern(s.val));
    forall t | t in m.table ensures exists j :: 0 <= j < |m.ids| && m.texts[j] == t && m.ids[j] == m.table[t] {
      if t == s.val {
        assert m.texts[|got|] == t && m.ids[|got|] == m.table[t];
      } else {
        var j :| 0 <= j < |got| && n.texts[j] == t && n.ids[j] == n.table[t];
        assert m.texts[j] == t && m.ids[j] == m.table[t];
      }
    }
  }

  lemma DropOne(n: Names, i: nat, j: nat)
    requires Numbered(n) && InUse(n, i) && j < |n.ids|
    ensures InUse(Step(n, Drop(i)), j) <==> InUse(n, j) && n.ids[j] != n.ids[i]
  {}

  lemma DropIs(n: Names, i: nat)
    requires InUse(n, i)
    ensures i < |n.texts| && Step(n, Drop(i)) == n.(table := n.table - {n.texts[i]})
  {}

  lemma DropMirrored(n: Names, got: seq<SQString>, live: set<SQString>, i: nat)
    requires Numbered(n) && Mirrored(n, got, live) && InUse(n, i)
    ensures Mirrored(Step(n, Drop(i)), got, live - {got[i]})
  {
    hide InUse, Step, Numbered;
    DropIs(n, i);
    var m := Step(n, Drop(i));
    forall j: nat | j < |got| ensures got[j] in live - {got[i]} <==> InUse(m, j) { DropOne(n, i, j); }
    forall t | t in m.table ensures exists j :: 0 <= j < |m.ids| && m.texts[j] == t && m.ids[j] == m.table[t] {
      var j :| 0 <= j < |got| && n.texts[j] == t && n.ids[j] == n.table[t];
      assert m.texts[j] == t;
    }
  }

  lemma RunStarts()
    ensures Numbered(Run([])) && Mirrored(Run([]), [], {})
  {}

  lemma MirroredFacts(n: Names, got: seq<SQString>, live: set<SQString>)
    requires Mirrored(n, got, live)
    ensures |got| == |n.ids| == |n.texts| && forall i :: 0 <= i < |got| ==> (got[i] in live <==> InUse(n, i))
    ensures forall i :: 0 <= i < |got| ==> got[i].val == n.texts[i]
    ensures forall x :: x in live ==> x in got && x.val in n.table
    ensures forall t :: t in n.table ==> exists x :: x in live && x.val == t
  {
    forall x | x in live ensures x.val in n.table {
      var i :| 0 <= i < |got| && got[i] == x;
      assert InUse(n, i);
    }
    forall t | t in n.table ensures exists x :: x in live && x.val == t {
      var i :| 0 <= i < |got| && n.texts[i] == t && n.ids[i] == n.table[t];
      assert InUse(n, i) && got[i] in live;
    }
  }

  method Do(table: SQStringTable, op: Op, got: seq<SQString>, live: set<SQString>, ghost n: Names)
    returns (got2: seq<SQString>, live2: set<SQString>)
    requires table.Valid() && live == table.Live() && Numbered(n) && Mirrored(n, got, live)
    modifies table, table.Live()
    ensures table.Valid() && live2 == table.Live() && Mirrored(Step(n, op), got2, live2)
    ensures forall x :: x in live2 ==> x in live || fresh(x)
  {
    hide SQStringTable.Valid, Numbered, Mirrored, Step;
    MirroredFacts(n, got, live);
    got2, live2 := got, live;
    match op {
      case Intern(text) =>
        var s := table.Add(text);
        got2, live2 := got + [s], live + {s};
        if s in live {
          ghost var i :| 0 <= i < |got| && got[i] == s;
          InternKnown(n, got, live, i);
          assert live + {s} == live;
        } else {
          InternNew(n, got, live, s);
        }
      case Drop(which) =>
        DropSteps(n, which);
        if which < |got| && got[which] in live {
          DropMirrored(n, got, live, which);
          table.Remove(got[which]);
          live2 := live - {got[which]};
        }
    }
  }

  /** Over every run, two Interns give the same object exactly when the reference gives the same number,
      and a string is live exactly as long as its number is in use. */
  method RunAll(ops: seq<Op>) returns (got: seq<SQString>, live: set<SQString>)
    ensures Mirrored(Run(ops), got, live)
  {
    hide SQStringTable.Valid, Numbered, Mirrored, Step;
    var table := new SQStringTable();
    got, live := [], {};
    ghost var ref := Run([]);
    RunStarts();
    for n := 0 to |ops|
      invariant ref == Run(ops[..n]) && Numbered(ref) && Mirrored(ref, got, live)
      invariant fresh(table) && table.Valid() && live == table.Live() && forall x :: x in live ==> fresh(x)
    {
      assert ops[..n + 1][..n] == ops[..n] && ops[..n + 1][n] == ops[n];
      StepNumbered(ref, ops[n]);
      got, live := Do(table, ops[n], got, live, ref);
      ref := Step(ref, ops[n]);
    }
    assert ops[..|ops|] == ops;
  }

  lemma DropSteps(n: Names, which: nat)
    ensures !InUse(n, which) ==> Step(n, Drop(which)) == n
  {}

  /** So live strings are the same object exactly when their texts are equal. */
  lemma {:induction false} LiveByText(ops: seq<Op>, got: seq<SQString>, live: set<SQString>, i: nat, j: nat)
    requires Mirrored(Run(ops), got, live) && i < |got| && j < |got| && got[i] in live && got[j] in live
    ensures got[i] == got[j] <==> Run(ops).texts[i] == Run(ops).texts[j]
  {
    assert InUse(Run(ops), i) && InUse(Run(ops), j);
  }
}
