/** Values that may be missing. */
module Wrappers {
  datatype Option<T> = None | Some(value: T)
}

/** Taking one element out of a sequence. */
module Removal {
  function Without<T>(s: seq<T>, k: nat): seq<T>
    requires k < |s|
  {
    s[..k] + s[k + 1..]
  }

  lemma {:induction false} WithoutHas<T>(s: seq<T>, k: nat)
    requires k < |s| && forall i, j :: 0 <= i < j < |s| ==> s[i] != s[j]
    ensures forall x :: x in Without(s, k) <==> x in s && x != s[k]
  {
    assert s == s[..k] + [s[k]] + s[k + 1..];
  }
}

/** Bit masks on natural numbers. */
module Masks {
  predicate PowerOfTwo(n: int) { n == 1 || (n > 1 && n % 2 == 0 && PowerOfTwo(n / 2)) }

  lemma Powers(n: nat)
    requires PowerOfTwo(n)
    ensures PowerOfTwo(n * 2) && n >= 1
  {}

  /** The bitwise and. */
  function And(a: nat, b: nat): nat {
    if a == 0 || b == 0 then 0 else (if a % 2 == 1 && b % 2 == 1 then 1 else 0) + 2 * And(a / 2, b / 2)
  }

  /** Masking with a power of two less one is taking the remainder. */
  lemma {:induction false} MaskIsMod(a: nat, n: nat)
    requires PowerOfTwo(n)
    ensures And(a, n - 1) == a % n
    decreases n
  {
    if a == 0 {
      Small(a, n);
    } else if n > 1 {
      MaskIsMod(a / 2, n / 2);
      MaskTwice(a, n / 2);
    }
  }

  lemma MaskTwice(a: nat, m: nat)
    requires a > 0 && m > 0 && And(a / 2, m - 1) == a / 2 % m
    ensures And(a, 2 * m - 1) == a % (2 * m)
  {
    AndTwice(a, m);
    Halves(a, m);
  }

  lemma AndTwice(a: nat, m: nat)
    requires a > 0 && m > 0
    ensures And(a, 2 * m - 1) == a % 2 + 2 * And(a / 2, m - 1)
  {
    assert (2 * m - 1) / 2 == m - 1 && (2 * m - 1) % 2 == 1;
  }

  lemma {:induction false} Halves(a: nat, m: nat)
    requires m > 0
    ensures a % (2 * m) == a % 2 + 2 * (a / 2 % m)
    decreases a
  {
    if a < 2 * m {
      Small(a, 2 * m);
      Small(a / 2, m);
    } else {
      Halves(a - 2 * m, m);
      Drop(a, 2 * m);
      Drop(a / 2, m);
    }
  }

  lemma Small(a: nat, m: nat)
    requires a < m
    ensures a % m == a
  {}

  lemma Drop(a: nat, m: nat)
    requires 0 < m <= a
    ensures (a - m) % m == a % m
  {
    var k, l := a / m, (a - m) / m;
    Times(k - l - 1, m);
    assert (k - l - 1) * m == k * m - l * m - m;
  }

  lemma Times(d: int, m: nat)
    ensures d >= 1 ==> d * m >= m
    ensures d <= -1 ==> d * m + m <= 0
  {}
}
