/** Small value types and sequence functions shared by the whole model. */
module Common {

  datatype Option<+T> = None | Some(value: T)

  /** The elements of a sequence, order and repetition forgotten. */
  function ToSet<T(==)>(s: seq<T>): set<T> {
    set x | x in s
  }

  ghost predicate Distinct<T>(s: seq<T>) {
    forall i, j :: 0 <= i < j < |s| ==> s[i] != s[j]
  }

  /** `s` with every occurrence of `x` removed. */
  function Without<T(==)>(s: seq<T>, x: T): seq<T> {
    if s == [] then []
    else if s[0] == x then Without(s[1..], x)
    else [s[0]] + Without(s[1..], x)
  }

  /** The last `n` elements, or all of them when there are fewer. */
  function LastN<T>(s: seq<T>, n: nat): (r: seq<T>)
    ensures |r| == if |s| <= n then |s| else n
  {
    if |s| <= n then s else s[|s| - n..]
  }

  function Max(a: real, b: real): (r: real)
    ensures r >= a && r >= b && (r == a || r == b)
  {
    if a >= b then a else b
  }

  function Min(a: real, b: real): (r: real)
    ensures r <= a && r <= b && (r == a || r == b)
  {
    if a <= b then a else b
  }

  lemma WithoutAppend<T(!new)>(a: seq<T>, b: seq<T>, x: T)
    ensures Without(a + b, x) == Without(a, x) + Without(b, x)
  {
    if a == [] {
      assert a + b == b;
    } else {
      assert (a + b)[1..] == a[1..] + b;
      WithoutAppend(a[1..], b, x);
    }
  }

  lemma WithoutAbsent<T(!new)>(s: seq<T>, x: T)
    requires x !in s
    ensures Without(s, x) == s
  {
    if s != [] {
      WithoutAbsent(s[1..], x);
    }
  }

  lemma WithoutElements<T(!new)>(s: seq<T>, x: T)
    ensures forall y :: y in Without(s, x) <==> y in s && y != x
    ensures ToSet(Without(s, x)) == ToSet(s) - {x}
  {
    if s != [] {
      WithoutElements(s[1..], x);
      assert forall y :: y in s <==> y == s[0] || y in s[1..];
    }
    assert forall y :: y in Without(s, x) <==> y in s && y != x;
    assert ToSet(Without(s, x)) == ToSet(s) - {x};
  }

  lemma WithoutDistinct<T(!new)>(s: seq<T>, x: T)
    requires Distinct(s)
    ensures Distinct(Without(s, x))
    ensures |Without(s, x)| == if x in s then |s| - 1 else |s|
  {
    if s != [] {
      WithoutDistinct(s[1..], x);
      WithoutElements(s[1..], x);
      assert Distinct(s[1..]) && s[0] !in s[1..];
    }
  }

  lemma DistinctSize<T(!new)>(s: seq<T>)
    requires Distinct(s)
    ensures |ToSet(s)| == |s|
  {
    if s != [] {
      DistinctSize(s[1..]);
      assert ToSet(s) == {s[0]} + ToSet(s[1..]);
      assert s[0] !in ToSet(s[1..]);
    }
  }

  lemma DistinctAppend<T(!new)>(s: seq<T>, x: T)
    requires Distinct(s) && x !in s
    ensures Distinct(s + [x])
  {
  }

  lemma SubsetSize<T>(a: set<T>, b: set<T>)
    requires a <= b
    ensures |a| <= |b|
  {
    assert b == a + (b - a);
  }

  function Fold<S, X>(f: (S, X) -> S, s: S, xs: seq<X>): S {
    if xs == [] then s else f(Fold(f, s, xs[..|xs| - 1]), xs[|xs| - 1])
  }

  lemma {:induction false} FoldAppend<S, X>(f: (S, X) -> S, s: S, a: seq<X>, b: seq<X>)
    ensures Fold(f, s, a + b) == Fold(f, Fold(f, s, a), b)
  {
    if b == [] {
      assert a + b == a;
    } else {
      FoldAppend(f, s, a, b[..|b| - 1]);
      assert (a + b)[..|a + b| - 1] == a + b[..|b| - 1];
    }
  }

  /** What holds at first and is kept by each of `n` steps holds after them. */
  lemma {:induction false} StepByStep(p: nat -> bool, n: nat)
    requires p(0) && forall k: nat :: k < n && p(k) ==> p(k + 1)
    ensures p(n)
  {
    if n > 0 {
      StepByStep(p, n - 1);
    }
  }

  // ---- Division with a positive divisor ----

  lemma DivMod(a: int, size: nat)
    requires size > 0
    ensures a == (a / size) * size + a % size && 0 <= a % size < size
  {
  }

  lemma Scale(d: int, size: nat)
    requires d >= 1
    ensures d * size >= size
  {
    assert (d - 1) * size >= 0;
    assert d * size == (d - 1) * size + size;
  }

  lemma ModOf(x: int, size: nat, q: int, r: int)
    requires 0 <= r < size && x == q * size + r
    ensures x % size == r
  {
    var q' := x / size;
    DivMod(x, size);
    assert (q - q') * size == q * size - q' * size;
    assert (q' - q) * size == q' * size - q * size;
    if q < q' {
      Scale(q' - q, size);
    } else if q > q' {
      Scale(q - q', size);
    }
  }
}
