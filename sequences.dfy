/** Generic facts about sequences used by the forecast aggregation:
    first-seen distinct elements (the iteration order of a JavaScript `Map`
    filled by `set`), first occurrence, minimum, maximum and sum. */
module Sequences {

  /** The distinct elements of `s`, each at the place it first occurs. */
  function FirstSeen<T(==, !new)>(s: seq<T>): (r: seq<T>)
    ensures forall x :: x in r <==> x in s
    ensures Distinct(r)
    ensures |r| <= |s|
  {
    if s == [] then []
    else
      var prev := FirstSeen(s[..|s| - 1]);
      if s[|s| - 1] in prev then prev else prev + [s[|s| - 1]]
  }

  predicate Distinct<T(==)>(s: seq<T>) {
    forall i, j :: 0 <= i < j < |s| ==> s[i] != s[j]
  }

  /** The index at which `x` first occurs in `s`. */
  function FirstIndex<T(==)>(s: seq<T>, x: T): (r: nat)
    requires x in s
    ensures r < |s| && s[r] == x && x !in s[..r]
  {
    var prefix := s[..|s| - 1];
    if x in prefix then FirstIndex(prefix, x) else |s| - 1
  }

  /** Elements earlier in `FirstSeen(s)` occur for the first time earlier in `s`. */
  lemma {:induction false} FirstSeenOrder<T(!new)>(s: seq<T>, i: nat, j: nat)
    requires i < j < |FirstSeen(s)|
    ensures FirstIndex(s, FirstSeen(s)[i]) < FirstIndex(s, FirstSeen(s)[j])
  {
    var prefix := s[..|s| - 1];
    var prev := FirstSeen(prefix);
    var x, y := FirstSeen(s)[i], FirstSeen(s)[j];
    if s[|s| - 1] in prev {
      FirstSeenOrder(prefix, i, j);
    } else if j < |prev| {
      FirstSeenOrder(prefix, i, j);
    } else {
      assert x in prefix;
    }
  }

  /** Appending one element: FirstSeen grows by it exactly when it is new. */
  lemma FirstSeenSnoc<T(!new)>(s: seq<T>, x: T)
    ensures FirstSeen(s + [x]) == if x in s then FirstSeen(s) else FirstSeen(s) + [x]
  {
    assert (s + [x])[..|s|] == s;
  }

  /** The number of occurrences of `x` in `s`. */
  function Count<T(==)>(s: seq<T>, x: T): nat {
    if s == [] then 0 else Count(s[..|s| - 1], x) + (if s[|s| - 1] == x then 1 else 0)
  }

  lemma CountSnoc<T>(s: seq<T>, y: T, x: T)
    ensures Count(s + [y], x) == Count(s, x) + (if y == x then 1 else 0)
  {
    assert (s + [y])[..|s|] == s;
  }

  /** An element occurs a positive number of times exactly when it is in the sequence. */
  lemma {:induction false} CountPositive<T>(s: seq<T>, x: T)
    ensures Count(s, x) > 0 <==> x in s
  {
    if s != [] {
      var prefix := s[..|s| - 1];
      CountPositive(prefix, x);
      assert s == prefix + [s[|s| - 1]];
    }
  }

  /** `ys` is `xs` with `f` applied to each element. */
  ghost predicate Pointwise<A, B>(f: A --> B, xs: seq<A>, ys: seq<B>) {
    && |xs| == |ys|
    && forall i :: 0 <= i < |xs| ==> f.requires(xs[i]) && ys[i] == f(xs[i])
  }

  lemma PointwiseSnoc<A, B>(f: A --> B, xs: seq<A>, ys: seq<B>, x: A, y: B)
    requires Pointwise(f, xs, ys) && f.requires(x) && y == f(x)
    ensures Pointwise(f, xs + [x], ys + [y])
  {
    forall i | 0 <= i < |xs| + 1
      ensures f.requires((xs + [x])[i]) && (ys + [y])[i] == f((xs + [x])[i])
    {
      if i < |xs| {
        assert (xs + [x])[i] == xs[i] && (ys + [y])[i] == ys[i];
      }
    }
  }

  /** Mapping one more element of `xs` extends a pointwise image of the
      prefix `xs[..n]` to one of `xs[..n + 1]`. */
  lemma PointwisePrefixStep<A, B>(f: A --> B, xs: seq<A>, n: nat, ys: seq<B>, y: B)
    requires n < |xs| && Pointwise(f, xs[..n], ys)
    requires f.requires(xs[n]) && y == f(xs[n])
    ensures Pointwise(f, xs[..n + 1], ys + [y])
  {
    assert xs[..n + 1] == xs[..n] + [xs[n]];
    PointwiseSnoc(f, xs[..n], ys, xs[n], y);
  }

  /** The least value of a non-empty sequence: a lower bound (here) that is
      attained (SeqMinAttained). */
  function SeqMin(s: seq<real>): (m: real)
    requires |s| > 0
    ensures forall i :: 0 <= i < |s| ==> m <= s[i]
  {
    if |s| == 1 then s[0]
    else
      var prev := SeqMin(s[..|s| - 1]);
      if s[|s| - 1] < prev then s[|s| - 1] else prev
  }

  /** The greatest value of a non-empty sequence: an upper bound (here) that
      is attained (SeqMaxAttained). */
  function SeqMax(s: seq<real>): (m: real)
    requires |s| > 0
    ensures forall i :: 0 <= i < |s| ==> s[i] <= m
  {
    if |s| == 1 then s[0]
    else
      var prev := SeqMax(s[..|s| - 1]);
      if s[|s| - 1] > prev then s[|s| - 1] else prev
  }

  lemma {:induction false} SeqMinAttained(s: seq<real>)
    requires |s| > 0
    ensures SeqMin(s) in s
  {
    if |s| > 1 {
      SeqMinAttained(s[..|s| - 1]);
    }
  }

  lemma {:induction false} SeqMaxAttained(s: seq<real>)
    requires |s| > 0
    ensures SeqMax(s) in s
  {
    if |s| > 1 {
      SeqMaxAttained(s[..|s| - 1]);
    }
  }

  function Sum(s: seq<real>): real {
    if s == [] then 0.0 else Sum(s[..|s| - 1]) + s[|s| - 1]
  }

  /** One more element of a prefix: the running minimum, maximum and sum. */
  lemma PrefixStep(s: seq<real>, n: nat)
    requires n < |s|
    ensures Sum(s[..n + 1]) == Sum(s[..n]) + s[n]
    ensures n > 0 ==> SeqMin(s[..n + 1]) == (if s[n] < SeqMin(s[..n]) then s[n] else SeqMin(s[..n]))
    ensures n > 0 ==> SeqMax(s[..n + 1]) == (if s[n] > SeqMax(s[..n]) then s[n] else SeqMax(s[..n]))
  {
    assert s[..n + 1][..n] == s[..n];
  }

  function Mean(s: seq<real>): real
    requires |s| > 0
  {
    Sum(s) / (|s| as real)
  }

  /** The sum of `n` values lies between `n` times their minimum and `n` times their maximum. */
  lemma SumBetween(s: seq<real>)
    requires |s| > 0
    ensures (|s| as real) * SeqMin(s) <= Sum(s) <= (|s| as real) * SeqMax(s)
  {
    SumAtLeast(s);
    SumAtMost(s);
  }

  lemma {:induction false} SumAtLeast(s: seq<real>)
    requires |s| > 0
    ensures (|s| as real) * SeqMin(s) <= Sum(s)
  {
    if |s| > 1 {
      var prefix := s[..|s| - 1];
      var k := |prefix| as real;
      var lo, plo := SeqMin(s), SeqMin(prefix);
      SumAtLeast(prefix);
      assert lo <= plo && lo <= s[|s| - 1];
      ScaleMonotone(k, lo, plo);
      StepProduct(|s| as real, k, lo);
      assert Sum(s) == Sum(prefix) + s[|s| - 1];
      assert k * lo <= Sum(prefix);
    }
  }

  lemma {:induction false} SumAtMost(s: seq<real>)
    requires |s| > 0
    ensures Sum(s) <= (|s| as real) * SeqMax(s)
  {
    if |s| > 1 {
      var prefix := s[..|s| - 1];
      var k := |prefix| as real;
      var hi, phi := SeqMax(s), SeqMax(prefix);
      SumAtMost(prefix);
      assert phi <= hi && s[|s| - 1] <= hi;
      ScaleMonotone(k, phi, hi);
      StepProduct(|s| as real, k, hi);
      assert Sum(s) == Sum(prefix) + s[|s| - 1];
      assert Sum(prefix) <= k * hi;
    }
  }

  /** `n` copies of `x` are `k` copies and one more, when `n == k + 1`. */
  lemma StepProduct(n: real, k: real, x: real)
    requires n == k + 1.0
    ensures n * x == k * x + x
  {
  }

  lemma ScaleMonotone(k: real, a: real, b: real)
    requires k >= 0.0 && a <= b
    ensures k * a <= k * b
  {
    assert k * b - k * a == k * (b - a);
  }

  lemma ScaleStrict(k: real, a: real, b: real)
    requires k > 0.0 && a < b
    ensures k * a < k * b
  {
    assert k * b - k * a == k * (b - a);
  }

  /** The arithmetic mean lies between the minimum and the maximum. */
  lemma MeanBetween(s: seq<real>)
    requires |s| > 0
    ensures SeqMin(s) <= Mean(s) <= SeqMax(s)
  {
    SumBetween(s);
    DivideBounds(Sum(s), |s| as real, SeqMin(s), SeqMax(s));
  }

  lemma DivideBounds(total: real, n: real, lo: real, hi: real)
    requires n > 0.0 && n * lo <= total <= n * hi
    ensures lo <= total / n <= hi
  {
    var q := total / n;
    assert n * q == total;
    if q < lo {
      ScaleStrict(n, q, lo);
    }
    if q > hi {
      ScaleStrict(n, hi, q);
    }
  }
}
