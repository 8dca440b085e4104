/** Finite sums over sequences of reals, the arithmetic every weight table here relies on. */
module Sums {

  /** Left-to-right sum, in the order the source's accumulator loops add. */
  function Sum(s: seq<real>): real
  {
    if s == [] then 0.0 else Sum(s[..|s| - 1]) + s[|s| - 1]
  }

  predicate NonNegative(s: seq<real>)
  {
    forall i :: 0 <= i < |s| ==> s[i] >= 0.0
  }

  /** Every entry lies in [0, 1]. */
  predicate UnitBounded(s: seq<real>)
  {
    forall i :: 0 <= i < |s| ==> 0.0 <= s[i] <= 1.0
  }

  /** The one-hot vector of length n with its 1 at k. */
  function OneHot(n: nat, k: nat): (r: seq<real>)
    ensures |r| == n
  {
    seq(n, i => if i == k then 1.0 else 0.0)
  }

  /** Scalar product of a with the first |a| entries of b. */
  function Dot(a: seq<real>, b: seq<real>): real
    requires |a| <= |b|
  {
    if a == [] then 0.0 else Dot(a[..|a| - 1], b) + a[|a| - 1] * b[|a| - 1]
  }

  lemma {:induction false} DivideSelf(x: real)
    requires x != 0.0
    ensures x / x == 1.0
  {
  }

  lemma {:induction false} SumAppend(a: seq<real>, b: seq<real>)
    ensures Sum(a + b) == Sum(a) + Sum(b)
  {
    if b == [] {
      assert a + b == a;
    } else {
      assert (a + b)[..|a + b| - 1] == a + b[..|b| - 1];
      SumAppend(a, b[..|b| - 1]);
    }
  }

  lemma {:induction false} SumNonNegative(s: seq<real>)
    requires NonNegative(s)
    ensures Sum(s) >= 0.0
  {
    if s != [] {
      SumNonNegative(s[..|s| - 1]);
    }
  }

  /** A prefix of a non-negative sequence never sums to more than the whole. */
  lemma {:induction false} SumPrefixMonotone(s: seq<real>, i: nat, j: nat)
    requires NonNegative(s) && i <= j <= |s|
    ensures Sum(s[..i]) <= Sum(s[..j])
  {
    if i < j {
      SumPrefixMonotone(s, i, j - 1);
      assert s[..j][..j - 1] == s[..j - 1];
    }
  }

  lemma {:induction false} SumConstant(n: nat, c: real)
    ensures Sum(seq(n, _ => c)) == n as real * c
  {
    if n > 0 {
      assert seq(n, _ => c)[..n - 1] == seq(n - 1, _ => c);
      SumConstant(n - 1, c);
    }
  }

  /** Dividing every entry by t divides the sum by t. */
  lemma {:induction false} SumDivide(s: seq<real>, t: real)
    requires t != 0.0
    ensures Sum(seq(|s|, i requires 0 <= i < |s| => s[i] / t)) == Sum(s) / t
  {
    var d := seq(|s|, i requires 0 <= i < |s| => s[i] / t);
    if s != [] {
      var p := s[..|s| - 1];
      assert d[..|s| - 1] == seq(|p|, i requires 0 <= i < |p| => p[i] / t);
      SumDivide(p, t);
    }
  }

  lemma {:induction false} SumOneHot(n: nat, k: nat)
    ensures Sum(OneHot(n, k)) == if k < n then 1.0 else 0.0
  {
    if n > 0 {
      assert OneHot(n, k)[..n - 1] == OneHot(n - 1, k);
      SumOneHot(n - 1, k);
    }
  }

  /** Only the prefix of b up to |a| matters to Dot(a, b). */
  lemma {:induction false} DotPrefix(a: seq<real>, b: seq<real>, c: seq<real>)
    requires |a| <= |b| && |a| <= |c|
    requires forall i :: 0 <= i < |a| ==> b[i] == c[i]
    ensures Dot(a, b) == Dot(a, c)
  {
    if a != [] {
      DotPrefix(a[..|a| - 1], b, c);
    }
  }

  /** A one-hot weight vector picks out one entry. */
  lemma {:induction false} DotOneHot(n: nat, k: nat, b: seq<real>)
    requires k < n <= |b|
    ensures Dot(OneHot(n, k), b) == b[k]
  {
    if n - 1 == k {
      assert OneHot(n, k)[..n - 1] == OneHot(n - 1, k);
      DotZeroWeights(n - 1, b);
      assert OneHot(n - 1, k) == seq(n - 1, _ => 0.0);
    } else {
      assert OneHot(n, k)[..n - 1] == OneHot(n - 1, k);
      DotOneHot(n - 1, k, b);
    }
  }

  lemma {:induction false} DotZeroWeights(n: nat, b: seq<real>)
    requires n <= |b|
    ensures Dot(seq(n, _ => 0.0), b) == 0.0
  {
    if n > 0 {
      assert seq(n, _ => 0.0)[..n - 1] == seq(n - 1, _ => 0.0);
      DotZeroWeights(n - 1, b);
    }
  }

  /** Non-negative weights against entries in [0, 1] give a value in [0, Sum(a)]. */
  lemma {:induction false} DotBounds(a: seq<real>, b: seq<real>)
    requires |a| <= |b| && NonNegative(a)
    requires forall i :: 0 <= i < |a| ==> 0.0 <= b[i] <= 1.0
    ensures 0.0 <= Dot(a, b) <= Sum(a)
  {
    if a != [] {
      var p := a[..|a| - 1];
      DotBounds(p, b);
      var x, y := a[|a| - 1], b[|a| - 1];
      ScaledBelow(x, y);
      assert Dot(a, b) == Dot(p, b) + x * y;
      assert Sum(a) == Sum(p) + x;
    }
  }

  /** Scaling a non-negative x by a factor in [0, 1] lands in [0, x]. */
  lemma {:induction false} ScaledBelow(x: real, y: real)
    requires x >= 0.0 && 0.0 <= y <= 1.0
    ensures 0.0 <= x * y <= x
  {
    assert x * y <= x * 1.0;
  }

  /** In a non-negative sequence every entry is at most the total. */
  lemma {:induction false} ElementBelowSum(s: seq<real>, k: nat)
    requires NonNegative(s) && k < |s|
    ensures s[k] <= Sum(s)
  {
    var p := s[..|s| - 1];
    if k < |s| - 1 {
      ElementBelowSum(p, k);
      assert s[|s| - 1] >= 0.0;
    } else {
      SumNonNegative(p);
    }
  }

  /** A positive total has a positive entry. */
  lemma {:induction false} PositiveEntry(s: seq<real>) returns (k: nat)
    requires Sum(s) > 0.0
    ensures k < |s| && s[k] > 0.0
  {
    var p := s[..|s| - 1];
    if s[|s| - 1] > 0.0 {
      k := |s| - 1;
    } else {
      k := PositiveEntry(p);
    }
  }
}
