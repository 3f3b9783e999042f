/** Exact arithmetic helpers shared by the heuristic engine: sums and moments of
    sequences, the square-root law, JavaScript rounding and clamping, the
    IEEE-754 special values a division can produce, and 32-bit truncation. */
module Numeric {

  /** Sum of a sequence, accumulated from the left as the engine's loops and
      `reduce` calls do. */
  function Sum(s: seq<real>): real
    decreases |s|
  {
    if |s| == 0 then 0.0 else Sum(s[..|s| - 1]) + s[|s| - 1]
  }

  lemma SumAppend(s: seq<real>, x: real)
    ensures Sum(s + [x]) == Sum(s) + x
  {
    assert (s + [x])[..|s|] == s;
  }

  /** The step of a running total: extending the prefix by one term. */
  lemma SumPrefixStep(s: seq<real>, n: nat)
    requires n < |s|
    ensures Sum(s[..n + 1]) == Sum(s[..n]) + s[n]
  {
    assert s[..n + 1] == s[..n] + [s[n]];
    SumAppend(s[..n], s[n]);
  }

  lemma {:induction false} SumConcat(s: seq<real>, t: seq<real>)
    ensures Sum(s + t) == Sum(s) + Sum(t)
    decreases |t|
  {
    if |t| == 0 {
      assert s + t == s;
    } else {
      var u := t[..|t| - 1];
      SumConcat(s, u);
      assert s + t == (s + u) + [t[|t| - 1]];
      SumAppend(s + u, t[|t| - 1]);
    }
  }

  lemma {:induction false} SumNonNegative(s: seq<real>)
    requires forall i :: 0 <= i < |s| ==> 0.0 <= s[i]
    ensures 0.0 <= Sum(s)
    decreases |s|
  {
    if |s| > 0 {
      SumNonNegative(s[..|s| - 1]);
    }
  }

  /** A sum of non-negative terms is zero only when every term is zero. */
  lemma {:induction false} SumZeroMeansAllZero(s: seq<real>)
    requires forall i :: 0 <= i < |s| ==> 0.0 <= s[i]
    requires Sum(s) == 0.0
    ensures forall i :: 0 <= i < |s| ==> s[i] == 0.0
    decreases |s|
  {
    if |s| > 0 {
      var init := s[..|s| - 1];
      SumNonNegative(init);
      SumZeroMeansAllZero(init);
      forall i | 0 <= i < |s|
        ensures s[i] == 0.0
      {
        if i < |s| - 1 {
          assert s[i] == init[i];
        }
      }
    }
  }

  /** A sequence of `n` copies of `c` sums to `n * c`. */
  lemma {:induction false} SumConstant(s: seq<real>, c: real)
    requires forall i :: 0 <= i < |s| ==> s[i] == c
    ensures Sum(s) == |s| as real * c
    decreases |s|
  {
    if |s| > 0 {
      SumConstant(s[..|s| - 1], c);
    }
  }

  /** Adding `d` to one entry adds `d` to the sum: the step of every
      accumulate-into-a-bucket loop. */
  lemma {:induction false} SumUpdate(s: seq<real>, i: nat, d: real)
    requires i < |s|
    ensures Sum(s[i := s[i] + d]) == Sum(s) + d
    decreases |s|
  {
    var t := s[i := s[i] + d];
    if i == |s| - 1 {
      assert t[..|t| - 1] == s[..|s| - 1];
    } else {
      SumUpdate(s[..|s| - 1], i, d);
      assert t[..|t| - 1] == s[..|s| - 1][i := s[i] + d];
    }
  }

  /** Every term lies within [lo, hi], so the sum lies within [n*lo, n*hi]. */
  lemma {:induction false} SumBounds(s: seq<real>, lo: real, hi: real)
    requires forall i :: 0 <= i < |s| ==> lo <= s[i] <= hi
    ensures |s| as real * lo <= Sum(s) <= |s| as real * hi
    decreases |s|
  {
    if |s| > 0 {
      var init := s[..|s| - 1];
      var n := |init| as real;
      SumBounds(init, lo, hi);
      assert Sum(s) == Sum(init) + s[|s| - 1];
      assert |s| as real == n + 1.0;
      assert (n + 1.0) * lo == n * lo + lo;
      assert (n + 1.0) * hi == n * hi + hi;
    }
  }

  function Mean(s: seq<real>): real
    requires |s| > 0
  {
    Sum(s) / |s| as real
  }

  function Sq(x: real): real { x * x }

  /** Squared deviations of every term from `m`, in order. */
  function Deviations(s: seq<real>, m: real): (d: seq<real>)
    ensures |d| == |s|
    ensures forall i :: 0 <= i < |s| ==> 0.0 <= d[i]
  {
    seq(|s|, i requires 0 <= i < |s| => Sq(s[i] - m))
  }

  /** Population variance: mean squared deviation from the mean. */
  function Variance(s: seq<real>): (v: real)
    requires |s| > 0
    ensures 0.0 <= v
  {
    SumNonNegative(Deviations(s, Mean(s)));
    Sum(Deviations(s, Mean(s))) / |s| as real
  }

  lemma MeanOfConstant(s: seq<real>, c: real)
    requires |s| > 0
    requires forall i :: 0 <= i < |s| ==> s[i] == c
    ensures Mean(s) == c
  {
    SumConstant(s, c);
  }

  lemma MeanBounds(s: seq<real>, lo: real, hi: real)
    requires |s| > 0
    requires forall i :: 0 <= i < |s| ==> lo <= s[i] <= hi
    ensures lo <= Mean(s) <= hi
  {
    SumBounds(s, lo, hi);
    var n := |s| as real;
    assert n * lo <= Sum(s) <= n * hi;
    assert Sum(s) / n <= hi by {
      assert Sum(s) <= hi * n;
    }
    assert lo <= Sum(s) / n by {
      assert lo * n <= Sum(s);
    }
  }

  /** A constant sequence has no spread. */
  lemma VarianceOfConstant(s: seq<real>, c: real)
    requires |s| > 0
    requires forall i :: 0 <= i < |s| ==> s[i] == c
    ensures Variance(s) == 0.0
  {
    MeanOfConstant(s, c);
    SumConstant(Deviations(s, c), 0.0);
  }

  /** A sequence of non-negative terms whose mean is zero has zero variance. */
  lemma VarianceOfZeroMean(s: seq<real>)
    requires |s| > 0
    requires forall i :: 0 <= i < |s| ==> 0.0 <= s[i]
    requires Mean(s) == 0.0
    ensures Variance(s) == 0.0
    ensures forall i :: 0 <= i < |s| ==> s[i] == 0.0
  {
    assert Sum(s) == 0.0;
    SumZeroMeansAllZero(s);
    VarianceOfConstant(s, 0.0);
  }

  function Abs(x: real): (a: real)
    ensures 0.0 <= a
    ensures a == x || a == -x
  {
    if x < 0.0 then -x else x
  }

  /** `t` is the non-negative square root of `v`. */
  predicate IsRootOf(t: real, v: real)
  {
    0.0 <= t && t * t == v
  }

  /** Zero is the only root of zero. */
  lemma RootOfZero(t: real)
    requires IsRootOf(t, 0.0)
    ensures t == 0.0
  {
    if t > 0.0 {
      MulStrict(0.0, t);
    }
  }

  /** `sqrt` behaves as `Math.sqrt` on non-negative arguments: it returns the
      non-negative root. That root is unique (see `SqrtUnique`), so a model
      parameterised by such a function is as exact as one with a built-in root. */
  ghost predicate IsSqrt(sqrt: real -> real)
  {
    forall x: real :: 0.0 <= x ==> 0.0 <= sqrt(x) && sqrt(x) * sqrt(x) == x
  }

  lemma SqrtUnique(f: real -> real, g: real -> real, x: real)
    requires IsSqrt(f) && IsSqrt(g)
    requires 0.0 <= x
    ensures f(x) == g(x)
  {
    var a, b := f(x), g(x);
    if a < b {
      MulStrict(a, b);
    } else if b < a {
      MulStrict(b, a);
    }
  }

  lemma MulStrict(a: real, b: real)
    requires 0.0 <= a < b
    ensures a * a < b * b
  {
    assert 0.0 <= a * (b - a);
    assert 0.0 < b * (b - a);
  }

  lemma MulMono(a: real, b: real)
    requires 0.0 <= a <= b
    ensures a * a <= b * b
  {
    assert 0.0 <= a * (b - a);
    assert 0.0 <= b * (b - a);
  }

  lemma SqrtOfSquare(sqrt: real -> real, c: real)
    requires IsSqrt(sqrt)
    requires 0.0 <= c
    ensures sqrt(c * c) == c
  {
    var r := sqrt(c * c);
    assert 0.0 <= r && r * r == c * c;
    if r < c {
      MulStrict(r, c);
    } else if c < r {
      MulStrict(c, r);
    }
  }

  /** `x < c^2` bounds the root strictly below `c`. */
  lemma SqrtBelow(sqrt: real -> real, x: real, c: real)
    requires IsSqrt(sqrt)
    requires 0.0 <= x && 0.0 <= c && x < c * c
    ensures sqrt(x) < c
  {
    var r := sqrt(x);
    if c <= r {
      MulMono(c, r);
    }
  }

  /** `c^2 < x` bounds the root strictly above `c`. */
  lemma SqrtAbove(sqrt: real -> real, x: real, c: real)
    requires IsSqrt(sqrt)
    requires 0.0 <= x && 0.0 <= c && c * c < x
    ensures c < sqrt(x)
  {
    var r := sqrt(x);
    if r <= c {
      MulMono(r, c);
    }
  }

  /** `Math.round` on a finite value: the nearest integer, halves rounded up. */
  function Round(x: real): (n: int)
    ensures x - 0.5 < n as real <= x + 0.5
  {
    (x + 0.5).Floor
  }

  /** `Math.max(lo, Math.min(hi, v))`. */
  function Clamp(lo: int, hi: int, v: int): (c: int)
    requires lo <= hi
    ensures lo <= c <= hi
    ensures lo <= v <= hi ==> c == v
    ensures v < lo ==> c == lo
    ensures hi < v ==> c == hi
  {
    if v > hi then hi else if v < lo then lo else v
  }

  /** The IEEE-754 double values a quotient of finite values can take. */
  datatype Number = Finite(value: real) | NaN | PosInf | NegInf

  /** JavaScript `a / b` for finite operands. */
  function Divide(a: real, b: real): (q: Number)
    ensures b != 0.0 <==> q.Finite?
    ensures b != 0.0 ==> q.value * b == a
    ensures q == NaN <==> a == 0.0 && b == 0.0
  {
    if b != 0.0 then Finite(a / b)
    else if a == 0.0 then NaN
    else if a > 0.0 then PosInf
    else NegInf
  }

  /** JavaScript `n > c`: every comparison with NaN is false. */
  predicate Exceeds(n: Number, c: real)
  {
    match n
    case Finite(v) => v > c
    case PosInf => true
    case _ => false
  }

  const TwoTo31: int := 0x8000_0000
  const TwoTo32: int := 0x1_0000_0000

  predicate IsInt32(n: int) { -TwoTo31 <= n < TwoTo31 }

  /** ECMAScript ToInt32: reduce modulo 2^32 into the signed 32-bit range. */
  function ToInt32(n: int): (r: int)
    ensures IsInt32(r)
    ensures (r - n) % TwoTo32 == 0
  {
    (n + TwoTo31) % TwoTo32 - TwoTo31
  }

  /** ToInt32 depends only on the residue modulo 2^32, and is the identity on the
      signed 32-bit range. */
  lemma ToInt32Congruent(a: int, b: int)
    requires (a - b) % TwoTo32 == 0
    ensures ToInt32(a) == ToInt32(b)
  {
    var k := (a - b) / TwoTo32;
    assert a == b + k * TwoTo32;
    assert (a + TwoTo31) % TwoTo32 == (b + TwoTo31) % TwoTo32 by {
      ModShift(b + TwoTo31, k);
    }
  }

  lemma ModShift(x: int, k: int)
    ensures (x + k * TwoTo32) % TwoTo32 == x % TwoTo32
  {
  }

  lemma ToInt32Identity(n: int)
    requires IsInt32(n)
    ensures ToInt32(n) == n
  {
  }
}
