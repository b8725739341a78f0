/** The statistics the aggregation stage uses, over exact reals: pandas'
    default (linear) quantile, the mean and the sample variance, all of which
    skip missing values before they are called. */
module Stats {
  import opened Results

  lemma MulNonNegative(a: real, b: real)
    requires a >= 0.0 && b >= 0.0
    ensures a * b >= 0.0
  {
  }

  lemma SquareNonNegative(a: real)
    ensures a * a >= 0.0
  {
    if a < 0.0 {
      MulNonNegative(-a, -a);
      assert (-a) * (-a) == a * a;
    } else {
      MulNonNegative(a, a);
    }
  }

  ghost predicate Sorted(s: seq<real>)
  {
    forall i, j :: 0 <= i < j < |s| ==> s[i] <= s[j]
  }

  function Insert(x: real, s: seq<real>): (r: seq<real>)
    requires Sorted(s)
    ensures Sorted(r) && multiset(r) == multiset(s) + multiset{x}
  {
    if s == [] then [x]
    else if x <= s[0] then [x] + s
    else
      var rest := Insert(x, s[1..]);
      assert s == [s[0]] + s[1..];
      HeadBoundsInsert(s, x, rest);
      [s[0]] + rest
  }

  /** The head of a sorted sequence, when it is below `x`, stays below every
      element of the tail with `x` inserted. */
  lemma HeadBoundsInsert(s: seq<real>, x: real, rest: seq<real>)
    requires Sorted(s) && s != [] && s[0] <= x && Sorted(rest)
    requires multiset(rest) == multiset(s[1..]) + multiset{x}
    ensures Sorted([s[0]] + rest)
  {
    forall j | 0 <= j < |rest| ensures s[0] <= rest[j] {
      assert rest[j] in multiset(rest);
      if rest[j] != x {
        assert rest[j] in multiset(s[1..]);
        var m :| 0 <= m < |s[1..]| && s[1..][m] == rest[j];
        assert s[m + 1] == rest[j];
      }
    }
    var r := [s[0]] + rest;
    forall i, j | 0 <= i < j < |r| ensures r[i] <= r[j] {
      assert r[j] == rest[j - 1];
      if i > 0 {
        assert r[i] == rest[i - 1];
      }
    }
  }

  /** The values in ascending order. */
  function Sort(s: seq<real>): (r: seq<real>)
    ensures Sorted(r) && multiset(r) == multiset(s)
  {
    if s == [] then []
    else
      assert s == [s[0]] + s[1..];
      Insert(s[0], Sort(s[1..]))
  }

  /** ⌊(n-1)·q⌋, the lower of the two order statistics a quantile interpolates between. */
  function Rank(n: nat, q: real): (k: nat)
    requires n >= 1 && 0.0 <= q <= 1.0
    ensures k < n
    ensures k as real <= (n - 1) as real * q < k as real + 1.0
  {
    var h := (n - 1) as real * q;
    assert 0.0 <= h <= (n - 1) as real by {
      MulNonNegative((n - 1) as real, q);
      MulNonNegative((n - 1) as real, 1.0 - q);
      assert (n - 1) as real * (1.0 - q) == (n - 1) as real - h;
    }
    h.Floor
  }

  /** Linear interpolation at rank (n-1)·q in ascending values `x`: with
      h = (n-1)·q, x[⌊h⌋] + (h - ⌊h⌋)·(x[⌊h⌋+1] - x[⌊h⌋]). */
  function Interpolate(x: seq<real>, q: real): (v: real)
    requires x != [] && 0.0 <= q <= 1.0
    ensures |x| == 1 ==> v == x[0]
    ensures q == 0.0 ==> v == x[0]
  {
    var lo := Rank(|x|, q);
    var hi := if lo + 1 < |x| then lo + 1 else lo;
    var w := (|x| - 1) as real * q - lo as real;
    assert q == 0.0 ==> lo == 0 && w == 0.0;
    assert |x| == 1 ==> lo == hi == 0;
    x[lo] + w * (x[hi] - x[lo])
  }

  /** `Series.quantile(q)` over the present values; NaN (None) when there are none. */
  function Quantile(values: seq<real>, q: real): (r: Option<real>)
    requires 0.0 <= q <= 1.0
    ensures r.None? <==> values == []
  {
    if values == [] then None else Some(Interpolate(Sort(values), q))
  }

  /** An interpolated value lies between its two neighbouring order statistics. */
  lemma InterpolateBetween(x: seq<real>, q: real)
    requires x != [] && 0.0 <= q <= 1.0 && Sorted(x)
    ensures var lo := Rank(|x|, q);
      x[lo] <= Interpolate(x, q) <= x[if lo + 1 < |x| then lo + 1 else lo]
  {
    var lo := Rank(|x|, q);
    var hi := if lo + 1 < |x| then lo + 1 else lo;
    var f := (|x| - 1) as real * q - lo as real;
    assert 0.0 <= f < 1.0;
    var d := x[hi] - x[lo];
    assert d >= 0.0;
    MulNonNegative(f, d);
    MulNonNegative(1.0 - f, d);
    assert (1.0 - f) * d == d - f * d;
  }

  /** A quantile is never below the smallest value nor above the largest. */
  lemma QuantileWithinRange(values: seq<real>, q: real)
    requires 0.0 <= q <= 1.0 && values != []
    ensures Quantile(values, q).Some?
    ensures exists i :: 0 <= i < |values| && values[i] <= Quantile(values, q).value
    ensures exists j :: 0 <= j < |values| && Quantile(values, q).value <= values[j]
  {
    var x := Sort(values);
    InterpolateBetween(x, q);
    assert x[0] in multiset(values) && x[|x| - 1] in multiset(values);
    var i :| 0 <= i < |values| && values[i] == x[0];
    var j :| 0 <= j < |values| && values[j] == x[|x| - 1];
  }

  /** Interpolation in ascending values is monotone in the level. */
  lemma InterpolateMonotone(x: seq<real>, q1: real, q2: real)
    requires x != [] && Sorted(x) && 0.0 <= q1 <= q2 <= 1.0
    ensures Interpolate(x, q1) <= Interpolate(x, q2)
  {
    var n := |x|;
    var lo1, lo2 := Rank(n, q1), Rank(n, q2);
    var h1, h2 := (n - 1) as real * q1, (n - 1) as real * q2;
    assert h1 <= h2 by {
      MulNonNegative((n - 1) as real, q2 - q1);
      assert (n - 1) as real * (q2 - q1) == h2 - h1;
    }
    if lo1 == lo2 {
      var hi := if lo1 + 1 < n then lo1 + 1 else lo1;
      var d := x[hi] - x[lo1];
      assert d >= 0.0;
      MulNonNegative(h2 - h1, d);
      assert (h2 - lo1 as real) * d - (h1 - lo1 as real) * d == (h2 - h1) * d;
    } else {
      InterpolateBetween(x, q1);
      InterpolateBetween(x, q2);
      assert x[lo1 + 1] <= x[lo2];
    }
  }

  /** A higher level never gives a lower quantile, so the 5% quantile is at
      most the 95% quantile. */
  lemma QuantileMonotone(values: seq<real>, q1: real, q2: real)
    requires 0.0 <= q1 <= q2 <= 1.0 && values != []
    ensures Quantile(values, q1).value <= Quantile(values, q2).value
  {
    InterpolateMonotone(Sort(values), q1, q2);
  }

  /** Sorting two distinct values puts the smaller first, whatever the input order. */
  lemma SortPair(a: real, b: real)
    requires a < b
    ensures Sort([a, b]) == [a, b] && Sort([b, a]) == [a, b]
  {
    assert [a, b][1..] == [b] && [b, a][1..] == [a];
    assert [b][1..] == [] && [a][1..] == [];
    assert Sort([b]) == [b] && Sort([a]) == [a];
    assert Insert(b, [a]) == [a] + Insert(b, []);
  }

  /** The quantile of two distinct values does not depend on their order:
      it interpolates from the smaller to the larger. */
  lemma QuantileOfPair(a: real, b: real, q: real)
    requires a < b && 0.0 <= q <= 1.0
    ensures Quantile([b, a], q) == Quantile([a, b], q) == Some(Interpolate([a, b], q))
  {
    SortPair(a, b);
  }

  function Sum(xs: seq<real>): real
  {
    if xs == [] then 0.0 else xs[0] + Sum(xs[1..])
  }

  /** The arithmetic mean; NaN (None) for no values. */
  function Mean(xs: seq<real>): (m: Option<real>)
    ensures m.None? <==> xs == []
    ensures m.Some? ==> m.value * |xs| as real == Sum(xs)
  {
    if xs == [] then None else Some(Sum(xs) / |xs| as real)
  }

  lemma {:induction false} SumBounds(xs: seq<real>, lo: real, hi: real)
    requires forall i :: 0 <= i < |xs| ==> lo <= xs[i] <= hi
    ensures |xs| as real * lo <= Sum(xs) <= |xs| as real * hi
  {
    if xs != [] {
      SumBounds(xs[1..], lo, hi);
      assert |xs| as real * lo == lo + |xs[1..]| as real * lo;
      assert |xs| as real * hi == hi + |xs[1..]| as real * hi;
    }
  }

  lemma MulMonotone(x: real, y: real, n: real)
    requires x < y && n > 0.0
    ensures x * n < y * n
  {
  }

  /** The mean of values that all lie in [lo, hi] lies in [lo, hi]. */
  lemma MeanWithin(xs: seq<real>, lo: real, hi: real)
    requires xs != [] && forall i :: 0 <= i < |xs| ==> lo <= xs[i] <= hi
    ensures lo <= Mean(xs).value <= hi
  {
    SumBounds(xs, lo, hi);
    var n := |xs| as real;
    var s := Sum(xs);
    var m := s / n;
    assert m * n == s;
    if m < lo {
      MulMonotone(m, lo, n);
    }
    if m > hi {
      MulMonotone(hi, m, n);
    }
  }

  lemma {:induction false} SumConstant(xs: seq<real>, c: real)
    requires forall i :: 0 <= i < |xs| ==> xs[i] == c
    ensures Sum(xs) == |xs| as real * c
  {
    if xs != [] {
      SumConstant(xs[1..], c);
      assert |xs| as real * c == c + |xs[1..]| as real * c;
    }
  }

  function SquaredDeviations(xs: seq<real>, m: real): (r: real)
    ensures r >= 0.0
  {
    if xs == [] then 0.0
    else
      SquareNonNegative(xs[0] - m);
      (xs[0] - m) * (xs[0] - m) + SquaredDeviations(xs[1..], m)
  }

  /** The sample variance (divisor n-1, pandas' `ddof=1`); undefined (None)
      for fewer than two values. `std` is its square root. */
  function SampleVariance(xs: seq<real>): (r: Option<real>)
    ensures r.None? <==> |xs| < 2
    ensures r.Some? ==> r.value >= 0.0
  {
    if |xs| < 2 then None
    else Some(SquaredDeviations(xs, Sum(xs) / |xs| as real) / (|xs| - 1) as real)
  }

  lemma {:induction false} NoDeviations(xs: seq<real>, c: real)
    requires forall i :: 0 <= i < |xs| ==> xs[i] == c
    ensures SquaredDeviations(xs, c) == 0.0
  {
    if xs != [] {
      NoDeviations(xs[1..], c);
    }
  }

  /** Identical values have variance 0 once there are at least two of them. */
  lemma ConstantHasNoVariance(xs: seq<real>, c: real)
    requires |xs| >= 2 && forall i :: 0 <= i < |xs| ==> xs[i] == c
    ensures SampleVariance(xs) == Some(0.0)
  {
    SumConstant(xs, c);
    assert Sum(xs) / |xs| as real == c;
    NoDeviations(xs, c);
  }
}
