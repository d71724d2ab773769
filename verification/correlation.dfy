/** Correlation of return series, in exact arithmetic; the square root is a parameter. */
module Correlation {
  import opened Texts
  import opened Options
  import opened Sequences
  import Sums

  function Times(x: real, y: real): real { x * y }

  /** The sum of products of two series of one length. */
  function Dot(x: seq<real>, y: seq<real>): real
    requires |x| == |y|
  {
    if x == [] then 0.0 else Dot(x[..|x| - 1], y[..|y| - 1]) + Times(x[|x| - 1], y[|y| - 1])
  }

  /** The series less a constant. */
  function Shift(a: seq<real>, m: real): (r: seq<real>)
    ensures |r| == |a| && forall i :: 0 <= i < |a| ==> r[i] == a[i] - m
  {
    seq(|a|, i requires 0 <= i < |a| => a[i] - m)
  }

  function Common(a: seq<real>, b: seq<real>): nat {
    if |a| < |b| then |a| else |b|
  }

  function Mean(a: seq<real>): real
    requires a != []
  {
    Sums.Seq(a) / |a| as real
  }

  function Deviations(a: seq<real>): seq<real>
    requires a != []
  {
    Shift(a, Mean(a))
  }

  /** Covariance over the root of the variances; a constant series correlates with nothing. */
  function Ratio(sqrt: real -> real, cov: real, va: real, vb: real): real {
    if va == 0.0 || vb == 0.0 then 0.0
    else
      var root := sqrt(va * vb);
      if root == 0.0 then 0.0 else cov / root
  }

  function Pearson(sqrt: real -> real, a: seq<real>, b: seq<real>): real {
    var n := Common(a, b);
    if n == 0 then 0.0
    else
      var x, y := Deviations(a[..n]), Deviations(b[..n]);
      Ratio(sqrt, Dot(x, y), Dot(x, x), Dot(y, y))
  }

  /** A square root on the non-negative numbers. */
  ghost predicate IsRoot(sqrt: real -> real) {
    forall x :: x >= 0.0 ==> sqrt(x) >= 0.0 && sqrt(x) * sqrt(x) == x
  }

  // ---- the bound ----

  lemma {:induction false} DotSymmetric(x: seq<real>, y: seq<real>)
    requires |x| == |y|
    ensures Dot(x, y) == Dot(y, x)
  {
    if x != [] {
      DotSymmetric(x[..|x| - 1], y[..|y| - 1]);
      assert Times(x[|x| - 1], y[|y| - 1]) == Times(y[|y| - 1], x[|x| - 1]);
    }
  }

  lemma Square(x: real)
    ensures x * x >= 0.0
  {
  }

  lemma {:induction false} DotSquare(x: seq<real>)
    ensures Dot(x, x) >= 0.0
  {
    if x != [] {
      DotSquare(x[..|x| - 1]);
      Square(x[|x| - 1]);
    }
  }

  /** The squared length of x - t y, from the three products. */
  function Quadratic(a: real, s: real, b: real, t: real): real {
    a - 2.0 * t * s + t * t * b
  }

  lemma {:induction false} QuadraticNonNegative(x: seq<real>, y: seq<real>, t: real)
    requires |x| == |y|
    ensures Quadratic(Dot(x, x), Dot(x, y), Dot(y, y), t) >= 0.0
  {
    if x == [] {
      assert Quadratic(0.0, 0.0, 0.0, t) == 0.0;
    } else {
      hide Times, Quadratic;
      var n := |x| - 1;
      QuadraticNonNegative(x[..n], y[..n], t);
      OneMore(Dot(x[..n], x[..n]), Dot(x[..n], y[..n]), Dot(y[..n], y[..n]), x[n], y[n], t);
    }
  }

  lemma OneMore(a: real, s: real, b: real, p: real, q: real, t: real)
    requires Quadratic(a, s, b, t) >= 0.0
    ensures Quadratic(a + Times(p, p), s + Times(p, q), b + Times(q, q), t) >= 0.0
  {
    Square(p - t * q);
    assert (p - t * q) * (p - t * q) == p * p - 2.0 * t * (p * q) + t * t * (q * q);
    assert t * t * (b + q * q) == t * t * b + t * t * (q * q);
    assert 2.0 * t * (s + p * q) == 2.0 * t * s + 2.0 * t * (p * q);
  }

  /** Cauchy and Schwarz: for series of any length, cov^2 <= va * vb. */
  lemma CovarianceBounded(x: seq<real>, y: seq<real>)
    requires |x| == |y|
    ensures Times(Dot(x, y), Dot(x, y)) <= Times(Dot(x, x), Dot(y, y))
  {
    hide Dot, Times, Quadratic;
    var a, s, b := Dot(x, x), Dot(x, y), Dot(y, y);
    DotSquare(x);
    DotSquare(y);
    if b != 0.0 {
      QuadraticNonNegative(x, y, s / b);
      Discriminant(a, s, b);
    } else if s != 0.0 {
      QuadraticNonNegative(x, y, (a + 1.0) / (2.0 * s));
      NeverFlat(a, s);
    } else {
      ZeroSides(a);
    }
  }

  lemma ZeroSides(a: real)
    ensures Times(0.0, 0.0) == 0.0 == Times(a, 0.0)
  {
  }

  lemma Discriminant(a: real, s: real, b: real)
    requires b > 0.0 && Quadratic(a, s, b, s / b) >= 0.0
    ensures Times(s, s) <= Times(a, b)
  {
    var t := s / b;
    assert t * b == s;
    assert t * t * b == t * s;
    assert a - t * s >= 0.0;
    assert (a - t * s) * b >= 0.0;
    assert (a - t * s) * b == a * b - s * s;
  }

  /** A line that is not flat falls below zero somewhere. */
  lemma NeverFlat(a: real, s: real)
    requires s != 0.0
    ensures Quadratic(a, s, 0.0, (a + 1.0) / (2.0 * s)) == -1.0
  {
    var t := (a + 1.0) / (2.0 * s);
    assert t * (2.0 * s) == a + 1.0;
    assert 2.0 * t * s == t * (2.0 * s);
    assert t * t * 0.0 == 0.0;
  }

  /** Whatever the series, a correlation lies between -1 and 1, and does not depend on
      the order of the two. */
  lemma PearsonBounded(sqrt: real -> real, a: seq<real>, b: seq<real>)
    requires IsRoot(sqrt)
    ensures -1.0 <= Pearson(sqrt, a, b) <= 1.0
    ensures Pearson(sqrt, a, b) == Pearson(sqrt, b, a)
  {
    var n := Common(a, b);
    if n > 0 {
      var x, y := Deviations(a[..n]), Deviations(b[..n]);
      hide Dot, Mean, Deviations, Ratio, Times;
      DotSymmetric(x, y);
      CovarianceBounded(x, y);
      DotSquare(x);
      DotSquare(y);
      RatioBounded(sqrt, Dot(x, y), Dot(x, x), Dot(y, y));
    }
  }

  lemma RatioBounded(sqrt: real -> real, cov: real, va: real, vb: real)
    requires IsRoot(sqrt) && va >= 0.0 && vb >= 0.0 && Times(cov, cov) <= Times(va, vb)
    ensures -1.0 <= Ratio(sqrt, cov, va, vb) <= 1.0
    ensures Ratio(sqrt, cov, va, vb) == Ratio(sqrt, cov, vb, va)
  {
    NotNegative(va, vb);
    assert va * vb == vb * va;
    var root := sqrt(va * vb);
    assert root >= 0.0 && root * root == va * vb;
    Roots(cov, root);
    if root != 0.0 {
      Divided(cov, root);
    }
  }

  lemma NotNegative(a: real, b: real)
    requires a >= 0.0 && b >= 0.0
    ensures a * b >= 0.0
  {
  }

  lemma PositiveSquare(d: real)
    requires d > 0.0
    ensures d * d > 0.0
  {
  }

  lemma Larger(root: real, d: real)
    requires root >= 0.0 && d > 0.0
    ensures (root + d) * (root + d) > root * root
  {
    NotNegative(root, d);
    PositiveSquare(d);
    assert (root + d) * (root + d) == root * root + 2.0 * (root * d) + d * d;
  }

  lemma Roots(s: real, root: real)
    requires root >= 0.0 && s * s <= root * root
    ensures -root <= s <= root
  {
    assert (-s) * (-s) == s * s;
    if s > root {
      Larger(root, s - root);
    } else if s < -root {
      Larger(root, -s - root);
    }
  }

  lemma Divided(s: real, root: real)
    requires root > 0.0 && -root <= s <= root
    ensures -1.0 <= s / root <= 1.0
  {
  }

  // ---- the formula ----

  /** The sum of the first n values, and of the products of the first n pairs. */
  function Sum(a: seq<real>, n: nat): real
    requires n <= |a|
  {
    if n == 0 then 0.0 else Sum(a, n - 1) + a[n - 1]
  }

  function CrossSum(a: seq<real>, b: seq<real>, n: nat): real
    requires n <= |a| && n <= |b|
  {
    if n == 0 then 0.0 else CrossSum(a, b, n - 1) + a[n - 1] * b[n - 1]
  }

  /** n times the sum of products less the product of the sums. */
  function Moment(a: seq<real>, b: seq<real>, n: nat): real
    requires n <= |a| && n <= |b|
  {
    n as real * CrossSum(a, b, n) - Sum(a, n) * Sum(b, n)
  }

  /** A correlation by its three moments: its square times both own ones is the square of
      the mixed one, and it has that one's sign; it is zero where an own moment is. */
  predicate ByMoments(r: real, mixed: real, own: real, other: real) {
    && own >= 0.0 && other >= 0.0
    && (own == 0.0 || other == 0.0 ==> r == 0.0)
    && (own > 0.0 && other > 0.0 ==>
          r * r * (own * other) == mixed * mixed && (r > 0.0 <==> mixed > 0.0) && (r < 0.0 <==> mixed < 0.0))
  }

  /** The correlation by the textbook formula over the first values, as many as both
      series have. */
  lemma PearsonFormula(sqrt: real -> real, a: seq<real>, b: seq<real>)
    requires IsRoot(sqrt)
    ensures var n := if |a| < |b| then |a| else |b|;
      ByMoments(Pearson(sqrt, a, b), Moment(a, b, n), Moment(a, a, n), Moment(b, b, n))
  {
    hide Dot, Deviations, Ratio, Times, IsRoot;
    if a != [] && b != [] {
      hide Moment, ByMoments, Pearson;
      PearsonMoments(sqrt, a, b);
    }
  }

  lemma PearsonMoments(sqrt: real -> real, a: seq<real>, b: seq<real>)
    requires IsRoot(sqrt) && a != [] && b != []
    ensures var n := Common(a, b);
      ByMoments(Pearson(sqrt, a, b), Moment(a, b, n), Moment(a, a, n), Moment(b, b, n))
  {
    hide Dot, Deviations, Ratio, Times, IsRoot, Moment, ByMoments;
    MomentDot(a, b, Common(a, b));
    MomentDot(a, a, Common(a, b));
    MomentDot(b, b, Common(a, b));
    DotSquare(Deviations(a[..Common(a, b)]));
    DotSquare(Deviations(b[..Common(a, b)]));
    RatioMoments(sqrt, Dot(Deviations(a[..Common(a, b)]), Deviations(b[..Common(a, b)])),
                 Dot(Deviations(a[..Common(a, b)]), Deviations(a[..Common(a, b)])),
                 Dot(Deviations(b[..Common(a, b)]), Deviations(b[..Common(a, b)])), Common(a, b) as real,
                 Moment(a, b, Common(a, b)), Moment(a, a, Common(a, b)), Moment(b, b, Common(a, b)), Pearson(sqrt, a, b));
  }

  lemma MomentDot(a: seq<real>, b: seq<real>, n: nat)
    requires 0 < n <= |a| && n <= |b|
    ensures |Deviations(a[..n])| == n == |Deviations(b[..n])|
    ensures n as real * Dot(Deviations(a[..n]), Deviations(b[..n])) == Moment(a, b, n)
  {
    hide Dot, Sums.Seq, Sum, CrossSum;
    ShiftedDot(a, b, Mean(a[..n]), Mean(b[..n]), n);
    SumIs(a, n);
    SumIs(b, n);
    Centred(Sum(a, n), Sum(b, n), CrossSum(a, b, n), n as real, Mean(a[..n]), Mean(b[..n]));
  }

  lemma {:induction false} SumIs(a: seq<real>, n: nat)
    requires n <= |a|
    ensures Sum(a, n) == Sums.Seq(a[..n])
  {
    if n > 0 {
      SumIs(a, n - 1);
      assert a[..n][..n - 1] == a[..n - 1];
    }
  }

  lemma {:induction false} ShiftedDot(a: seq<real>, b: seq<real>, p: real, q: real, n: nat)
    requires n <= |a| && n <= |b|
    ensures Dot(Shift(a[..n], p), Shift(b[..n], q)) == Shifted(CrossSum(a, b, n), Sum(a, n), Sum(b, n), n as real, p, q)
  {
    hide Times, Shifted, Dot, Shift, Sum, CrossSum;
    if n == 0 {
      NothingSummed(a, b, p, q);
      NothingShifted(p, q);
    } else {
      ShiftedDot(a, b, p, q, n - 1);
      ShiftLast(a, p, n);
      ShiftLast(b, q, n);
      DotLast(Shift(a[..n], p), Shift(b[..n], q));
      NextSums(a, b, n);
      NextTerm(a[n - 1], b[n - 1], p, q, CrossSum(a, b, n - 1), Sum(a, n - 1), Sum(b, n - 1), (n - 1) as real,
               CrossSum(a, b, n), Sum(a, n), Sum(b, n), n as real);
    }
  }

  lemma ShiftLast(a: seq<real>, p: real, n: nat)
    requires 0 < n <= |a|
    ensures Shift(a[..n], p)[..n - 1] == Shift(a[..n - 1], p) && Shift(a[..n], p)[n - 1] == a[n - 1] - p
  {
  }

  lemma NextSums(a: seq<real>, b: seq<real>, n: nat)
    requires 0 < n <= |a| && n <= |b|
    ensures Sum(a, n) == Sum(a, n - 1) + a[n - 1] && Sum(b, n) == Sum(b, n - 1) + b[n - 1]
    ensures CrossSum(a, b, n) == CrossSum(a, b, n - 1) + a[n - 1] * b[n - 1]
    ensures n as real == (n - 1) as real + 1.0
  {
  }

  /** The sum of the products of shifted values, from the plain sums. */
  function Shifted(products: real, s: real, t: real, n: real, p: real, q: real): real {
    products - p * t - q * s + n * (p * q)
  }

  lemma NothingSummed(a: seq<real>, b: seq<real>, p: real, q: real)
    ensures Sum(a, 0) == Sum(b, 0) == CrossSum(a, b, 0) == 0.0
    ensures Dot(Shift(a[..0], p), Shift(b[..0], q)) == 0.0
  {
  }

  lemma NothingShifted(p: real, q: real)
    ensures Shifted(0.0, 0.0, 0.0, 0.0, p, q) == 0.0
  {
  }

  lemma NextTerm(u: real, v: real, p: real, q: real, products: real, s: real, t: real, k: real,
                 products': real, s': real, t': real, k': real)
    requires products' == products + u * v && s' == s + u && t' == t + v && k' == k + 1.0
    ensures Shifted(products', s', t', k', p, q) == Shifted(products, s, t, k, p, q) + Times(u - p, v - q)
  {
    assert Times(u - p, v - q) == u * v - p * v - q * u + p * q;
    assert p * (t + v) == p * t + p * v && q * (s + u) == q * s + q * u;
    assert (k + 1.0) * (p * q) == k * (p * q) + p * q;
  }

  lemma Centred(s: real, t: real, products: real, n: real, p: real, q: real)
    requires n > 0.0 && p == s / n && q == t / n
    ensures n * Shifted(products, s, t, n, p, q) == n * products - s * t
  {
    assert p * n == s && q * n == t;
    assert n * (p * t) == s * t && n * (q * s) == t * s;
    assert n * (n * (p * q)) == (p * n) * (q * n);
  }

  lemma RatioMoments(sqrt: real -> real, cov: real, va: real, vb: real, n: real, c: real, p: real, q: real, r: real)
    requires IsRoot(sqrt) && va >= 0.0 && vb >= 0.0 && n > 0.0
    requires n * cov == c && n * va == p && n * vb == q && r == Ratio(sqrt, cov, va, vb)
    ensures ByMoments(r, c, p, q)
  {
    Signs(va, n);
    Signs(vb, n);
    Signs(cov, n);
    if va > 0.0 && vb > 0.0 {
      PositiveProduct(va, vb);
      var root := sqrt(va * vb);
      assert root >= 0.0 && root * root == va * vb;
      assert root > 0.0;
      assert r * root == cov;
      Signs(r, root);
      SquareRatio(r, root, cov, va, vb, n);
    }
  }

  lemma Signs(x: real, d: real)
    requires d > 0.0
    ensures (d * x > 0.0 <==> x > 0.0) && (d * x < 0.0 <==> x < 0.0)
    ensures d * x == x * d
  {
    if x > 0.0 {
      PositiveProduct(d, x);
    } else if x < 0.0 {
      PositiveProduct(d, -x);
    }
  }

  lemma SquareRatio(r: real, root: real, cov: real, va: real, vb: real, n: real)
    requires r * root == cov && root * root == va * vb
    ensures r * r * ((n * va) * (n * vb)) == (n * cov) * (n * cov)
  {
    assert r * r * (root * root) == cov * cov;
    assert (n * va) * (n * vb) == n * n * (va * vb);
    assert r * r * (n * n * (va * vb)) == n * n * (r * r * (va * vb));
  }

  // ---- series that move together ----

  /** b[i] = k * a[i] + c. */
  ghost predicate Affine(a: seq<real>, b: seq<real>, k: real, c: real) {
    |a| == |b| && forall i :: 0 <= i < |a| ==> b[i] == k * a[i] + c
  }

  lemma {:induction false} AffineSum(a: seq<real>, b: seq<real>, k: real, c: real)
    requires Affine(a, b, k, c)
    ensures Sums.Seq(b) == k * Sums.Seq(a) + c * |a| as real
  {
    if a != [] {
      var n := |a| - 1;
      AffineSum(a[..n], b[..n], k, c);
      Collect(k, Sums.Seq(a[..n]), a[n], c, n);
    }
  }

  lemma Collect(k: real, s: real, x: real, c: real, n: int)
    ensures k * s + c * n as real + (k * x + c) == k * (s + x) + c * (n + 1) as real
  {
  }

  lemma AffineDeviations(a: seq<real>, b: seq<real>, k: real, c: real)
    requires Affine(a, b, k, c) && a != []
    ensures forall i :: 0 <= i < |a| ==> Deviations(b)[i] == k * Deviations(a)[i]
  {
    hide Sums.Seq;
    AffineSum(a, b, k, c);
    AffineMean(Sums.Seq(a), Sums.Seq(b), k, c, |a|);
    forall i | 0 <= i < |a| ensures Deviations(b)[i] == k * Deviations(a)[i] {
      assert b[i] == k * a[i] + c;
      assert k * (a[i] - Mean(a)) == k * a[i] - k * Mean(a);
    }
  }

  lemma AffineMean(sa: real, sb: real, k: real, c: real, n: nat)
    requires n > 0 && sb == k * sa + c * n as real
    ensures sb / n as real == k * (sa / n as real) + c
  {
    var r := n as real;
    assert (k * (sa / r) + c) * r == k * (sa / r * r) + c * r;
    assert sa / r * r == sa;
  }

  lemma DotLast(x: seq<real>, y: seq<real>)
    requires |x| == |y| && x != []
    ensures Dot(x, y) == Dot(x[..|x| - 1], y[..|y| - 1]) + Times(x[|x| - 1], y[|y| - 1])
  {
  }

  lemma DotNothing()
    ensures Dot([], []) == 0.0
  {
  }

  lemma {:induction false} DotScaled(x: seq<real>, y: seq<real>, k: real)
    requires |x| == |y| && forall i :: 0 <= i < |x| ==> y[i] == k * x[i]
    ensures Dot(x, y) == k * Dot(x, x) && Dot(y, y) == k * (k * Dot(x, x))
  {
    hide Dot, Times;
    if x == [] {
      DotNothing();
    } else {
      var n := |x| - 1;
      DotScaled(x[..n], y[..n], k);
      TermScaled(x[n], y[n], k, Dot(x[..n], x[..n]));
      DotLast(x, y);
      DotLast(x, x);
      DotLast(y, y);
    }
  }

  lemma TermScaled(x: real, y: real, k: real, before: real)
    requires y == k * x
    ensures k * before + Times(x, y) == k * (before + Times(x, x))
    ensures k * (k * before) + Times(y, y) == k * (k * (before + Times(x, x)))
  {
  }

  /** A series and an affine image of it correlate by exactly 1, or -1 when it falls where
      the other rises, unless they are constant. */
  lemma AffineCorrelates(sqrt: real -> real, a: seq<real>, b: seq<real>, k: real, c: real)
    requires IsRoot(sqrt) && Affine(a, b, k, c) && a != [] && k != 0.0
    requires Dot(Deviations(a), Deviations(a)) != 0.0
    ensures Pearson(sqrt, a, b) == if k > 0.0 then 1.0 else -1.0
  {
    hide Dot, Deviations, Ratio, Times, IsRoot;
    assert a[..|a|] == a && b[..|a|] == b && Common(a, b) == |a|;
    var x, y := Deviations(a), Deviations(b);
    DeviationsLength(a, b);
    assert Pearson(sqrt, a, b) == Ratio(sqrt, Dot(x, y), Dot(x, x), Dot(y, y));
    AffineDeviations(a, b, k, c);
    DotScaled(x, y, k);
    DotSquare(x);
    var root := ScaledRoot(Dot(x, x), k);
    UnitRatio(sqrt, Dot(x, y), Dot(x, x), Dot(y, y), root);
  }

  lemma DeviationsLength(a: seq<real>, b: seq<real>)
    requires |a| == |b| && a != []
    ensures |Deviations(a)| == |Deviations(b)| == |a|
  {
  }

  /** The root of the product of a variance and its image. */
  lemma ScaledRoot(d: real, k: real) returns (root: real)
    requires d > 0.0 && k != 0.0
    ensures root > 0.0 && k * (k * d) > 0.0 && d * (k * (k * d)) == root * root
    ensures k * d == if k > 0.0 then root else -root
  {
    if k > 0.0 {
      root := k * d;
      PositiveProduct(k, d);
      PositiveProduct(k, root);
      Regroup(d, k, root);
    } else {
      root := -k * d;
      PositiveProduct(-k, d);
      PositiveProduct(-k, root);
      Regroup(d, -k, root);
      assert k * (k * d) == -k * root;
    }
  }

  lemma Regroup(d: real, size: real, root: real)
    requires root == size * d
    ensures d * (size * root) == root * root
  {
  }

  lemma UnitRatio(sqrt: real -> real, cov: real, va: real, vb: real, root: real)
    requires IsRoot(sqrt) && va > 0.0 && vb > 0.0 && root > 0.0 && va * vb == root * root
    requires cov == root || cov == -root
    ensures Ratio(sqrt, cov, va, vb) == if cov == root then 1.0 else -1.0
  {
    PositiveProduct(root, root);
    RootUnique(sqrt(va * vb), root);
    Self(root);
  }

  lemma Self(root: real)
    requires root > 0.0
    ensures root / root == 1.0 && -root / root == -1.0
  {
  }

  lemma PositiveProduct(p: real, q: real)
    requires p > 0.0 && q > 0.0
    ensures p * q > 0.0
  {
  }

  lemma RootUnique(r: real, root: real)
    requires r >= 0.0 && root > 0.0 && r * r == root * root
    ensures r == root
  {
    if r > root {
      Larger(root, r - root);
    } else if r < root {
      Larger(r, root - r);
    }
  }

  // ---- the matrix ----

  type Matrix = map<Text, real>

  function PairKey(a: Text, b: Text): Text {
    a + [0x7C] + b
  }

  function Get(m: Matrix, a: Text, b: Text): real {
    if PairKey(a, b) in m then m[PairKey(a, b)] else 0.0
  }

  type Returns = map<Text, seq<real>>

  /** The series of a symbol; none for one that is not given. */
  function Series(returns_: Returns, a: Text): seq<real> {
    if a in returns_ then returns_[a] else []
  }

  function Entry(sqrt: real -> real, returns_: Returns, p: (Text, Text)): real {
    if p.0 == p.1 then 1.0 else Pearson(sqrt, Series(returns_, p.0), Series(returns_, p.1))
  }

  function Row(a: Text, columns: seq<Text>): seq<(Text, Text)> {
    Map(columns, (b: Text) => (a, b))
  }

  /** The pairs of rows and columns, row by row. */
  function Pairs(rows: seq<Text>, columns: seq<Text>): seq<(Text, Text)> {
    if rows == [] then [] else Pairs(rows[..|rows| - 1], columns) + Row(rows[|rows| - 1], columns)
  }

  /** The entries of these pairs, each stored under its joined key over what was there. */
  function Filled(sqrt: real -> real, returns_: Returns, pairs: seq<(Text, Text)>): Matrix {
    if pairs == [] then map[]
    else
      var p := pairs[|pairs| - 1];
      Filled(sqrt, returns_, pairs[..|pairs| - 1])[PairKey(p.0, p.1) := Entry(sqrt, returns_, p)]
  }

  function MatrixOf(sqrt: real -> real, returns_: Returns, symbols: seq<Text>): Matrix {
    Filled(sqrt, returns_, Pairs(symbols, symbols))
  }

  /** The means of the first n values, as the first loop takes them. */
  method Means(a: seq<real>, b: seq<real>, n: nat) returns (ma: real, mb: real)
    requires 0 < n <= |a| && n <= |b|
    ensures ma == Mean(a[..n]) && mb == Mean(b[..n])
  {
    var sa, sb := 0.0, 0.0;
    for i := 0 to n
      invariant sa == Sums.Seq(a[..i]) && sb == Sums.Seq(b[..i])
    {
      assert a[..i + 1][..i] == a[..i] && b[..i + 1][..i] == b[..i];
      sa, sb := sa + a[i], sb + b[i];
    }
    ma, mb := sa / n as real, sb / n as real;
  }

  /** The sums of products of the deviations, as the second loop takes them. */
  method Products(a: seq<real>, b: seq<real>, n: nat, ma: real, mb: real) returns (cov: real, va: real, vb: real)
    requires n <= |a| && n <= |b|
    ensures var x, y := Shift(a[..n], ma), Shift(b[..n], mb); cov == Dot(x, y) && va == Dot(x, x) && vb == Dot(y, y)
  {
    hide Times, Dot;
    ghost var x, y := Shift(a[..n], ma), Shift(b[..n], mb);
    cov, va, vb := 0.0, 0.0, 0.0;
    NoProducts(x, y);
    for i := 0 to n
      invariant cov == Dot(x[..i], y[..i]) && va == Dot(x[..i], x[..i]) && vb == Dot(y[..i], y[..i])
    {
      var da, db := a[i] - ma, b[i] - mb;
      NextProduct(x, y, i);
      NextProduct(x, x, i);
      NextProduct(y, y, i);
      cov, va, vb := cov + Times(da, db), va + Times(da, da), vb + Times(db, db);
    }
    assert x[..n] == x && y[..n] == y;
  }

  method Correlate(sqrt: real -> real, a: seq<real>, b: seq<real>) returns (r: real)
    ensures r == Pearson(sqrt, a, b)
  {
    hide Mean, Dot, Ratio;
    var n := Common(a, b);
    if n == 0 {
      return 0.0;
    }
    var ma, mb := Means(a, b, n);
    var cov, va, vb := Products(a, b, n, ma, mb);
    r := Ratio(sqrt, cov, va, vb);
  }

  lemma NoProducts(x: seq<real>, y: seq<real>)
    ensures Dot(x[..0], y[..0]) == 0.0 == Dot(x[..0], x[..0]) == Dot(y[..0], y[..0])
  {
  }

  lemma NextProduct(x: seq<real>, y: seq<real>, i: nat)
    requires i < |x| == |y|
    ensures Dot(x[..i + 1], y[..i + 1]) == Dot(x[..i], y[..i]) + Times(x[i], y[i])
  {
    hide Times;
    assert x[..i + 1][..i] == x[..i] && y[..i + 1][..i] == y[..i];
  }

  lemma FilledNext(sqrt: real -> real, returns_: Returns, pairs: seq<(Text, Text)>, p: (Text, Text))
    ensures Filled(sqrt, returns_, pairs + [p])
      == Filled(sqrt, returns_, pairs)[PairKey(p.0, p.1) := Entry(sqrt, returns_, p)]
  {
    hide Entry, PairKey;
    assert (pairs + [p])[..|pairs|] == pairs;
  }

  method Build(sqrt: real -> real, returns_: Returns, symbols: seq<Text>) returns (m: Matrix)
    ensures m == MatrixOf(sqrt, returns_, symbols)
  {
    hide Pearson, Filled, PairKey;
    m := map[];
    assert Filled(sqrt, returns_, []) == map[] by { NothingFilled(sqrt, returns_); }
    for i := 0 to |symbols|
      invariant m == Filled(sqrt, returns_, Pairs(symbols[..i], symbols))
    {
      var a := symbols[i];
      ghost var before := Pairs(symbols[..i], symbols);
      assert before + Row(a, symbols[..0]) == before;
      for j := 0 to |symbols|
        invariant m == Filled(sqrt, returns_, before + Row(a, symbols[..j]))
      {
        var b := symbols[j];
        var r := 1.0;
        if a != b {
          r := Correlate(sqrt, Series(returns_, a), Series(returns_, b));
        }
        FilledNext(sqrt, returns_, before + Row(a, symbols[..j]), (a, b));
        assert before + Row(a, symbols[..j + 1]) == before + Row(a, symbols[..j]) + [(a, b)];
        m := m[PairKey(a, b) := r];
      }
      assert symbols[..|symbols|] == symbols;
      assert symbols[..i + 1][..i] == symbols[..i];
    }
    assert symbols[..|symbols|] == symbols;
  }

  lemma NothingFilled(sqrt: real -> real, returns_: Returns)
    ensures Filled(sqrt, returns_, []) == map[]
  {
  }

  lemma {:induction false} FilledBounded(sqrt: real -> real, returns_: Returns, pairs: seq<(Text, Text)>)
    requires IsRoot(sqrt)
    ensures forall k :: k in Filled(sqrt, returns_, pairs) ==> -1.0 <= Filled(sqrt, returns_, pairs)[k] <= 1.0
  {
    hide IsRoot, Pearson, PairKey;
    if pairs != [] {
      var p := pairs[|pairs| - 1];
      FilledBounded(sqrt, returns_, pairs[..|pairs| - 1]);
      PearsonBounded(sqrt, Series(returns_, p.0), Series(returns_, p.1));
    }
  }

  // ---- what a lookup finds ----

  /** The last of the pairs with this key. */
  function LastWith(pairs: seq<(Text, Text)>, key: Text): Option<(Text, Text)> {
    if pairs == [] then None
    else
      var p := pairs[|pairs| - 1];
      if PairKey(p.0, p.1) == key then Some(p) else LastWith(pairs[..|pairs| - 1], key)
  }

  lemma {:induction false} FilledByLast(sqrt: real -> real, returns_: Returns, pairs: seq<(Text, Text)>, key: Text)
    ensures var m := Filled(sqrt, returns_, pairs);
      match LastWith(pairs, key)
      case None => key !in m
      case Some(p) => key in m && m[key] == Entry(sqrt, returns_, p)
  {
    hide Entry, PairKey;
    if pairs != [] {
      FilledByLast(sqrt, returns_, pairs[..|pairs| - 1], key);
    }
  }

  lemma {:induction false} LastIsOne(pairs: seq<(Text, Text)>, key: Text)
    ensures LastWith(pairs, key).Some? ==>
      LastWith(pairs, key).value in pairs && PairKey(LastWith(pairs, key).value.0, LastWith(pairs, key).value.1) == key
    ensures LastWith(pairs, key).None? ==> forall p :: p in pairs ==> PairKey(p.0, p.1) != key
  {
    hide PairKey;
    if pairs != [] {
      LastIsOne(pairs[..|pairs| - 1], key);
    }
  }

  lemma {:induction false} PairsAre(rows: seq<Text>, columns: seq<Text>, p: (Text, Text))
    ensures p in Pairs(rows, columns) <==> p.0 in rows && p.1 in columns
  {
    if rows != [] {
      var a := rows[|rows| - 1];
      PairsAre(rows[..|rows| - 1], columns, p);
      if p.0 == a && p.1 in columns {
        var j :| 0 <= j < |columns| && columns[j] == p.1;
        assert Row(a, columns)[j] == p;
      }
    }
  }

  /** The pair whose correlation a lookup answers with: the last one with the same key. */
  function Winner(symbols: seq<Text>, a: Text, b: Text): (p: (Text, Text))
    requires a in symbols && b in symbols
    ensures p.0 in symbols && p.1 in symbols && PairKey(p.0, p.1) == PairKey(a, b)
  {
    PairsAre(symbols, symbols, (a, b));
    LastIsOne(Pairs(symbols, symbols), PairKey(a, b));
    var p := LastWith(Pairs(symbols, symbols), PairKey(a, b)).value;
    PairsAre(symbols, symbols, p);
    p
  }

  lemma FindsWinner(sqrt: real -> real, returns_: Returns, symbols: seq<Text>, a: Text, b: Text)
    requires a in symbols && b in symbols
    ensures Get(MatrixOf(sqrt, returns_, symbols), a, b) == Entry(sqrt, returns_, Winner(symbols, a, b))
  {
    hide Entry, PairKey, Filled, Pairs, LastWith;
    PairsAre(symbols, symbols, (a, b));
    LastIsOne(Pairs(symbols, symbols), PairKey(a, b));
    FilledByLast(sqrt, returns_, Pairs(symbols, symbols), PairKey(a, b));
  }

  /** Pairs that correlate alike whatever the returns: the same two symbols, or one symbol
      with itself on both sides. */
  predicate Alike(p: (Text, Text), q: (Text, Text)) {
    p == q || p == (q.1, q.0) || (p.0 == p.1 && q.0 == q.1)
  }

  /** Returns are given for these symbols. */
  ghost predicate Given(returns_: Returns, symbols: seq<Text>) {
    forall s :: s in returns_ <==> s in symbols
  }

  /** Returns that rise for some symbols and are missing for the others. */
  function Telling(symbols: seq<Text>, rising: set<Text>): Returns {
    map s | s in symbols :: if s in rising then [0.0, 1.0] else []
  }

  lemma RisingCorrelates(sqrt: real -> real)
    requires IsRoot(sqrt)
    ensures Pearson(sqrt, [0.0, 1.0], [0.0, 1.0]) == 1.0
  {
    hide IsRoot, Pearson;
    var r := [0.0, 1.0];
    assert r[..1] == [0.0] && r[..1][..0] == [];
    assert Sums.Seq(r) == 1.0;
    assert Mean(r) == 0.5;
    var d := Deviations(r);
    assert d == [-0.5, 0.5];
    assert d[..1] == [-0.5] && d[..1][..0] == [];
    assert Dot(d, d) == 0.5;
    AffineCorrelates(sqrt, r, r, 1.0, 0.0);
  }

  lemma TellingEntry(sqrt: real -> real, symbols: seq<Text>, rising: set<Text>, p: (Text, Text))
    requires IsRoot(sqrt) && p.0 in symbols && p.1 in symbols
    ensures Entry(sqrt, Telling(symbols, rising), p) == if p.0 == p.1 || (p.0 in rising && p.1 in rising) then 1.0 else 0.0
  {
    hide IsRoot;
    RisingCorrelates(sqrt);
  }

  /** Two pairs correlate alike for all returns exactly when they are alike. */
  lemma AlikeExactly(sqrt: real -> real, symbols: seq<Text>, p: (Text, Text), q: (Text, Text))
    requires IsRoot(sqrt) && p.0 in symbols && p.1 in symbols && q.0 in symbols && q.1 in symbols
    ensures (forall returns_ :: Given(returns_, symbols) ==> Entry(sqrt, returns_, p) == Entry(sqrt, returns_, q))
      <==> Alike(p, q)
  {
    hide IsRoot, Pearson, Telling;
    if Alike(p, q) {
      forall returns_ ensures Entry(sqrt, returns_, p) == Entry(sqrt, returns_, q) {
        PearsonBounded(sqrt, Series(returns_, p.0), Series(returns_, p.1));
      }
    } else {
      var rising := if p.0 == p.1 || q.0 == q.1 then {} else {p.0, p.1};
      TellingGiven(symbols, rising);
      TellingEntry(sqrt, symbols, rising, p);
      TellingEntry(sqrt, symbols, rising, q);
      assert Entry(sqrt, Telling(symbols, rising), p) != Entry(sqrt, Telling(symbols, rising), q);
    }
  }

  lemma TellingGiven(symbols: seq<Text>, rising: set<Text>)
    ensures Given(Telling(symbols, rising), symbols)
  {
  }

  /** Equal keys of these symbols come from pairs that are alike. */
  ghost predicate PairsTold(symbols: seq<Text>) {
    forall a, b, c, d :: a in symbols && b in symbols && c in symbols && d in symbols && PairKey(a, b) == PairKey(c, d) ==>
      Alike((a, b), (c, d))
  }

  /** Every pair finds its own correlation, whatever the returns. */
  ghost predicate LooksUpRight(sqrt: real -> real, symbols: seq<Text>) {
    forall returns_, a, b :: Given(returns_, symbols) && a in symbols && b in symbols ==>
      Get(MatrixOf(sqrt, returns_, symbols), a, b) == Entry(sqrt, returns_, (a, b))
  }

  lemma ToldLooksUpRight(sqrt: real -> real, symbols: seq<Text>)
    requires IsRoot(sqrt) && PairsTold(symbols)
    ensures LooksUpRight(sqrt, symbols)
  {
    hide IsRoot, Entry, MatrixOf, Get, PairKey, Alike, Given, Winner;
    forall returns_, a, b | Given(returns_, symbols) && a in symbols && b in symbols
      ensures Get(MatrixOf(sqrt, returns_, symbols), a, b) == Entry(sqrt, returns_, (a, b))
    {
      var p := Winner(symbols, a, b);
      FindsWinner(sqrt, returns_, symbols, a, b);
      assert Alike((p.0, p.1), (a, b));
      AlikeExactly(sqrt, symbols, p, (a, b));
    }
  }

  lemma RightIsTold(sqrt: real -> real, symbols: seq<Text>, a: Text, b: Text, c: Text, d: Text)
    requires IsRoot(sqrt) && LooksUpRight(sqrt, symbols)
    requires a in symbols && b in symbols && c in symbols && d in symbols && PairKey(a, b) == PairKey(c, d)
    ensures Alike((a, b), (c, d))
  {
    hide IsRoot, Entry, MatrixOf, PairKey, Alike, Given;
    forall returns_ | Given(returns_, symbols)
      ensures Entry(sqrt, returns_, (a, b)) == Entry(sqrt, returns_, (c, d))
    {
      var m := MatrixOf(sqrt, returns_, symbols);
      assert Get(m, a, b) == Get(m, c, d);
    }
    AlikeExactly(sqrt, symbols, (a, b), (c, d));
  }

  /** Whatever the returns, every pair finds its own correlation exactly when equal keys come
      from pairs that are alike. */
  lemma LookupExactly(sqrt: real -> real, symbols: seq<Text>)
    requires IsRoot(sqrt)
    ensures LooksUpRight(sqrt, symbols) <==> PairsTold(symbols)
  {
    hide IsRoot, LooksUpRight, PairKey, Alike;
    if PairsTold(symbols) {
      ToldLooksUpRight(sqrt, symbols);
    }
    if LooksUpRight(sqrt, symbols) {
      forall a, b, c, d | a in symbols && b in symbols && c in symbols && d in symbols && PairKey(a, b) == PairKey(c, d)
        ensures Alike((a, b), (c, d))
      {
        RightIsTold(sqrt, symbols, a, b, c, d);
      }
    }
  }

  /** Whatever the returns, the matrix is symmetric exactly when the lookups of two symbols,
      one way and the other, are answered by pairs that are alike. */
  lemma SymmetricExactly(sqrt: real -> real, symbols: seq<Text>)
    requires IsRoot(sqrt)
    ensures (forall returns_, a, b :: Given(returns_, symbols) && a in symbols && b in symbols ==>
        Get(MatrixOf(sqrt, returns_, symbols), a, b) == Get(MatrixOf(sqrt, returns_, symbols), b, a))
      <==> (forall a, b :: a in symbols && b in symbols ==> Alike(Winner(symbols, a, b), Winner(symbols, b, a)))
  {
    hide IsRoot, Entry, MatrixOf, Get, PairKey, Alike, Given, Winner;
    forall returns_, a, b | a in symbols && b in symbols
      ensures Get(MatrixOf(sqrt, returns_, symbols), a, b) == Entry(sqrt, returns_, Winner(symbols, a, b))
    {
      FindsWinner(sqrt, returns_, symbols, a, b);
    }
    forall a, b | a in symbols && b in symbols
      ensures (forall returns_ :: Given(returns_, symbols) ==>
          Entry(sqrt, returns_, Winner(symbols, a, b)) == Entry(sqrt, returns_, Winner(symbols, b, a)))
        <==> Alike(Winner(symbols, a, b), Winner(symbols, b, a))
    {
      AlikeExactly(sqrt, symbols, Winner(symbols, a, b), Winner(symbols, b, a));
    }
  }

  /** Keys are told apart exactly when symbols x|y and y|z beside x and z are one symbol, and
      x and z are one; without a bar in any symbol they always are. */
  lemma PairsToldExactly(symbols: seq<Text>)
    ensures (forall s :: s in symbols ==> 0x7C !in s) ==> PairsTold(symbols)
    ensures PairsTold(symbols) <==>
      forall x, y, z :: x in symbols && z in symbols && PairKey(x, y) in symbols && PairKey(y, z) in symbols ==>
        x == z && PairKey(x, y) == PairKey(y, z)
  {
    hide PairKey, Alike;
    forall x, y ensures 0x7C in PairKey(x, y) {
      KeyHasBar(x, y);
    }
    if PairsTold(symbols) {
      forall x, y, z | x in symbols && z in symbols && PairKey(x, y) in symbols && PairKey(y, z) in symbols
        ensures x == z && PairKey(x, y) == PairKey(y, z)
      {
        Rejoined(x, y, z);
        assert Alike((x, PairKey(y, z)), (PairKey(x, y), z));
        NotAlike(x, y, z);
      }
    }
    if forall x, y, z :: x in symbols && z in symbols && PairKey(x, y) in symbols && PairKey(y, z) in symbols ==>
        x == z && PairKey(x, y) == PairKey(y, z)
    {
      forall a, b, c, d | a in symbols && b in symbols && c in symbols && d in symbols && PairKey(a, b) == PairKey(c, d)
        ensures Alike((a, b), (c, d))
      {
        if |a| <= |c| {
          KeysCut(a, b, c, d, symbols);
        } else {
          KeysCut(c, d, a, b, symbols);
          AlikeBack((c, d), (a, b));
        }
      }
    }
  }

  lemma KeyHasBar(x: Text, y: Text)
    ensures 0x7C in PairKey(x, y)
  {
    assert PairKey(x, y)[|x|] == 0x7C;
  }

  lemma AlikeBack(p: (Text, Text), q: (Text, Text))
    ensures Alike(p, q) ==> Alike(q, p)
  {
  }

  lemma Rejoined(x: Text, y: Text, z: Text)
    ensures PairKey(x, PairKey(y, z)) == PairKey(PairKey(x, y), z)
  {
  }

  lemma NotAlike(x: Text, y: Text, z: Text)
    ensures Alike((x, PairKey(y, z)), (PairKey(x, y), z)) ==> x == z && PairKey(x, y) == PairKey(y, z)
  {
    assert |PairKey(x, y)| > |x| && |PairKey(y, z)| > |z|;
  }

  /** Two ways to cut one key differ by a symbol between two bars. */
  lemma KeysCut(a: Text, b: Text, c: Text, d: Text, symbols: seq<Text>)
    requires PairKey(a, b) == PairKey(c, d) && |a| <= |c|
    requires a in symbols && b in symbols && c in symbols && d in symbols
    requires forall x, y, z :: x in symbols && z in symbols && PairKey(x, y) in symbols && PairKey(y, z) in symbols ==>
      x == z && PairKey(x, y) == PairKey(y, z)
    ensures Alike((a, b), (c, d))
  {
    var key := PairKey(a, b);
    if |a| == |c| {
      assert a == key[..|a|] == c && b == key[|a| + 1..] == d;
    } else {
      assert c == key[..|c|] && d == key[|c| + 1..] && b == key[|a| + 1..] && a == key[..|a|];
      var y := c[|a| + 1..];
      assert key[|a|] == 0x7C == key[|c|];
      assert c == a + [0x7C] + y == PairKey(a, y);
      assert b == y + [0x7C] + d == PairKey(y, d);
    }
  }

  const MIXED: seq<Text> := [[0x61], [0x61, 0x7C, 0x62], [0x62, 0x7C, 0x63], [0x63]]

  /** The symbols a, a|b, b|c and c: looking up a and b|c answers for a|b and c, while looking
      up b|c and a answers for just those two. */
  lemma MixedLookups(sqrt: real -> real, returns_: Returns)
    ensures var m := MatrixOf(sqrt, returns_, MIXED);
      && Get(m, MIXED[0], MIXED[2]) == Entry(sqrt, returns_, (MIXED[1], MIXED[3]))
      && Get(m, MIXED[2], MIXED[0]) == Entry(sqrt, returns_, (MIXED[2], MIXED[0]))
  {
    hide Entry, Filled, PairKey, Pairs;
    var pairs := Pairs(MIXED, MIXED);
    MixedPairs();
    MixedKeys();
    forall k | 0 <= k < 16
      ensures var key := PairKey(pairs[k].0, pairs[k].1);
        |key| == |MIXED[k / 4]| + 1 + |MIXED[k % 4]| && key[0] == MIXED[k / 4][0] && key[|key| - 1] == MIXED[k % 4][|MIXED[k % 4]| - 1]
    {
      KeyEnds(MIXED[k / 4], MIXED[k % 4]);
    }
    FilledByLast(sqrt, returns_, pairs, PairKey(MIXED[0], MIXED[2]));
    FilledByLast(sqrt, returns_, pairs, PairKey(MIXED[2], MIXED[0]));
    LastAt(pairs, PairKey(MIXED[0], MIXED[2]), 7);
    LastAt(pairs, PairKey(MIXED[2], MIXED[0]), 8);
  }

  lemma MixedKeys()
    ensures PairKey(MIXED[0], MIXED[2]) == PairKey(MIXED[1], MIXED[3])
  {
    assert MIXED[1] == MIXED[0] + [0x7C] + [0x62] && MIXED[2] == [0x62] + [0x7C] + MIXED[3];
  }

  lemma KeyEnds(a: Text, b: Text)
    requires a != [] && b != []
    ensures var key := PairKey(a, b);
      |key| == |a| + 1 + |b| && key[0] == a[0] && key[|key| - 1] == b[|b| - 1]
  {
  }

  lemma MixedPairs()
    ensures |Pairs(MIXED, MIXED)| == 16
    ensures forall k :: 0 <= k < 16 ==> Pairs(MIXED, MIXED)[k] == (MIXED[k / 4], MIXED[k % 4])
  {
    PairsAt(MIXED, MIXED);
  }

  lemma {:induction false} PairsAt(rows: seq<Text>, columns: seq<Text>)
    requires |columns| == 4
    ensures |Pairs(rows, columns)| == 4 * |rows|
    ensures forall k :: 0 <= k < 4 * |rows| ==> Pairs(rows, columns)[k] == (rows[k / 4], columns[k % 4])
  {
    if rows != [] {
      PairsAt(rows[..|rows| - 1], columns);
    }
  }

  lemma {:induction false} LastAt(pairs: seq<(Text, Text)>, key: Text, i: nat)
    requires i < |pairs| && PairKey(pairs[i].0, pairs[i].1) == key
    requires forall k :: i < k < |pairs| ==> PairKey(pairs[k].0, pairs[k].1) != key
    ensures LastWith(pairs, key) == Some(pairs[i])
    decreases |pairs|
  {
    hide PairKey;
    if i < |pairs| - 1 {
      LastAt(pairs[..|pairs| - 1], key, i);
    }
  }

  /** A matrix of symbols whose keys are told apart is symmetric, with ones on the diagonal. */
  lemma MatrixSymmetric(sqrt: real -> real, returns_: Returns, symbols: seq<Text>, a: Text, b: Text)
    requires IsRoot(sqrt) && PairsTold(symbols) && Given(returns_, symbols) && a in symbols && b in symbols
    ensures var m := MatrixOf(sqrt, returns_, symbols);
      Get(m, a, b) == Get(m, b, a) && -1.0 <= Get(m, a, b) <= 1.0 && Get(m, a, a) == 1.0
  {
    hide IsRoot, Pearson, Get, PairsTold, MatrixOf, Given;
    LookupExactly(sqrt, symbols);
    assert forall x, y :: x in symbols && y in symbols ==>
      Get(MatrixOf(sqrt, returns_, symbols), x, y) == Entry(sqrt, returns_, (x, y));
    PearsonBounded(sqrt, Series(returns_, a), Series(returns_, b));
  }

  // ---- the mean correlation of one symbol ----

  function AbsSum(m: Matrix, symbol: Text, others: seq<Text>): (r: real)
    ensures r >= 0.0
  {
    if others == [] then 0.0
    else AbsSum(m, symbol, others[..|others| - 1]) + Sums.Abs(Get(m, symbol, others[|others| - 1]))
  }

  function Rest(symbol: Text, others: seq<Text>): seq<Text> {
    if others == [] then []
    else
      Rest(symbol, others[..|others| - 1]) + if others[|others| - 1] == symbol then [] else [others[|others| - 1]]
  }

  function AvgAbsCorr(m: Matrix, symbol: Text, others: seq<Text>): (r: real)
    ensures r >= 0.0
  {
    var rest := Rest(symbol, others);
    if rest == [] then 0.0 else AbsSum(m, symbol, rest) / |rest| as real
  }

  /** A lookup that no pair of the symbols has the key for answers zero. */
  lemma MissingIsZero(sqrt: real -> real, returns_: Returns, symbols: seq<Text>, a: Text, b: Text)
    requires forall c, d :: c in symbols && d in symbols ==> PairKey(c, d) != PairKey(a, b)
    ensures Get(MatrixOf(sqrt, returns_, symbols), a, b) == 0.0
  {
    hide PairKey, Entry;
    var pairs := Pairs(symbols, symbols);
    forall k | 0 <= k < |pairs| ensures PairKey(pairs[k].0, pairs[k].1) != PairKey(a, b) {
      assert pairs[k] in pairs;
      PairsAre(symbols, symbols, pairs[k]);
    }
    NoneFilled(sqrt, returns_, pairs, PairKey(a, b));
  }

  lemma {:induction false} NoneFilled(sqrt: real -> real, returns_: Returns, pairs: seq<(Text, Text)>, key: Text)
    requires forall k :: 0 <= k < |pairs| ==> PairKey(pairs[k].0, pairs[k].1) != key
    ensures key !in Filled(sqrt, returns_, pairs)
  {
    hide PairKey, Entry;
    if pairs != [] {
      NoneFilled(sqrt, returns_, pairs[..|pairs| - 1], key);
    }
  }

  /** The places of the other symbols. */
  ghost function Others(symbol: Text, symbols: seq<Text>): set<nat> {
    set i: nat | i < |symbols| && symbols[i] != symbol
  }

  ghost function Strength(m: Matrix, symbol: Text, symbols: seq<Text>): nat -> real {
    (i: nat) => if i >= |symbols| then 0.0
         else if Get(m, symbol, symbols[i]) < 0.0 then -Get(m, symbol, symbols[i]) else Get(m, symbol, symbols[i])
  }

  /** A mean of the entries with the other symbols, whatever their signs; zero if there is
      no other symbol. */
  ghost predicate IsMeanCorrelation(m: Matrix, symbol: Text, symbols: seq<Text>, r: real) {
    var others := Others(symbol, symbols);
    && (others == {} ==> r == 0.0)
    && r * |others| as real == Sums.Over(others, Strength(m, symbol, symbols))
  }

  lemma AvgIsMean(m: Matrix, symbol: Text, symbols: seq<Text>)
    ensures IsMeanCorrelation(m, symbol, symbols, AvgAbsCorr(m, symbol, symbols))
  {
    hide Get, Sums.Over;
    RestCounted(m, symbol, symbols);
    var rest := Rest(symbol, symbols);
    if rest != [] {
      var sum, n := AbsSum(m, symbol, rest), |rest| as real;
      assert sum / n * n == sum;
    }
  }

  lemma {:induction false} RestCounted(m: Matrix, symbol: Text, symbols: seq<Text>)
    ensures |Rest(symbol, symbols)| == |Others(symbol, symbols)|
    ensures AbsSum(m, symbol, Rest(symbol, symbols)) == Sums.Over(Others(symbol, symbols), Strength(m, symbol, symbols))
  {
    hide Get, Sums.Over, Strength, Others, AbsSum, Rest;
    OthersNext(m, symbol, symbols);
    if symbols != [] {
      var n := |symbols| - 1;
      RestCounted(m, symbol, symbols[..n]);
      RestNext(m, symbol, symbols);
    } else {
      RestNone(m, symbol);
      Sums.OverNothing(Strength(m, symbol, symbols));
    }
  }

  lemma RestNone(m: Matrix, symbol: Text)
    ensures Rest(symbol, []) == [] && AbsSum(m, symbol, []) == 0.0
  {
  }

  lemma RestNext(m: Matrix, symbol: Text, symbols: seq<Text>)
    requires symbols != []
    ensures var n := |symbols| - 1;
      var rest := Rest(symbol, symbols[..n]);
      if symbols[n] == symbol then Rest(symbol, symbols) == rest
      else
        && |Rest(symbol, symbols)| == |rest| + 1
        && AbsSum(m, symbol, Rest(symbol, symbols)) == AbsSum(m, symbol, rest) + Strength(m, symbol, symbols)(n)
  {
    hide Get;
    var n := |symbols| - 1;
    if symbols[n] != symbol {
      var rest := Rest(symbol, symbols[..n]);
      assert (rest + [symbols[n]])[..|rest|] == rest;
    }
  }

  lemma OthersNext(m: Matrix, symbol: Text, symbols: seq<Text>)
    ensures symbols == [] ==> Others(symbol, symbols) == {}
    ensures symbols != [] ==>
      var n: nat := |symbols| - 1;
      var f, before := Strength(m, symbol, symbols), Others(symbol, symbols[..n]);
      if symbols[n] == symbol then
        Others(symbol, symbols) == before && Sums.Over(before, f) == Sums.Over(before, Strength(m, symbol, symbols[..n]))
      else
        && n !in before && Others(symbol, symbols) == before + {n}
        && Sums.Over(Others(symbol, symbols), f) == Sums.Over(before, Strength(m, symbol, symbols[..n])) + f(n)
  {
    hide Get, Sums.Over;
    if symbols != [] {
      var n: nat := |symbols| - 1;
      var f, front, before := Strength(m, symbol, symbols), symbols[..n], Others(symbol, symbols[..n]);
      Sums.Same(before, Strength(m, symbol, front), f);
      forall i ensures i in Others(symbol, symbols) <==> i in before || (i == n && symbols[n] != symbol) {
      }
      if symbols[n] != symbol {
        assert Others(symbol, symbols) == before + {n};
        Sums.Add<nat>(before, f, n);
      }
    }
  }

  lemma {:induction false} AvgAtMostOne(m: Matrix, symbol: Text, others: seq<Text>)
    requires forall k :: k in m ==> -1.0 <= m[k] <= 1.0
    ensures AvgAbsCorr(m, symbol, others) <= 1.0
  {
    var rest := Rest(symbol, others);
    AbsSumBounded(m, symbol, rest);
    if rest != [] {
      Divided(AbsSum(m, symbol, rest), |rest| as real);
    }
  }

  lemma {:induction false} AbsSumBounded(m: Matrix, symbol: Text, others: seq<Text>)
    requires forall k :: k in m ==> -1.0 <= m[k] <= 1.0
    ensures AbsSum(m, symbol, others) <= |others| as real
  {
    if others != [] {
      AbsSumBounded(m, symbol, others[..|others| - 1]);
    }
  }
}
