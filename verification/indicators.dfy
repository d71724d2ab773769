/** Indicator arithmetic over series of any length, in exact numbers. */
module Indicators {
  import opened Options
  import opened Correlation
  import Sums

  function Tail(s: seq<real>, n: nat): (r: seq<real>)
    requires n <= |s|
    ensures |r| == n
  {
    s[|s| - n..]
  }

  /** All values lie between two bounds. */
  predicate Between(s: seq<real>, lo: real, hi: real) {
    forall i :: 0 <= i < |s| ==> lo <= s[i] <= hi
  }

  // ---- averages ----

  function Sma(values: seq<real>, period: int): Option<real> {
    if |values| < period || period <= 0 then None
    else Some(Sums.Seq(Tail(values, period)) / period as real)
  }

  /** The running average after `n` values: the plain mean of the first `period`, then
      each new value with weight k. */
  function EmaUpTo(values: seq<real>, period: nat, n: nat): real
    requires 0 < period <= n <= |values|
  {
    var k := 2.0 / (period as real + 1.0);
    if n == period then Sums.Seq(values[..period]) / period as real
    else Mix(values[n - 1], EmaUpTo(values, period, n - 1), k)
  }

  function Mix(x: real, y: real, k: real): real {
    x * k + y * (1.0 - k)
  }

  function EmaOf(values: seq<real>, period: int): Option<real> {
    if |values| < period || period <= 0 then None else Some(EmaUpTo(values, period, |values|))
  }

  method Ema(values: seq<real>, period: int) returns (e: Option<real>)
    ensures e == EmaOf(values, period)
  {
    if |values| < period || period <= 0 {
      return None;
    }
    var k := 2.0 / (period as real + 1.0);
    var sum := 0.0;
    for i := 0 to period
      invariant sum == Sums.Seq(values[..i])
    {
      assert values[..i + 1][..i] == values[..i];
      sum := sum + values[i];
    }
    var r := sum / period as real;
    for i := period to |values|
      invariant r == EmaUpTo(values, period, i)
    {
      r := Mix(values[i], r, k);
    }
    e := Some(r);
  }

  lemma {:induction false} SumBetween(s: seq<real>, lo: real, hi: real)
    requires Between(s, lo, hi)
    ensures lo * |s| as real <= Sums.Seq(s) <= hi * |s| as real
  {
    if s != [] {
      SumBetween(s[..|s| - 1], lo, hi);
      OneMoreTerm(lo, |s| - 1);
      OneMoreTerm(hi, |s| - 1);
    }
  }

  lemma OneMoreTerm(x: real, n: int)
    ensures x * n as real + x == x * (n + 1) as real
  {
  }

  lemma MeanBetween(sum: real, n: nat, lo: real, hi: real)
    requires n > 0 && lo * n as real <= sum <= hi * n as real
    ensures lo <= sum / n as real <= hi
  {
    var m := sum / n as real;
    assert m * n as real == sum;
    Cancel(lo, m, n as real);
    Cancel(m, hi, n as real);
  }

  lemma Cancel(x: real, y: real, d: real)
    requires d > 0.0 && x * d <= y * d
    ensures x <= y
  {
    Falls(x - y, d);
    assert (x - y) * d == x * d - y * d;
  }

  lemma Falls(z: real, d: real)
    requires d > 0.0
    ensures z > 0.0 ==> z * d > 0.0
  {
  }

  lemma MixBetween(x: real, y: real, k: real, lo: real, hi: real)
    requires 0.0 <= k <= 1.0 && lo <= x <= hi && lo <= y <= hi
    ensures lo <= Mix(x, y, k) <= hi
  {
    NotNegative(x - lo, k);
    NotNegative(y - lo, 1.0 - k);
    NotNegative(hi - x, k);
    NotNegative(hi - y, 1.0 - k);
    assert Mix(x, y, k) - lo == (x - lo) * k + (y - lo) * (1.0 - k);
    assert hi - Mix(x, y, k) == (hi - x) * k + (hi - y) * (1.0 - k);
  }

  lemma Smoothing(period: nat)
    requires period > 0
    ensures 0.0 <= 2.0 / (period as real + 1.0) <= 1.0
  {
    Divided(2.0, period as real + 1.0);
  }

  lemma {:induction false} EmaUpToBetween(values: seq<real>, period: nat, n: nat, lo: real, hi: real)
    requires 0 < period <= n <= |values| && Between(values, lo, hi)
    ensures lo <= EmaUpTo(values, period, n) <= hi
  {
    hide Mix, Sums.Seq;
    if n == period {
      SumBetween(values[..period], lo, hi);
      MeanBetween(Sums.Seq(values[..period]), period, lo, hi);
    } else {
      EmaUpToBetween(values, period, n - 1, lo, hi);
      Smoothing(period);
      MixBetween(values[n - 1], EmaUpTo(values, period, n - 1), 2.0 / (period as real + 1.0), lo, hi);
    }
  }

  lemma SmaBetween(values: seq<real>, period: int, lo: real, hi: real)
    requires Between(values, lo, hi) && 0 < period <= |values|
    ensures lo <= Sma(values, period).value <= hi
  {
    hide Sums.Seq;
    var tail := Tail(values, period);
    SumBetween(tail, lo, hi);
    MeanBetween(Sums.Seq(tail), period, lo, hi);
  }

  /** Averages stay between any bounds of the series, so between its least and greatest
      value; there is one for every period from one up to the length. */
  lemma AveragesBetween(values: seq<real>, period: int, lo: real, hi: real)
    requires Between(values, lo, hi)
    ensures EmaOf(values, period).Some? <==> 0 < period <= |values|
    ensures Sma(values, period).Some? <==> 0 < period <= |values|
    ensures EmaOf(values, period).Some? ==> lo <= EmaOf(values, period).value <= hi
    ensures Sma(values, period).Some? ==> lo <= Sma(values, period).value <= hi
  {
    hide Sums.Seq, Between, EmaUpTo;
    if 0 < period <= |values| {
      EmaUpToBetween(values, period, |values|, lo, hi);
      SmaBetween(values, period, lo, hi);
    }
  }

  /** With each new value the exponential average moves towards it by 2 parts in
      period + 1, from the plain mean of the first `period` values on. */
  lemma EmaMoves(values: seq<real>, period: nat, x: real)
    requires 0 < period <= |values|
    ensures EmaOf(values, period).Some? && EmaOf(values + [x], period).Some?
    ensures var e, next := EmaOf(values, period).value, EmaOf(values + [x], period).value;
      && (next - e) * (period + 1) as real == 2.0 * (x - e)
      && (|values| == period ==> e * period as real == Sums.Seq(values))
  {
    hide Sums.Seq, EmaUpTo;
    var k := 2.0 / (period as real + 1.0);
    var e := EmaUpTo(values, period, |values|);
    EmaNext(values, period, x);
    EmaPrefix(values, x, period, |values|);
    Towards(x, e, k, period as real + 1.0);
    assert (period + 1) as real == period as real + 1.0;
    if |values| == period {
      EmaStarts(values, period);
    }
  }

  lemma EmaNext(values: seq<real>, period: nat, x: real)
    requires 0 < period <= |values|
    ensures var n := |values|;
      EmaUpTo(values + [x], period, n + 1) == Mix(x, EmaUpTo(values + [x], period, n), 2.0 / (period as real + 1.0))
  {
    hide Mix, Sums.Seq;
    assert (values + [x])[|values|] == x;
  }

  lemma EmaStarts(values: seq<real>, period: nat)
    requires 0 < period == |values|
    ensures EmaUpTo(values, period, period) * period as real == Sums.Seq(values)
  {
    hide Sums.Seq;
    assert values[..period] == values;
    var m := Sums.Seq(values) / period as real;
    assert m * period as real == Sums.Seq(values);
  }

  lemma {:induction false} EmaPrefix(values: seq<real>, x: real, period: nat, n: nat)
    requires 0 < period <= n <= |values|
    ensures EmaUpTo(values + [x], period, n) == EmaUpTo(values, period, n)
  {
    hide Mix, Sums.Seq;
    if n == period {
      assert (values + [x])[..period] == values[..period];
    } else {
      EmaPrefix(values, x, period, n - 1);
      assert (values + [x])[n - 1] == values[n - 1];
    }
  }

  lemma Towards(x: real, e: real, k: real, d: real)
    requires d > 0.0 && k == 2.0 / d
    ensures (Mix(x, e, k) - e) * d == 2.0 * (x - e)
  {
    assert k * d == 2.0;
    assert Mix(x, e, k) - e == (x - e) * k;
    assert (x - e) * k * d == (x - e) * (k * d);
  }

  /** The simple average slides: a new value comes in and the one `period` before it goes. */
  lemma SmaSlides(values: seq<real>, period: nat, x: real)
    requires 0 < period <= |values|
    ensures Sma(values, period).Some? && Sma(values + [x], period).Some?
    ensures var a, next := Sma(values, period).value, Sma(values + [x], period).value;
      && next * period as real == a * period as real + x - values[|values| - period]
      && (|values| == period ==> a * period as real == Sums.Seq(values))
  {
    hide Sums.Seq, Sma;
    SmaSums(values, period);
    SmaSums(values + [x], period);
    TailSlides(values, period, x);
    assert |values| == period ==> values[|values| - period..] == values;
  }

  lemma SmaSums(values: seq<real>, period: nat)
    requires 0 < period <= |values|
    ensures Sma(values, period).Some?
    ensures Sma(values, period).value * period as real == Sums.Seq(values[|values| - period..])
  {
    hide Sums.Seq;
    Whole(Sums.Seq(Tail(values, period)), period as real);
  }

  lemma TailSlides(values: seq<real>, period: nat, x: real)
    requires 0 < period <= |values|
    ensures Sums.Seq((values + [x])[|values| + 1 - period..])
      == Sums.Seq(values[|values| - period..]) + x - values[|values| - period]
  {
    hide Sums.Seq;
    var oldest, kept := values[|values| - period], values[|values| - period + 1..];
    assert values[|values| - period..] == [oldest] + kept;
    assert (values + [x])[|values| + 1 - period..] == kept + [x];
    Sums.SeqConcat([oldest], kept);
    Sums.SeqConcat(kept, [x]);
    SumOne(oldest);
    SumOne(x);
  }

  lemma SumOne(x: real)
    ensures Sums.Seq([x]) == x
  {
    assert [x][..0] == [];
  }

  lemma Whole(x: real, d: real)
    requires d > 0.0
    ensures x / d * d == x
  {
  }

  // ---- trend ----

  /** The sum of (i - x)(y[i] - c) over the first k points. */
  function Weighted(y: seq<real>, x: real, c: real, k: nat): real
    requires k <= |y|
  {
    if k == 0 then 0.0 else Weighted(y, x, c, k - 1) + Times((k - 1) as real - x, y[k - 1] - c)
  }

  function Spread(x: real, k: nat): real {
    if k == 0 then 0.0 else Spread(x, k - 1) + Times((k - 1) as real - x, (k - 1) as real - x)
  }

  function Middle(n: nat): real {
    (n as real - 1.0) / 2.0
  }

  /** Without points the slope is zero. */
  function SlopeOf(y: seq<real>): real {
    if y == [] then 0.0
    else
      var den := Spread(Middle(|y|), |y|);
      if den == 0.0 then 0.0 else Weighted(y, Middle(|y|), Mean(y), |y|) / den
  }

  function Trend(closes: seq<real>, period: int): Option<real> {
    if |closes| < period then None
    else Some(SlopeOf(if period <= 0 then [] else Tail(closes, period)))
  }

  method TrendSlope(closes: seq<real>, period: int) returns (s: Option<real>)
    ensures s == Trend(closes, period)
  {
    if |closes| < period {
      return None;
    }
    var y := if period <= 0 then [] else Tail(closes, period);
    var n := |y|;
    if n == 0 {
      return Some(0.0);
    }
    var total := 0.0;
    for i := 0 to n
      invariant total == Sums.Seq(y[..i])
    {
      assert y[..i + 1][..i] == y[..i];
      total := total + y[i];
    }
    assert y[..n] == y;
    var xMean, yMean := (n as real - 1.0) / 2.0, total / n as real;
    var num, den := 0.0, 0.0;
    hide Times;
    for i := 0 to n
      invariant num == Weighted(y, xMean, yMean, i) && den == Spread(xMean, i)
    {
      num := num + Times(i as real - xMean, y[i] - yMean);
      den := den + Times(i as real - xMean, i as real - xMean);
    }
    s := Some(if den == 0.0 then 0.0 else num / den);
  }

  /** The sum of i - x over the first k points. */
  function Offsets(x: real, k: nat): real {
    if k == 0 then 0.0 else Offsets(x, k - 1) + ((k - 1) as real - x)
  }

  lemma {:induction false} OffsetsAre(x: real, k: nat)
    ensures Offsets(x, k) == k as real * (Middle(k) - x)
  {
    if k > 0 {
      OffsetsAre(x, k - 1);
      var r := k as real;
      assert (k - 1) as real == r - 1.0;
      assert (r - 1.0) * ((r - 2.0) / 2.0 - x) + (r - 1.0 - x) == r * ((r - 1.0) / 2.0 - x);
    }
  }

  /** The level that is subtracted does not matter, because the offsets cancel out. */
  lemma {:induction false} LevelMoves(y: seq<real>, x: real, c: real, d: real, k: nat)
    requires k <= |y|
    ensures Weighted(y, x, c, k) == Weighted(y, x, d, k) + Times(d - c, Offsets(x, k))
  {
    hide Times;
    if k == 0 {
      ZeroTimes(d - c);
    } else {
      LevelMoves(y, x, c, d, k - 1);
      LevelStep(y[k - 1], (k - 1) as real - x, c, d, Offsets(x, k - 1));
    }
  }

  lemma ZeroTimes(z: real)
    ensures Times(z, 0.0) == 0.0
  {
  }

  lemma LevelStep(v: real, o: real, c: real, d: real, before: real)
    ensures Times(o, v - c) + Times(d - c, before) == Times(o, v - d) + Times(d - c, before + o)
  {
  }

  lemma AnyLevel(y: seq<real>, c: real, d: real)
    ensures Weighted(y, Middle(|y|), c, |y|) == Weighted(y, Middle(|y|), d, |y|)
  {
    OffsetsAre(Middle(|y|), |y|);
    LevelMoves(y, Middle(|y|), c, d, |y|);
  }

  lemma SameSign(p: real, q: real)
    ensures (p <= 0.0 && q <= 0.0) || (p >= 0.0 && q >= 0.0) ==> Times(p, q) >= 0.0
    ensures p > 0.0 && q > 0.0 ==> Times(p, q) > 0.0
  {
  }

  lemma SquarePositive(x: real)
    ensures Times(x, x) >= 0.0
    ensures x != 0.0 ==> Times(x, x) > 0.0
  {
    Square(x);
    SameSign(x, x);
    SameSign(-x, -x);
    assert Times(-x, -x) == Times(x, x);
  }

  lemma {:induction false} SpreadPositive(x: real, k: nat)
    ensures Spread(x, k) >= 0.0
    ensures k > 0 && x != 0.0 ==> Spread(x, k) > 0.0
  {
    hide Times;
    if k > 0 {
      SpreadPositive(x, k - 1);
      SquarePositive((k - 1) as real - x);
    }
  }

  /** Points on a line: y[i] = a * i + b. */
  predicate OnLine(y: seq<real>, a: real, b: real) {
    forall i :: 0 <= i < |y| ==> y[i] == a * i as real + b
  }

  lemma {:induction false} LineWeighted(y: seq<real>, a: real, b: real, x: real, k: nat)
    requires OnLine(y, a, b) && k <= |y|
    ensures Weighted(y, x, a * x + b, k) == a * Spread(x, k)
  {
    if k > 0 {
      LineWeighted(y, a, b, x, k - 1);
      var o := (k - 1) as real - x;
      assert y[k - 1] - (a * x + b) == a * o;
      assert Times(o, a * o) == a * Times(o, o);
      assert a * (Spread(x, k - 1) + Times(o, o)) == a * Spread(x, k - 1) + a * Times(o, o);
    }
  }

  /** On a line the slope is exactly the line's. */
  lemma SlopeOfLine(y: seq<real>, a: real, b: real)
    requires |y| >= 2 && OnLine(y, a, b)
    ensures SlopeOf(y) == a
  {
    hide Weighted, Spread, Mean;
    var x := Middle(|y|);
    LineWeighted(y, a, b, x, |y|);
    AnyLevel(y, Mean(y), a * x + b);
    SpreadPositive(x, |y|);
    Undone(a, Spread(x, |y|));
  }

  lemma Undone(a: real, d: real)
    requires d != 0.0
    ensures a * d / d == a
  {
  }

  /** The squared distances of the first k points to the line a * i + b. */
  function Miss(y: seq<real>, a: real, b: real, k: nat): real
    requires k <= |y|
  {
    if k == 0 then 0.0
    else
      var off := y[k - 1] - a * (k - 1) as real - b;
      Miss(y, a, b, k - 1) + Times(off, off)
  }

  /** The sum of y[i] - c over the first k points, and of its squares. */
  function Level(y: seq<real>, c: real, k: nat): real
    requires k <= |y|
  {
    if k == 0 then 0.0 else Level(y, c, k - 1) + (y[k - 1] - c)
  }

  function Height(y: seq<real>, c: real, k: nat): real
    requires k <= |y|
  {
    if k == 0 then 0.0 else Height(y, c, k - 1) + Times(y[k - 1] - c, y[k - 1] - c)
  }

  lemma {:induction false} LevelIs(y: seq<real>, c: real, k: nat)
    requires k <= |y|
    ensures Level(y, c, k) == Sums.Seq(y[..k]) - k as real * c
  {
    if k > 0 {
      LevelIs(y, c, k - 1);
      assert y[..k][..k - 1] == y[..k - 1];
      OneMoreTerm(c, k - 1);
    }
  }

  /** A quadratic in the slope and the level of the line. */
  function Quadratic(height: real, weighted: real, spread: real, a: real, rest: real, d: real, n: real): real {
    height - 2.0 * (a * weighted) + Times(a, a) * spread + 2.0 * (d * rest) + n * Times(d, d)
  }

  /** What is left of the heights against the line, over the first k points. */
  function Left(y: seq<real>, a: real, x: real, c: real, k: nat): real
    requires k <= |y|
  {
    Level(y, c, k) - a * Offsets(x, k)
  }

  lemma {:induction false} MissSplits(y: seq<real>, a: real, b: real, x: real, c: real, d: real, k: nat)
    requires k <= |y| && d == c - a * x - b
    ensures Miss(y, a, b, k)
      == Quadratic(Height(y, c, k), Weighted(y, x, c, k), Spread(x, k), a, Left(y, a, x, c, k), d, k as real)
  {
    hide Times, Quadratic, Left;
    if k == 0 {
      NoneLeft(y, a, x, c);
      NoPoints(a, d);
    } else {
      MissSplits(y, a, b, x, c, d, k - 1);
      var u, v, off := (k - 1) as real - x, y[k - 1] - c, y[k - 1] - a * (k - 1) as real - b;
      OffLine(y[k - 1], (k - 1) as real, a, b, x, c, d, u, v, off);
      LeftNext(y, a, x, c, k);
      OnePoint(Height(y, c, k - 1), Weighted(y, x, c, k - 1), Spread(x, k - 1), a, Left(y, a, x, c, k - 1), d, (k - 1) as real,
               u, v, off, Left(y, a, x, c, k), k as real);
    }
  }

  lemma NoneLeft(y: seq<real>, a: real, x: real, c: real)
    ensures Left(y, a, x, c, 0) == 0.0
  {
  }

  lemma LeftNext(y: seq<real>, a: real, x: real, c: real, k: nat)
    requires 0 < k <= |y|
    ensures Left(y, a, x, c, k) == Left(y, a, x, c, k - 1) + ((y[k - 1] - c) - a * ((k - 1) as real - x))
  {
    var o, u := Offsets(x, k - 1), (k - 1) as real - x;
    assert a * (o + u) == a * o + a * u;
  }

  lemma OffLine(y: real, i: real, a: real, b: real, x: real, c: real, d: real, u: real, v: real, off: real)
    requires d == c - a * x - b && u == i - x && v == y - c && off == y - a * i - b
    ensures off == v - a * u + d
  {
  }

  lemma NoPoints(a: real, d: real)
    ensures Quadratic(0.0, 0.0, 0.0, a, 0.0, d, 0.0) == 0.0
  {
  }

  lemma OnePoint(h: real, w: real, s: real, a: real, rest: real, d: real, n: real, u: real, v: real, off: real, next: real, m: real)
    requires off == v - a * u + d && next == rest + (v - a * u) && m == n + 1.0
    ensures Quadratic(h, w, s, a, rest, d, n) + Times(off, off)
      == Quadratic(h + Times(v, v), w + Times(u, v), s + Times(u, u), a, next, d, m)
  {
    var e := v - a * u;
    assert Times(off, off) == Times(e, e) + 2.0 * (d * e) + Times(d, d);
    assert Times(e, e) == Times(v, v) - 2.0 * (a * Times(u, v)) + Times(a, a) * Times(u, u);
    assert d * (rest + e) == d * rest + d * e;
    assert Times(a, a) * (s + Times(u, u)) == Times(a, a) * s + Times(a, a) * Times(u, u);
    assert a * (w + Times(u, v)) == a * w + a * Times(u, v);
    assert (n + 1.0) * Times(d, d) == n * Times(d, d) + Times(d, d);
  }

  /** Where the line through the means with the slope of the series starts. */
  function StartOf(y: seq<real>): real
    requires y != []
  {
    Mean(y) - SlopeOf(y) * Middle(|y|)
  }

  /** The slope is the one of least squares: its line through the means misses the points
      by less in total than any other line. */
  lemma LeastSquares(y: seq<real>, a: real, b: real)
    requires |y| >= 2
    ensures Miss(y, SlopeOf(y), StartOf(y), |y|) <= Miss(y, a, b, |y|)
    ensures Miss(y, SlopeOf(y), StartOf(y), |y|) == Miss(y, a, b, |y|) ==> (a, b) == (SlopeOf(y), StartOf(y))
  {
    hide Times, Quadratic, Sums.Seq, Mean, Middle, Weighted, Spread, Height, Miss, Level, Offsets, SlopeOf;
    var d := Mean(y) - a * Middle(|y|) - b;
    Centered(y);
    MissCentered(y, a, b, 0.0, d);
    MissCentered(y, SlopeOf(y), StartOf(y), 0.0, 0.0);
    SlopeIs(y);
    Vertex(Height(y, Mean(y), |y|), Weighted(y, Middle(|y|), Mean(y), |y|), Spread(Middle(|y|), |y|), SlopeOf(y), a, 0.0, d, |y| as real);
    if Miss(y, SlopeOf(y), StartOf(y), |y|) == Miss(y, a, b, |y|) {
      SameStart(y, a, b, d);
    }
  }

  lemma SameStart(y: seq<real>, a: real, b: real, d: real)
    requires y != [] && d == Mean(y) - a * Middle(|y|) - b && d == 0.0 && a == SlopeOf(y)
    ensures b == StartOf(y)
  {
    hide Mean, Middle, SlopeOf;
  }

  lemma SlopeIs(y: seq<real>)
    requires |y| >= 2
    ensures SlopeOf(y) * Spread(Middle(|y|), |y|) == Weighted(y, Middle(|y|), Mean(y), |y|)
  {
    hide Mean, Middle, Weighted, Spread;
    Centered(y);
    Restored(Weighted(y, Middle(|y|), Mean(y), |y|), Spread(Middle(|y|), |y|));
  }

  lemma MissCentered(y: seq<real>, a: real, b: real, zero: real, d: real)
    requires y != [] && zero == 0.0 && d == Mean(y) - a * Middle(|y|) - b
    ensures var (n, x, c) := (|y|, Middle(|y|), Mean(y));
      Miss(y, a, b, n) == Quadratic(Height(y, c, n), Weighted(y, x, c, n), Spread(x, n), a, zero, d, n as real)
  {
    hide Times, Quadratic, Sums.Seq, Mean, Middle, Weighted, Spread, Height, Miss, Level, Offsets;
    var n, x, c := |y|, Middle(|y|), Mean(y);
    Centered(y);
    MissSplits(y, a, b, x, c, d, n);
    NoRest(a, Offsets(x, n), Level(y, c, n));
  }

  /** Around the means both coordinates cancel out. */
  lemma Centered(y: seq<real>)
    requires y != []
    ensures Offsets(Middle(|y|), |y|) == 0.0
    ensures Level(y, Mean(y), |y|) == 0.0
    ensures |y| >= 2 ==> Spread(Middle(|y|), |y|) > 0.0
  {
    hide Sums.Seq;
    var n := |y|;
    LevelIs(y, Mean(y), n);
    assert y[..n] == y;
    Restored(Sums.Seq(y), n as real);
    OffsetsAre(Middle(n), n);
    SpreadPositive(Middle(n), n);
  }

  lemma NoRest(a: real, offsets: real, rest: real)
    requires offsets == 0.0 && rest == 0.0
    ensures rest - a * offsets == 0.0
  {
  }

  lemma Vertex(h: real, w: real, s: real, slope: real, a: real, zero: real, d: real, n: real)
    requires s > 0.0 && n > 0.0 && slope * s == w && zero == 0.0
    ensures Quadratic(h, w, s, slope, zero, zero, n) <= Quadratic(h, w, s, a, zero, d, n)
    ensures Quadratic(h, w, s, slope, zero, zero, n) == Quadratic(h, w, s, a, zero, d, n) ==> a == slope && d == 0.0
  {
    var t := a - slope;
    assert a * w == slope * w + t * w;
    assert Times(a, a) == Times(slope, slope) + 2.0 * (slope * t) + Times(t, t);
    Regroup(slope, t, s, w);
    SquarePositive(t);
    SquarePositive(d);
    NotNegative(Times(t, t), s);
    NotNegative(Times(d, d), n);
    Falls(Times(t, t), s);
    Falls(Times(d, d), n);
    assert Quadratic(h, w, s, a, zero, d, n) - Quadratic(h, w, s, slope, zero, zero, n) == Times(t, t) * s + n * Times(d, d);
  }

  lemma Regroup(slope: real, t: real, s: real, w: real)
    requires slope * s == w
    ensures (Times(slope, slope) + 2.0 * (slope * t) + Times(t, t)) * s == Times(slope, slope) * s + 2.0 * (t * w) + Times(t, t) * s
  {
    assert slope * t * s == t * (slope * s);
    assert (Times(slope, slope) + 2.0 * (slope * t) + Times(t, t)) * s
      == Times(slope, slope) * s + 2.0 * (slope * t * s) + Times(t, t) * s;
  }

  predicate Rising(y: seq<real>) {
    forall i, j :: 0 <= i < j < |y| ==> y[i] < y[j]
  }

  /** Measured from the middle value, every point of a rising series pulls upward. */
  lemma {:induction false} RisingWeighted(y: seq<real>, n: nat, m: nat, k: nat)
    requires Rising(y) && n == |y| && m == (n - 1) / 2 && k <= n && n >= 2
    ensures Weighted(y, Middle(n), y[m], k) >= 0.0
    ensures k > m + 1 ==> Weighted(y, Middle(n), y[m], k) > 0.0
  {
    hide Times;
    if k > 0 {
      RisingWeighted(y, n, m, k - 1);
      var i := k - 1;
      assert i <= m ==> i as real - Middle(n) <= 0.0 && y[i] <= y[m];
      assert i > m ==> i as real - Middle(n) > 0.0 && y[i] > y[m];
      SameSign(i as real - Middle(n), y[i] - y[m]);
    }
  }

  /** A strictly rising series has a positive slope. */
  lemma SlopeOfRising(y: seq<real>)
    requires |y| >= 2 && Rising(y)
    ensures SlopeOf(y) > 0.0
  {
    hide Weighted, Spread, Mean;
    var n, m := |y|, (|y| - 1) / 2;
    RisingWeighted(y, n, m, n);
    AnyLevel(y, Mean(y), y[m]);
    SpreadPositive(Middle(n), n);
    PositiveQuotient(Weighted(y, Middle(n), Mean(y), n), Spread(Middle(n), n));
  }

  lemma PositiveQuotient(p: real, d: real)
    requires p > 0.0 && d > 0.0
    ensures p / d > 0.0
  {
  }

  /** The trend of the last closes: exact on lines, positive when they rise, for every
      period from two on. */
  lemma TrendMeaning(closes: seq<real>, period: int, a: real, b: real)
    requires 2 <= period <= |closes|
    ensures OnLine(Tail(closes, period), a, b) ==> Trend(closes, period) == Some(a)
    ensures Rising(Tail(closes, period)) ==> Trend(closes, period).Some? && Trend(closes, period).value > 0.0
  {
    hide OnLine, Rising, SlopeOf;
    var y := Tail(closes, period);
    if OnLine(y, a, b) {
      SlopeOfLine(y, a, b);
    }
    if Rising(y) {
      SlopeOfRising(y);
    }
  }

  // ---- relative strength ----

  function Gains(closes: seq<real>, from: nat, n: nat): (g: real)
    requires 1 <= from <= n <= |closes|
    ensures g >= 0.0
    decreases n - from
  {
    if n == from then 0.0
    else
      var diff := closes[n - 1] - closes[n - 2];
      Gains(closes, from, n - 1) + if diff >= 0.0 then diff else 0.0
  }

  function Losses(closes: seq<real>, from: nat, n: nat): (l: real)
    requires 1 <= from <= n <= |closes|
    ensures l >= 0.0
    decreases n - from
  {
    if n == from then 0.0
    else
      var diff := closes[n - 1] - closes[n - 2];
      Losses(closes, from, n - 1) + if diff >= 0.0 then 0.0 else -diff
  }

  /** The changes from one place up to another, taken without their signs. */
  ghost function ChangeAt(closes: seq<real>): int -> real {
    (i: int) => if 0 < i < |closes| then Sums.Abs(closes[i] - closes[i - 1]) else 0.0
  }

  ghost function Range(from: int, end: int): set<int>
    decreases end - from
  {
    if end <= from then {} else Range(from, end - 1) + {end - 1}
  }

  lemma {:induction false} RangeBelow(from: int, end: int)
    ensures forall i :: i in Range(from, end) <==> from <= i < end
    decreases end - from
  {
    if from < end {
      RangeBelow(from, end - 1);
    }
  }

  /** Gains less losses is what the series moved in total; together they are all changes
      without their signs. */
  lemma {:induction false} ChangesSplit(closes: seq<real>, from: nat, n: nat)
    requires 1 <= from <= n <= |closes|
    ensures Gains(closes, from, n) - Losses(closes, from, n) == closes[n - 1] - closes[from - 1]
    ensures Gains(closes, from, n) + Losses(closes, from, n)
      == Sums.Over(Range(from, n), ChangeAt(closes))
    decreases n - from
  {
    hide Sums.Over;
    if n == from {
      Sums.OverNothing(ChangeAt(closes));
    } else {
      ChangesSplit(closes, from, n - 1);
      RangeBelow(from, n - 1);
      Sums.Add(Range(from, n - 1), ChangeAt(closes), n - 1);
    }
  }

  const TINY := 0.000000001

  function Strength(gains: real, losses: real): real
    requires gains >= 0.0 && losses >= 0.0
  {
    if gains + losses == 0.0 then 50.0
    else
      var rs := gains / (if losses == 0.0 then TINY else losses);
      RatioNotNegative(gains, if losses == 0.0 then TINY else losses);
      100.0 - 100.0 / (1.0 + rs)
  }

  lemma RatioNotNegative(p: real, d: real)
    requires p >= 0.0 && d > 0.0
    ensures p / d >= 0.0
  {
  }

  method Rsi(closes: seq<real>, period: nat) returns (r: Option<real>)
    ensures r == if |closes| < period + 1 then None
      else Some(Strength(Gains(closes, |closes| - period, |closes|), Losses(closes, |closes| - period, |closes|)))
  {
    if |closes| < period + 1 {
      return None;
    }
    var gains, losses := 0.0, 0.0;
    var start := |closes| - period;
    for i := start to |closes|
      invariant gains == Gains(closes, start, i) && losses == Losses(closes, start, i)
    {
      var diff := closes[i] - closes[i - 1];
      if diff >= 0.0 {
        gains := gains + diff;
      } else {
        losses := losses - diff;
      }
    }
    r := Some(Strength(gains, losses));
  }

  lemma StrengthFrom(gains: real, d: real)
    requires gains >= 0.0 && d > 0.0
    ensures var p := 100.0 - 100.0 / (1.0 + gains / d);
      0.0 <= p < 100.0 && (p == 0.0 <==> gains == 0.0) && (p > 50.0 <==> gains > d)
  {
    var rs := gains / d;
    RatioNotNegative(gains, d);
    assert rs * d == gains;
    Percentage(rs);
    Against(rs, 1.0, d);
  }

  /** The strength is a percentage below 100; it is 0 exactly when something was lost and
      nothing gained, 50 when neither, and with losses it is above 50 exactly when more
      was gained than lost. */
  lemma StrengthMeaning(gains: real, losses: real)
    requires gains >= 0.0 && losses >= 0.0
    ensures 0.0 <= Strength(gains, losses) < 100.0
    ensures Strength(gains, losses) == 0.0 <==> gains == 0.0 && losses > 0.0
    ensures losses > 0.0 ==> (Strength(gains, losses) > 50.0 <==> gains > losses)
    ensures gains == 0.0 && losses == 0.0 ==> Strength(gains, losses) == 50.0
  {
    StrengthFrom(gains, if losses == 0.0 then TINY else losses);
  }

  /** The strength is the share of the gains in all changes, in percent; a tiny loss stands
      in where there is none. */
  lemma StrengthIsShare(gains: real, losses: real)
    requires gains >= 0.0 && losses >= 0.0
    ensures losses > 0.0 ==> Strength(gains, losses) * (gains + losses) == 100.0 * gains
    ensures losses == 0.0 && gains > 0.0 ==> Strength(gains, losses) * (gains + 0.000000001) == 100.0 * gains
  {
    if losses > 0.0 {
      Share(gains, losses);
    } else {
      Share(gains, TINY);
    }
  }

  lemma Share(gains: real, d: real)
    requires gains >= 0.0 && d > 0.0
    ensures 1.0 + gains / d > 0.0
    ensures (100.0 - 100.0 / (1.0 + gains / d)) * (gains + d) == 100.0 * gains
  {
    var rs := gains / d;
    RatioNotNegative(gains, d);
    assert rs * d == gains;
    var q := 100.0 / (1.0 + rs);
    assert q * (1.0 + rs) == 100.0;
    assert gains + d == (1.0 + rs) * d;
    assert q * ((1.0 + rs) * d) == q * (1.0 + rs) * d;
  }

  lemma Against(x: real, y: real, d: real)
    requires d > 0.0
    ensures x > y <==> x * d > y * d
    ensures x == 0.0 <==> x * d == 0.0
  {
    Falls(x - y, d);
    Falls(y - x, d);
    assert (x - y) * d == x * d - y * d;
  }

  lemma Percentage(rs: real)
    requires rs >= 0.0
    ensures var p := 100.0 - 100.0 / (1.0 + rs);
      0.0 <= p < 100.0 && (p == 0.0 <==> rs == 0.0) && (p > 50.0 <==> rs > 1.0)
  {
    var q := 100.0 / (1.0 + rs);
    assert q * (1.0 + rs) == 100.0;
    PositiveQuotient(100.0, 1.0 + rs);
    NotNegative(q, rs);
    assert q * (1.0 + rs) == q + q * rs;
    if rs > 0.0 {
      assert q * rs > 0.0;
    }
    Against(1.0 + rs, 2.0, q);
  }

  // ---- volume-weighted price ----

  function Turnovers(prices: seq<real>, volumes: seq<real>, n: nat): real
    requires n <= |prices| == |volumes|
  {
    if n == 0 then 0.0 else Turnovers(prices, volumes, n - 1) + Times(prices[n - 1], volumes[n - 1])
  }

  function VwapOf(prices: seq<real>, volumes: seq<real>): Option<real> {
    if prices == [] || |prices| != |volumes| || Sums.Seq(volumes) == 0.0 then None
    else Some(Turnovers(prices, volumes, |prices|) / Sums.Seq(volumes))
  }

  method Vwap(prices: seq<real>, volumes: seq<real>) returns (r: Option<real>)
    ensures r == VwapOf(prices, volumes)
  {
    if prices == [] || |prices| != |volumes| {
      return None;
    }
    var pv, v := 0.0, 0.0;
    hide Times;
    for i := 0 to |prices|
      invariant pv == Turnovers(prices, volumes, i) && v == Sums.Seq(volumes[..i])
    {
      assert volumes[..i + 1][..i] == volumes[..i];
      pv := pv + Times(prices[i], volumes[i]);
      v := v + volumes[i];
    }
    assert volumes[..|prices|] == volumes;
    r := if v == 0.0 then None else Some(pv / v);
  }

  lemma {:induction false} TurnoversBetween(prices: seq<real>, volumes: seq<real>, n: nat, lo: real, hi: real)
    requires n <= |prices| == |volumes| && Between(prices, lo, hi)
    requires forall i :: 0 <= i < |volumes| ==> volumes[i] >= 0.0
    ensures lo * Sums.Seq(volumes[..n]) <= Turnovers(prices, volumes, n) <= hi * Sums.Seq(volumes[..n])
    ensures Sums.Seq(volumes[..n]) >= 0.0
  {
    if n > 0 {
      TurnoversBetween(prices, volumes, n - 1, lo, hi);
      assert volumes[..n][..n - 1] == volumes[..n - 1];
      TermBetween(prices[n - 1], volumes[n - 1], Sums.Seq(volumes[..n - 1]), lo, hi);
    }
  }

  lemma TermBetween(p: real, v: real, sum: real, lo: real, hi: real)
    requires lo <= p <= hi && v >= 0.0
    ensures lo * sum + lo * v == lo * (sum + v) && hi * sum + hi * v == hi * (sum + v)
    ensures lo * v <= Times(p, v) <= hi * v
  {
    NotNegative(p - lo, v);
    NotNegative(hi - p, v);
    assert (p - lo) * v == p * v - lo * v && (hi - p) * v == hi * v - p * v;
  }

  /** With volumes that are not negative the weighted price lies between the least and the
      greatest price. */
  lemma VwapBetween(prices: seq<real>, volumes: seq<real>, lo: real, hi: real)
    requires Between(prices, lo, hi) && forall i :: 0 <= i < |volumes| ==> volumes[i] >= 0.0
    ensures VwapOf(prices, volumes).Some? ==> lo <= VwapOf(prices, volumes).value <= hi
  {
    if VwapOf(prices, volumes).Some? {
      TurnoversBetween(prices, volumes, |prices|, lo, hi);
      assert volumes[..|prices|] == volumes;
      var m := Turnovers(prices, volumes, |prices|) / Sums.Seq(volumes);
      assert m * Sums.Seq(volumes) == Turnovers(prices, volumes, |prices|);
      Cancel(lo, m, Sums.Seq(volumes));
      Cancel(m, hi, Sums.Seq(volumes));
    }
  }

  /** One more trade adds its price times its volume to price times volume of those before;
      the weighted price of one trade is its price. */
  lemma VwapGrows(prices: seq<real>, volumes: seq<real>, p: real, v: real)
    requires |prices| == |volumes|
    ensures VwapOf([p], [v]) == if v == 0.0 then None else Some(p)
    ensures VwapOf(prices, volumes).Some? && Sums.Seq(volumes) + v != 0.0 ==>
      var next := VwapOf(prices + [p], volumes + [v]);
      && next.Some?
      && next.value * (Sums.Seq(volumes) + v) == VwapOf(prices, volumes).value * Sums.Seq(volumes) + p * v
    ensures Sums.Seq(volumes) + v == 0.0 ==> VwapOf(prices + [p], volumes + [v]).None?
  {
    hide Sums.Seq, Turnovers, VwapOf;
    SumOne(v);
    TurnoversOne(p, v);
    VwapWeighs([p], [v]);
    Sums.SeqConcat(volumes, [v]);
    TurnoversNext(prices, volumes, p, v);
    VwapWeighs(prices, volumes);
    VwapWeighs(prices + [p], volumes + [v]);
    if v != 0.0 {
      SameFactor(VwapOf([p], [v]).value, p, v);
    }
  }

  lemma SameFactor(x: real, y: real, d: real)
    requires d != 0.0 && x * d == y * d
    ensures x == y
  {
    Undone(x, d);
    Undone(y, d);
  }

  lemma VwapWeighs(prices: seq<real>, volumes: seq<real>)
    requires |prices| == |volumes|
    ensures VwapOf(prices, volumes).Some? <==> prices != [] && Sums.Seq(volumes) != 0.0
    ensures VwapOf(prices, volumes).Some? ==>
      VwapOf(prices, volumes).value * Sums.Seq(volumes) == Turnovers(prices, volumes, |prices|)
  {
    hide Sums.Seq, Turnovers;
    if Sums.Seq(volumes) != 0.0 {
      Restored(Turnovers(prices, volumes, |prices|), Sums.Seq(volumes));
    }
  }

  lemma Restored(x: real, d: real)
    requires d != 0.0
    ensures x / d * d == x
  {
  }

  lemma TurnoversOne(p: real, v: real)
    ensures Turnovers([p], [v], 1) == p * v
  {
    assert Turnovers([p], [v], 0) == 0.0;
  }

  lemma TurnoversNext(prices: seq<real>, volumes: seq<real>, p: real, v: real)
    requires |prices| == |volumes|
    ensures Turnovers(prices + [p], volumes + [v], |prices| + 1) == Turnovers(prices, volumes, |prices|) + p * v
  {
    TurnoversPrefix(prices, volumes, p, v, |prices|);
  }

  lemma {:induction false} TurnoversPrefix(prices: seq<real>, volumes: seq<real>, p: real, v: real, n: nat)
    requires n <= |prices| == |volumes|
    ensures Turnovers(prices + [p], volumes + [v], n) == Turnovers(prices, volumes, n)
  {
    hide Times;
    if n > 0 {
      TurnoversPrefix(prices, volumes, p, v, n - 1);
    }
  }
}
