/** Position sizing under every cap at once: fractional Kelly, correlation penalty, caps per
    symbol, per correlated group and in total. */
module Optimizer {
  import opened Texts
  import opened Options
  import opened Sequences
  import Sorting
  import Sums
  import opened Correlation

  datatype Candidate = Candidate(symbol: Text, winProb: real, payoffRatio: real)

  datatype Constraints = Constraints(
    maxWeightPerSymbol: real, maxCorrelationGroupExposure: real, kellyFraction: real,
    correlationThreshold: real, maxTotalUtilization: real)

  datatype Budget = Budget(total: real, available: real)

  type Weights = map<Text, real>

  function Min(a: real, b: real): real { if a < b then a else b }

  function KellyFraction(c: Candidate): real
    requires c.payoffRatio != 0.0
  {
    var f := c.winProb - (1.0 - c.winProb) / c.payoffRatio;
    if f < 0.0 then 0.0 else f
  }

  /** Kelly bets exactly on an edge, never more than the probability of winning, and more
      for a better payoff. */
  lemma KellyEdge(c: Candidate, better: real)
    requires c.payoffRatio > 0.0 && 0.0 <= c.winProb <= 1.0 && better >= c.payoffRatio
    ensures KellyFraction(c) > 0.0 <==> c.winProb * c.payoffRatio > 1.0 - c.winProb
    ensures 0.0 <= KellyFraction(c) <= c.winProb
    ensures KellyFraction(c) <= KellyFraction(c.(payoffRatio := better))
  {
    var q, b := 1.0 - c.winProb, c.payoffRatio;
    assert q / b * b == q;
    Scales(c.winProb - q / b, b);
    assert (c.winProb - q / b) * b == c.winProb * b - q / b * b;
    Positive(q, b);
    Positive(q, better);
    LessLoss(q, b, better);
  }

  lemma Scales(x: real, d: real)
    requires d > 0.0
    ensures x > 0.0 <==> x * d > 0.0
  {
    if x > 0.0 {
      assert x * d > 0.0;
    } else {
      assert x * d <= 0.0;
    }
  }

  lemma LessLoss(q: real, b: real, better: real)
    requires q >= 0.0 && 0.0 < b <= better
    ensures q / better <= q / b
  {
    var x, y := q / better, q / b;
    assert x * better == q && y * b == q;
    Positive(q, better);
    assert x * (better - b) >= 0.0;
    assert x * better == x * b + x * (better - b);
    Scales(x - y, b);
    assert (x - y) * b == x * b - y * b;
  }

  /** What a bet gains on average, in units of the stake; nothing counts without an edge. */
  function Edge(c: Candidate): real {
    var gain := c.winProb * c.payoffRatio - (1.0 - c.winProb);
    if gain > 0.0 then gain else 0.0
  }

  /** The weight of a candidate at a mean correlation r: weight times payoff times 1 + r is
      the fraction of the edge, as far as the cap per symbol lets it. */
  ghost predicate IsWeight(c: Candidate, k: Constraints, r: real, w: real) {
    && w <= k.maxWeightPerSymbol
    && (w < k.maxWeightPerSymbol ==> w * ((1.0 + r) * c.payoffRatio) == k.kellyFraction * Edge(c))
    && (w == k.maxWeightPerSymbol ==> w * ((1.0 + r) * c.payoffRatio) <= k.kellyFraction * Edge(c))
  }

  lemma KellyStake(c: Candidate)
    requires c.payoffRatio > 0.0
    ensures KellyFraction(c) * c.payoffRatio == Edge(c)
  {
    var q, b := 1.0 - c.winProb, c.payoffRatio;
    assert q / b * b == q;
    var f := c.winProb - q / b;
    assert f * b == c.winProb * b - q / b * b;
    Scales(f, b);
  }

  lemma SizedIsWeight(c: Candidate, k: Constraints, r: real)
    requires c.payoffRatio > 0.0 && r >= 0.0
    ensures IsWeight(c, k, r, Sized(c, k, r))
  {
    KellyStake(c);
    Unfold(KellyFraction(c), k.kellyFraction, r, c.payoffRatio);
    var x, d := KellyFraction(c) * k.kellyFraction / (1.0 + r), (1.0 + r) * c.payoffRatio;
    if Sized(c, k, r) == k.maxWeightPerSymbol {
      Larger(k.maxWeightPerSymbol, x, d);
    }
  }

  lemma Unfold(f: real, fraction: real, r: real, b: real)
    requires b > 0.0 && r >= 0.0
    ensures (1.0 + r) * b > 0.0
    ensures f * fraction / (1.0 + r) * ((1.0 + r) * b) == fraction * (f * b)
  {
    var x := f * fraction / (1.0 + r);
    assert x * (1.0 + r) == f * fraction;
    assert x * ((1.0 + r) * b) == x * (1.0 + r) * b;
  }

  lemma Larger(x: real, y: real, d: real)
    requires d > 0.0
    ensures x <= y ==> x * d <= y * d
    ensures x < y ==> x * d < y * d
  {
    if x <= y {
      assert (y - x) * d >= 0.0;
    }
    if x < y {
      assert (y - x) * d > 0.0;
    }
  }

  /** A candidate with an edge and a weight below the cap loses weight with every rise of
      its mean correlation. */
  lemma PenaltyShrinks(c: Candidate, k: Constraints, r: real, w: real, higher: real, v: real)
    requires c.payoffRatio > 0.0 && 0.0 <= r < higher && k.kellyFraction > 0.0 && Edge(c) > 0.0
    requires IsWeight(c, k, r, w) && IsWeight(c, k, higher, v) && w < k.maxWeightPerSymbol
    ensures 0.0 < v < w
  {
    hide Edge;
    var d, e, a := (1.0 + r) * c.payoffRatio, (1.0 + higher) * c.payoffRatio, k.kellyFraction * Edge(c);
    Larger(1.0 + r, 1.0 + higher, c.payoffRatio);
    assert d > 0.0 && a > 0.0;
    Quotients(w, v, k.maxWeightPerSymbol, d, e, a);
  }

  lemma Quotients(w: real, v: real, cap: real, d: real, e: real, a: real)
    requires 0.0 < d < e && a > 0.0 && w < cap && v <= cap
    requires w * d == a && (v < cap ==> v * e == a) && (v == cap ==> v * e <= a)
    ensures 0.0 < v < w
  {
    assert w > 0.0 by {
      if w <= 0.0 {
        Larger(w, 0.0, d);
      }
    }
    Larger(d, e, w);
    assert w * e > a;
    if v >= w {
      Larger(w, v, e);
      assert false;
    }
    if v <= 0.0 {
      Larger(v, 0.0, e);
    }
  }

  // ---- clusters ----

  /** The two move together, or against each other. */
  predicate Linked(m: Matrix, threshold: real, s: Text, t: Text) {
    Sums.Abs(Get(m, s, t)) >= threshold
  }

  /** Together or against each other, at least by the threshold. */
  lemma LinkedEitherWay(m: Matrix, threshold: real, s: Text, t: Text)
    ensures Linked(m, threshold, s, t) <==> Get(m, s, t) >= threshold || Get(m, s, t) <= -threshold
  {
    hide Get;
  }

  /** Every symbol is in exactly one cluster; a cluster is led by its first symbol, to
      which all others in it are linked, and no later cluster holds anything linked to an
      earlier leader. */
  ghost predicate IsClustering(m: Matrix, threshold: real, symbols: seq<Text>, groups: seq<seq<Text>>) {
    && Partition(symbols, groups)
    && (forall g, k :: 0 <= g < |groups| && 0 < k < |groups[g]| ==> Linked(m, threshold, groups[g][0], groups[g][k]))
    && (forall g, h, k :: 0 <= g < h < |groups| && 0 <= k < |groups[h]| ==> !Linked(m, threshold, groups[g][0], groups[h][k]))
  }

  ghost predicate Partition(symbols: seq<Text>, groups: seq<seq<Text>>) {
    && Separate(groups)
    && (forall s :: s in symbols <==> Grouped(groups, s))
  }

  /** No symbol occurs twice, and no group is empty. */
  ghost predicate Separate(groups: seq<seq<Text>>) {
    && (forall g :: 0 <= g < |groups| ==> groups[g] != [])
    && (forall g, i, j :: 0 <= g < |groups| && 0 <= i < j < |groups[g]| ==> groups[g][i] != groups[g][j])
    && (forall g, h, s :: 0 <= g < h < |groups| && s in groups[g] ==> s !in groups[h])
  }

  predicate Grouped(groups: seq<seq<Text>>, s: Text) {
    exists g :: 0 <= g < |groups| && s in groups[g]
  }

  /** The cluster of a leader: every symbol not yet taken that is linked to it. */
  method GatherGroup(m: Matrix, threshold: real, symbols: seq<Text>, s: Text, taken: set<Text>)
    returns (group: seq<Text>, placed: set<Text>)
    requires s in symbols && s !in taken
    ensures group != [] && group[0] == s
    ensures forall i, j :: 0 <= i < j < |group| ==> group[i] != group[j]
    ensures forall k :: 0 < k < |group| ==> Linked(m, threshold, s, group[k])
    ensures forall t :: t in group ==> t in symbols && t !in taken
    ensures forall t :: t in placed <==> t in taken || t in group
    ensures forall t :: t in symbols && t !in placed ==> !Linked(m, threshold, s, t)
  {
    hide Linked;
    group := [s];
    placed := taken + {s};
    for j := 0 to |symbols|
      invariant group != [] && group[0] == s
      invariant forall i, j :: 0 <= i < j < |group| ==> group[i] != group[j]
      invariant forall k :: 0 < k < |group| ==> Linked(m, threshold, s, group[k])
      invariant forall t :: t in group ==> t in symbols && t !in taken
      invariant forall t :: t in placed <==> t in taken || t in group
      invariant forall i :: 0 <= i < j && symbols[i] !in placed ==> !Linked(m, threshold, s, symbols[i])
    {
      var t := symbols[j];
      if t !in placed && Linked(m, threshold, s, t) {
        group := group + [t];
        placed := placed + {t};
      }
    }
  }

  method ClusterByCorrelation(symbols: seq<Text>, m: Matrix, threshold: real) returns (groups: seq<seq<Text>>)
    ensures IsClustering(m, threshold, symbols, groups)
  {
    hide Linked;
    groups := [];
    var placed: set<Text> := {};
    for i := 0 to |symbols|
      invariant Separate(groups)
      invariant forall s :: s in placed <==> Grouped(groups, s)
      invariant forall s :: s in placed ==> s in symbols
      invariant forall j :: 0 <= j < i ==> symbols[j] in placed
      invariant forall g, k :: 0 <= g < |groups| && 0 < k < |groups[g]| ==> Linked(m, threshold, groups[g][0], groups[g][k])
      invariant forall g, h, k :: 0 <= g < h < |groups| && 0 <= k < |groups[h]| ==> !Linked(m, threshold, groups[g][0], groups[h][k])
      invariant forall g, t :: 0 <= g < |groups| && t in symbols && t !in placed ==> !Linked(m, threshold, groups[g][0], t)
    {
      var s := symbols[i];
      if s !in placed {
        var group, next := GatherGroup(m, threshold, symbols, s, placed);
        AddGroup(groups, group);
        groups := groups + [group];
        placed := next;
      }
    }
  }

  lemma AddGroup(groups: seq<seq<Text>>, group: seq<Text>)
    requires Separate(groups) && group != []
    requires forall i, j :: 0 <= i < j < |group| ==> group[i] != group[j]
    requires forall s :: s in group ==> !Grouped(groups, s)
    ensures Separate(groups + [group])
    ensures forall s :: Grouped(groups + [group], s) <==> Grouped(groups, s) || s in group
  {
    var next := groups + [group];
    forall s ensures Grouped(next, s) <==> Grouped(groups, s) || s in group {
      if Grouped(groups, s) {
        var g :| 0 <= g < |groups| && s in groups[g];
        assert s in next[g];
      }
      if s in group {
        assert s in next[|groups|];
      }
    }
  }

  // ---- weights ----

  function W(w: Weights, s: Text): real {
    if s in w then w[s] else 0.0
  }

  function SumOf(w: Weights, g: seq<Text>): real {
    if g == [] then 0.0 else SumOf(w, g[..|g| - 1]) + W(w, g[|g| - 1])
  }

  function WeightOf(w: Weights): Text -> real {
    s => W(w, s)
  }

  ghost function Total(w: Weights): real {
    Sums.Over(w.Keys, WeightOf(w))
  }

  /** The weight before the caps on groups and on the total. */
  function Sized(c: Candidate, k: Constraints, avgCorr: real): real
    requires c.payoffRatio != 0.0 && avgCorr >= 0.0
  {
    Min(KellyFraction(c) * k.kellyFraction / (1.0 + avgCorr), k.maxWeightPerSymbol)
  }

  /** What a sum over its cap is scaled by. */
  function ScaleTo(sum: real, cap: real): real {
    if sum > cap && sum > 0.0 then cap / sum else 1.0
  }

  /** A share of a weight. */
  function Part(x: real, scale: real): real {
    x * scale
  }

  function Scaled(w: Weights, g: seq<Text>, scale: real): Weights {
    map s | s in w :: if s in g then Part(w[s], scale) else w[s]
  }

  function ScaledAll(w: Weights, scale: real): Weights {
    map s | s in w :: Part(w[s], scale)
  }

  function CapGroup(w: Weights, g: seq<Text>, cap: real): Weights {
    Scaled(w, g, ScaleTo(SumOf(w, g), cap))
  }

  function CapGroups(w: Weights, groups: seq<seq<Text>>, cap: real): Weights {
    if groups == [] then w
    else CapGroup(CapGroups(w, groups[..|groups| - 1], cap), groups[|groups| - 1], cap)
  }

  function UtilizationCap(k: Constraints, b: Budget): real {
    Min(k.maxTotalUtilization, if b.total > 0.0 then b.available / b.total else 0.0)
  }

  ghost function CapTotal(w: Weights, cap: real): Weights {
    ScaledAll(w, ScaleTo(Total(w), cap))
  }

  /** No weight is negative or above the cap per symbol. */
  predicate Within(w: Weights, cap: real) {
    forall s :: s in w ==> 0.0 <= w[s] <= cap
  }

  lemma ScaleBounded(sum: real, cap: real)
    requires cap >= 0.0
    ensures 0.0 <= ScaleTo(sum, cap) <= 1.0
    ensures sum >= 0.0 ==> Part(sum, ScaleTo(sum, cap)) == Min(sum, cap)
  {
    if sum > cap && sum > 0.0 {
      Divided(cap, sum);
      Positive(cap, sum);
    }
  }

  lemma Shrinks(x: real, scale: real)
    requires x >= 0.0 && 0.0 <= scale <= 1.0
    ensures 0.0 <= Part(x, scale) <= x
  {
    assert x * (1.0 - scale) >= 0.0;
  }

  lemma ScaledWithin(w: Weights, g: seq<Text>, scale: real, cap: real)
    requires Within(w, cap) && 0.0 <= scale <= 1.0
    ensures Within(Scaled(w, g, scale), cap)
  {
    hide Part;
    forall s | s in w ensures 0.0 <= Scaled(w, g, scale)[s] <= w[s] {
      Shrinks(w[s], scale);
    }
  }

  lemma {:induction false} SumScaled(w: Weights, g: seq<Text>, h: seq<Text>, scale: real)
    requires forall s :: s in h ==> s in g
    ensures SumOf(Scaled(w, g, scale), h) == Part(SumOf(w, h), scale)
  {
    hide Scaled, W, Part;
    if h == [] {
      Nothing(scale);
    } else {
      var front, s := h[..|h| - 1], h[|h| - 1];
      assert forall x :: x in front ==> x in h;
      assert s in h;
      SumScaled(w, g, front, scale);
      Distributes(scale, SumOf(w, front), W(w, s));
      Swapped(w, g, s, scale);
    }
  }

  lemma Nothing(scale: real)
    ensures Part(0.0, scale) == 0.0
  {
  }

  lemma Swapped(w: Weights, g: seq<Text>, s: Text, scale: real)
    requires s in g
    ensures W(Scaled(w, g, scale), s) == Part(W(w, s), scale)
  {
  }

  lemma Distributes(scale: real, x: real, y: real)
    ensures Part(x + y, scale) == Part(x, scale) + Part(y, scale)
  {
  }

  lemma {:induction false} SumKept(w: Weights, g: seq<Text>, h: seq<Text>, scale: real)
    requires forall s :: s in h ==> s !in g
    ensures SumOf(Scaled(w, g, scale), h) == SumOf(w, h)
  {
    if h != [] {
      hide Part;
      assert forall x :: x in h[..|h| - 1] ==> x in h;
      SumKept(w, g, h[..|h| - 1], scale);
      assert h[|h| - 1] in h;
    }
  }

  lemma {:induction false} SumNonNegative(w: Weights, g: seq<Text>, cap: real)
    requires Within(w, cap)
    ensures SumOf(w, g) >= 0.0
  {
    if g != [] {
      SumNonNegative(w, g[..|g| - 1], cap);
    }
  }

  /** Capping one group: its sum becomes the smaller of sum and cap, other groups keep
      theirs, and no weight grows or turns negative. */
  lemma GroupCapped(w: Weights, g: seq<Text>, cap: real, symbolCap: real)
    requires cap >= 0.0 && Within(w, symbolCap)
    ensures Within(CapGroup(w, g, cap), symbolCap) && CapGroup(w, g, cap).Keys == w.Keys
    ensures SumOf(CapGroup(w, g, cap), g) == Min(SumOf(w, g), cap)
    ensures forall h: seq<Text> :: (forall s :: s in h ==> s !in g) ==> SumOf(CapGroup(w, g, cap), h) == SumOf(w, h)
  {
    hide SumOf, ScaleTo, Scaled, Within, Part;
    var scale := ScaleTo(SumOf(w, g), cap);
    SumNonNegative(w, g, symbolCap);
    ScaleBounded(SumOf(w, g), cap);
    ScaledWithin(w, g, scale, symbolCap);
    SumScaled(w, g, g, scale);
    ScaledKeys(w, g, scale);
    forall h: seq<Text> | forall s :: s in h ==> s !in g ensures SumOf(CapGroup(w, g, cap), h) == SumOf(w, h) {
      SumKept(w, g, h, scale);
    }
  }

  lemma ScaledKeys(w: Weights, g: seq<Text>, scale: real)
    ensures Scaled(w, g, scale).Keys == w.Keys
  {
  }

  lemma {:induction false} GroupsCapped(w: Weights, groups: seq<seq<Text>>, cap: real, symbolCap: real)
    requires cap >= 0.0 && Within(w, symbolCap) && Separate(groups)
    ensures var v := CapGroups(w, groups, cap);
      && Within(v, symbolCap) && v.Keys == w.Keys
      && (forall g :: 0 <= g < |groups| ==> SumOf(v, groups[g]) == Min(SumOf(w, groups[g]), cap))
      && (forall h: seq<Text> :: (forall s :: s in h ==> !Grouped(groups, s)) ==> SumOf(v, h) == SumOf(w, h))
  {
    hide SumOf, CapGroup, Within;
    if groups != [] {
      var front, last := groups[..|groups| - 1], groups[|groups| - 1];
      FrontSeparate(groups);
      GroupsCapped(w, front, cap, symbolCap);
      var u := CapGroups(w, front, cap);
      GroupCapped(u, last, cap, symbolCap);
      forall g | 0 <= g < |groups| ensures SumOf(CapGroups(w, groups, cap), groups[g]) == Min(SumOf(w, groups[g]), cap) {
        if g < |front| {
          assert groups[g] == front[g];
          Apart(groups, g);
        }
      }
      forall h: seq<Text> | forall s :: s in h ==> !Grouped(groups, s)
        ensures SumOf(CapGroups(w, groups, cap), h) == SumOf(w, h)
      {
        NotInFront(groups, h);
      }
    }
  }

  lemma FrontSeparate(groups: seq<seq<Text>>)
    requires groups != [] && Separate(groups)
    ensures Separate(groups[..|groups| - 1])
    ensures var front_, last := groups[..|groups| - 1], groups[|groups| - 1];
      forall s :: s in last ==> !Grouped(front_, s)
  {
    var front := groups[..|groups| - 1];
    assert forall g :: 0 <= g < |front| ==> front[g] == groups[g];
  }

  lemma Apart(groups: seq<seq<Text>>, g: nat)
    requires Separate(groups) && g < |groups| - 1
    ensures forall s :: s in groups[g] ==> s !in groups[|groups| - 1]
  {
  }

  lemma NotInFront(groups: seq<seq<Text>>, h: seq<Text>)
    requires groups != [] && forall s :: s in h ==> !Grouped(groups, s)
    ensures forall s :: s in h ==> !Grouped(groups[..|groups| - 1], s) && s !in groups[|groups| - 1]
  {
    forall s | s in h ensures !Grouped(groups[..|groups| - 1], s) && s !in groups[|groups| - 1] {
      InWhole(groups, s);
      assert s in groups[|groups| - 1] ==> Grouped(groups, s);
    }
  }

  lemma InWhole(groups: seq<seq<Text>>, s: Text)
    requires groups != []
    ensures Grouped(groups[..|groups| - 1], s) ==> Grouped(groups, s)
  {
    if Grouped(groups[..|groups| - 1], s) {
      var g :| 0 <= g < |groups[..|groups| - 1]| && s in groups[..|groups| - 1][g];
      assert s in groups[g];
    }
  }

  lemma {:induction false} SumByScale(w: Weights, h: seq<Text>, scale: real)
    ensures SumOf(ScaledAll(w, scale), h) == Part(SumOf(w, h), scale)
  {
    hide ScaledAll, W, Part;
    if h == [] {
      Nothing(scale);
    } else {
      SumByScale(w, h[..|h| - 1], scale);
      Distributes(scale, SumOf(w, h[..|h| - 1]), W(w, h[|h| - 1]));
      SwappedAll(w, h[|h| - 1], scale);
    }
  }

  lemma SwappedAll(w: Weights, s: Text, scale: real)
    ensures W(ScaledAll(w, scale), s) == Part(W(w, s), scale)
  {
  }

  lemma TotalNonNegative(w: Weights, cap: real)
    requires Within(w, cap)
    ensures Total(w) >= 0.0
  {
    Sums.NonNegative(w.Keys, WeightOf(w));
  }

  /** Capping the total: it becomes the smaller of total and cap, and every group shrinks
      with it. */
  lemma TotalCapped(w: Weights, cap: real, symbolCap: real)
    requires cap >= 0.0 && Within(w, symbolCap)
    ensures var v := CapTotal(w, cap);
      && Within(v, symbolCap) && v.Keys == w.Keys
      && Total(v) == Min(Total(w), cap)
      && (forall h: seq<Text> :: 0.0 <= SumOf(v, h) <= SumOf(w, h))
  {
    hide SumOf, ScaleTo, Sums.Over, Part, W, Within, ScaledAll;
    var scale, v := ScaleTo(Total(w), cap), CapTotal(w, cap);
    TotalNonNegative(w, symbolCap);
    ScaleBounded(Total(w), cap);
    AllWithin(w, scale, symbolCap);
    TotalScales(w, scale);
    forall h: seq<Text> ensures 0.0 <= SumOf(v, h) <= SumOf(w, h) {
      SumByScale(w, h, scale);
      SumNonNegative(w, h, symbolCap);
      Shrinks(SumOf(w, h), scale);
    }
  }

  lemma AllWithin(w: Weights, scale: real, cap: real)
    requires Within(w, cap) && 0.0 <= scale <= 1.0
    ensures Within(ScaledAll(w, scale), cap) && ScaledAll(w, scale).Keys == w.Keys
  {
    hide Part;
    forall s | s in w ensures 0.0 <= ScaledAll(w, scale)[s] <= w[s] {
      Shrinks(w[s], scale);
    }
  }

  lemma TotalScales(w: Weights, scale: real)
    ensures Total(ScaledAll(w, scale)) == Part(Total(w), scale)
  {
    hide Sums.Over, W;
    var v := ScaledAll(w, scale);
    forall s ensures WeightOf(v)(s) == scale * WeightOf(w)(s) {
      SwappedAll(w, s, scale);
    }
    assert v.Keys == w.Keys;
    Sums.Scale(w.Keys, WeightOf(w), WeightOf(v), scale);
  }

  // ---- the optimization ----

  /** The first candidate of a symbol. */
  function Find(cs: seq<Candidate>, symbol: Text): (r: Option<Candidate>)
    ensures r.Some? <==> exists c :: c in cs && c.symbol == symbol
    ensures r.Some? ==> r.value in cs && r.value.symbol == symbol
  {
    if cs == [] then None
    else if cs[0].symbol == symbol then Some(cs[0])
    else Find(cs[1..], symbol)
  }

  function SymbolsOf(cs: seq<Candidate>): seq<Text> {
    Sorting.Sort(Map(cs, (c: Candidate) => c.symbol), Le)
  }

  /** The symbols in ascending order, one for each candidate. */
  lemma SymbolsListed(cs: seq<Candidate>)
    ensures Sorting.Sorted(SymbolsOf(cs), Le)
    ensures multiset(SymbolsOf(cs)) == multiset(seq(|cs|, i requires 0 <= i < |cs| => cs[i].symbol))
  {
    var all := Map(cs, (c: Candidate) => c.symbol);
    Sorting.TextOrder(all);
    Sorting.SortCorrect(all, Le);
    assert all == seq(|cs|, i requires 0 <= i < |cs| => cs[i].symbol);
  }

  lemma SymbolsAre(cs: seq<Candidate>)
    ensures forall s :: s in SymbolsOf(cs) <==> exists c :: c in cs && c.symbol == s
  {
    var all := Map(cs, (c: Candidate) => c.symbol);
    Sorting.TextOrder(all);
    Sorting.SortMembers(all, Le);
    forall s ensures s in SymbolsOf(cs) <==> exists c :: c in cs && c.symbol == s {
      if s in SymbolsOf(cs) {
        var i :| 0 <= i < |all| && all[i] == s;
        assert cs[i] in cs;
      }
      if exists c :: c in cs && c.symbol == s {
        var c :| c in cs && c.symbol == s;
        var i :| 0 <= i < |cs| && cs[i] == c;
        assert all[i] == s;
      }
    }
  }

  /** What the caps need to hold: no negative cap, multiplier or budget, and positive payoff
      ratios. The program checks none of it. */
  predicate Sane(cs: seq<Candidate>, k: Constraints, b: Budget) {
    && (forall c :: c in cs ==> c.payoffRatio > 0.0)
    && k.maxWeightPerSymbol >= 0.0 && k.maxCorrelationGroupExposure >= 0.0
    && k.kellyFraction >= 0.0 && k.maxTotalUtilization >= 0.0 && b.available >= 0.0
  }

  /** The weights before any cap but the one per symbol. */
  ghost predicate AreSized(cs: seq<Candidate>, m: Matrix, k: Constraints, w: Weights) {
    && (forall s :: s in w <==> s in SymbolsOf(cs))
    && (forall s :: s in w ==>
          var c := Find(cs, s);
          && c.Some? && c.value.payoffRatio != 0.0
          && w[s] == Sized(c.value, k, AvgAbsCorr(m, s, SymbolsOf(cs))))
  }

  lemma SizedWithin(c: Candidate, k: Constraints, avgCorr: real)
    requires c.payoffRatio > 0.0 && avgCorr >= 0.0 && k.kellyFraction >= 0.0 && k.maxWeightPerSymbol >= 0.0
    ensures 0.0 <= Sized(c, k, avgCorr) <= k.maxWeightPerSymbol
  {
    var f := KellyFraction(c);
    assert f * k.kellyFraction >= 0.0;
    Positive(f * k.kellyFraction, 1.0 + avgCorr);
  }

  lemma Positive(x: real, d: real)
    requires x >= 0.0 && d > 0.0
    ensures x / d >= 0.0
  {
  }

  method SizeAll(cs: seq<Candidate>, m: Matrix, k: Constraints) returns (w: Weights)
    requires forall c :: c in cs ==> c.payoffRatio > 0.0
    ensures AreSized(cs, m, k, w)
  {
    hide Sized, AvgAbsCorr;
    var symbols := SymbolsOf(cs);
    SymbolsAre(cs);
    w := map[];
    for i := 0 to |symbols|
      invariant forall s :: s in w <==> s in symbols[..i]
      invariant forall s :: s in w ==>
        Find(cs, s).Some? && Find(cs, s).value.payoffRatio != 0.0 && w[s] == Sized(Find(cs, s).value, k, AvgAbsCorr(m, s, symbols))
    {
      var s := symbols[i];
      assert s in symbols;
      var c := Find(cs, s).value;
      w := w[s := Sized(c, k, AvgAbsCorr(m, s, symbols))];
    }
    assert symbols[..|symbols|] == symbols;
  }

  method CapEachGroup(start: Weights, groups: seq<seq<Text>>, cap: real) returns (w: Weights)
    ensures w == CapGroups(start, groups, cap)
  {
    w := start;
    for i := 0 to |groups|
      invariant w == CapGroups(start, groups[..i], cap)
    {
      assert groups[..i + 1][..i] == groups[..i];
      w := CapOneGroup(w, groups[i], cap);
    }
    assert groups[..|groups|] == groups;
  }

  method CapOneGroup(start: Weights, g: seq<Text>, cap: real) returns (w: Weights)
    ensures w == CapGroup(start, g, cap)
  {
    var sum := 0.0;
    for j := 0 to |g|
      invariant sum == SumOf(start, g[..j])
    {
      assert g[..j + 1][..j] == g[..j];
      sum := sum + W(start, g[j]);
    }
    assert g[..|g|] == g;
    w := start;
    if sum > cap && sum > 0.0 {
      w := Scaled(start, g, cap / sum);
    } else {
      ScaledByOne(start, g);
    }
  }

  lemma ScaledByOne(w: Weights, g: seq<Text>)
    ensures Scaled(w, g, 1.0) == w
  {
  }

  method AddWeights(w: Weights) returns (total: real)
    ensures total == Total(w)
  {
    hide Sums.Over;
    var left := w.Keys;
    total := 0.0;
    Sums.OverNothing(WeightOf(w));
    assert w.Keys - left == {};
    while left != {}
      invariant left <= w.Keys
      invariant total == Sums.Over(w.Keys - left, WeightOf(w))
      decreases |left|
    {
      var s :| s in left;
      Sums.Add(w.Keys - left, WeightOf(w), s);
      assert w.Keys - (left - {s}) == (w.Keys - left) + {s};
      left := left - {s};
      total := total + w[s];
    }
    assert w.Keys - left == w.Keys;
  }

  /** All caps at once: every weight within the cap per symbol, the clusters partition the
      symbols and each stays within the group cap, and the total within utilization and
      budget. No cap takes more than it must: a group or total below its cap is left. */
  ghost predicate Capped(cs: seq<Candidate>, m: Matrix, k: Constraints, b: Budget, w: Weights, groups: seq<seq<Text>>) {
    && w.Keys == (set c | c in cs :: c.symbol)
    && Within(w, k.maxWeightPerSymbol)
    && IsClustering(m, k.correlationThreshold, SymbolsOf(cs), groups)
    && (forall g :: 0 <= g < |groups| ==> SumOf(w, groups[g]) <= k.maxCorrelationGroupExposure)
    && Total(w) <= UtilizationCap(k, b)
  }

  /** The first candidate of a symbol. */
  predicate IsFirst(cs: seq<Candidate>, s: Text, c: Candidate) {
    exists i :: 0 <= i < |cs| && cs[i] == c && c.symbol == s && forall j :: 0 <= j < i ==> cs[j].symbol != s
  }

  /** A weight of its first candidate at its mean correlation with the other symbols. */
  ghost predicate Weighed(cs: seq<Candidate>, m: Matrix, k: Constraints, s: Text, w: real) {
    exists c, r: real :: IsFirst(cs, s, c) && IsMeanCorrelation(m, s, SymbolsOf(cs), r) && IsWeight(c, k, r, w)
  }

  /** Sums over the cap come down to it and others stay; every share of the sum stays. */
  ghost predicate Rescaled(before: Weights, after: Weights, among: set<Text>, cap: real) {
    var sum, next := Sums.Over(among, WeightOf(before)), Sums.Over(among, WeightOf(after));
    && next == (if sum > cap then cap else sum)
    && (sum <= cap ==> forall s :: s in among ==> W(after, s) == W(before, s))
    && (forall s :: s in among ==> W(after, s) * sum == W(before, s) * next)
  }

  /** The largest utilization that neither its limit nor what is available forbids. */
  ghost predicate IsUtilizationCap(k: Constraints, b: Budget, cap: real) {
    && cap <= k.maxTotalUtilization
    && (b.total > 0.0 ==> cap * b.total <= b.available)
    && (b.total <= 0.0 ==> cap <= 0.0)
    && (cap == k.maxTotalUtilization || (if b.total > 0.0 then cap * b.total == b.available else cap == 0.0))
  }

  function Members(g: seq<Text>): set<Text> { set s | s in g }

  /** Weights that were sized, rescaled in every group and then in total. */
  ghost predicate InSteps(cs: seq<Candidate>, m: Matrix, k: Constraints, w: Weights, groups: seq<seq<Text>>, cap: real,
                          sized: Weights, grouped: Weights) {
    && (forall s :: s in SymbolsOf(cs) ==> Weighed(cs, m, k, s, W(sized, s)))
    && (forall g :: 0 <= g < |groups| ==> Rescaled(sized, grouped, Members(groups[g]), k.maxCorrelationGroupExposure))
    && Rescaled(grouped, w, Members(SymbolsOf(cs)), cap)
  }

  /** Some sized weights come down to these, in the groups and in total. */
  ghost predicate ComesInSteps(cs: seq<Candidate>, m: Matrix, k: Constraints, b: Budget, w: Weights, groups: seq<seq<Text>>) {
    exists sized: Weights, grouped, cap :: IsUtilizationCap(k, b, cap) && InSteps(cs, m, k, w, groups, cap, sized, grouped)
  }

  /** Where neither the group's sum nor the total is at its cap, a weight is as sized. */
  ghost predicate FreeWeighed(cs: seq<Candidate>, m: Matrix, k: Constraints, b: Budget, w: Weights, groups: seq<seq<Text>>) {
    forall g, s :: 0 <= g < |groups| && s in groups[g]
      && Sums.Over(Members(groups[g]), WeightOf(w)) < k.maxCorrelationGroupExposure && Total(w) < UtilizationCap(k, b)
      ==> Weighed(cs, m, k, s, W(w, s))
  }

  /** All caps hold, the weights come in these steps, and a weight that no cap on a sum
      touched is the candidate's own. */
  ghost predicate Optimized(cs: seq<Candidate>, m: Matrix, k: Constraints, b: Budget, w: Weights, groups: seq<seq<Text>>) {
    Capped(cs, m, k, b, w, groups) && ComesInSteps(cs, m, k, b, w, groups) && FreeWeighed(cs, m, k, b, w, groups)
  }

  lemma UtilizationIsCap(k: Constraints, b: Budget)
    ensures IsUtilizationCap(k, b, UtilizationCap(k, b))
  {
    if b.total > 0.0 {
      var q := b.available / b.total;
      assert q * b.total == b.available;
      Larger(UtilizationCap(k, b), q, b.total);
    }
  }

  lemma {:induction false} FindIsFirst(cs: seq<Candidate>, s: Text)
    ensures Find(cs, s).Some? ==> IsFirst(cs, s, Find(cs, s).value)
  {
    if cs != [] && cs[0].symbol != s && Find(cs[1..], s).Some? {
      FindIsFirst(cs[1..], s);
      var c := Find(cs, s).value;
      var i :| 0 <= i < |cs[1..]| && cs[1..][i] == c && c.symbol == s && forall j :: 0 <= j < i ==> cs[1..][j].symbol != s;
      assert cs[i + 1] == c;
      assert forall j :: 0 < j < i + 1 ==> cs[j] == cs[1..][j - 1];
    }
  }

  lemma SizedWeighed(cs: seq<Candidate>, m: Matrix, k: Constraints, w: Weights, s: Text)
    requires AreSized(cs, m, k, w) && s in SymbolsOf(cs) && forall c :: c in cs ==> c.payoffRatio > 0.0
    ensures Weighed(cs, m, k, s, W(w, s))
  {
    hide Sized, AvgAbsCorr, SymbolsOf, IsFirst, IsWeight, IsMeanCorrelation;
    var c, r := Find(cs, s).value, AvgAbsCorr(m, s, SymbolsOf(cs));
    FindIsFirst(cs, s);
    AvgIsMean(m, s, SymbolsOf(cs));
    SizedIsWeight(c, k, r);
  }

  /** The sum over a list without repeats is the sum over its members. */
  lemma {:induction false} SumIsOver(w: Weights, g: seq<Text>)
    requires forall i, j :: 0 <= i < j < |g| ==> g[i] != g[j]
    ensures SumOf(w, g) == Sums.Over(Members(g), WeightOf(w))
  {
    hide Sums.Over;
    if g == [] {
      Sums.OverNothing(WeightOf(w));
      assert Members(g) == {};
    } else {
      var front, s := g[..|g| - 1], g[|g| - 1];
      SumIsOver(w, front);
      assert g == front + [s];
      assert Members(g) == Members(front) + {s};
      Sums.Add(Members(front), WeightOf(w), s);
    }
  }

  /** One factor on all weights of a sum that comes down to a cap. */
  lemma ScaledIsRescaled(before: Weights, after: Weights, among: set<Text>, cap: real)
    requires cap >= 0.0
    requires var sum := Sums.Over(among, WeightOf(before));
      && sum >= 0.0
      && Sums.Over(among, WeightOf(after)) == Min(sum, cap)
      && (forall s :: s in among ==> W(after, s) == Part(W(before, s), ScaleTo(sum, cap)))
    ensures Rescaled(before, after, among, cap)
  {
    hide Sums.Over, W, Part;
    var sum := Sums.Over(among, WeightOf(before));
    forall s | s in among
      ensures W(after, s) * sum == W(before, s) * Min(sum, cap)
      ensures sum <= cap ==> W(after, s) == W(before, s)
    {
      Shared(W(before, s), sum, cap);
    }
  }

  lemma Shared(x: real, sum: real, cap: real)
    requires sum >= 0.0 && cap >= 0.0
    ensures Part(x, ScaleTo(sum, cap)) * sum == x * Min(sum, cap)
    ensures sum <= cap ==> Part(x, ScaleTo(sum, cap)) == x
  {
    ScaleBounded(sum, cap);
    var scale := ScaleTo(sum, cap);
    assert x * scale * sum == x * (sum * scale);
  }

  lemma {:induction false} UngroupedKept(w: Weights, groups: seq<seq<Text>>, cap: real, s: Text)
    requires forall g :: 0 <= g < |groups| ==> s !in groups[g]
    ensures W(CapGroups(w, groups, cap), s) == W(w, s)
  {
    hide SumOf, ScaleTo, Part;
    if groups != [] {
      UngroupedKept(w, groups[..|groups| - 1], cap, s);
    }
  }

  lemma {:induction false} GroupScaled(w: Weights, groups: seq<seq<Text>>, cap: real, symbolCap: real, g: nat, s: Text)
    requires cap >= 0.0 && Within(w, symbolCap) && Separate(groups) && g < |groups| && s in groups[g]
    ensures W(CapGroups(w, groups, cap), s) == Part(W(w, s), ScaleTo(SumOf(w, groups[g]), cap))
  {
    hide SumOf, ScaleTo, Part, Within;
    var front, last := groups[..|groups| - 1], groups[|groups| - 1];
    var u := CapGroups(w, front, cap);
    FrontSeparate(groups);
    if g < |front| {
      GroupScaled(w, front, cap, symbolCap, g, s);
      Apart(groups, g);
      assert s !in last;
      CapOutside(u, last, cap, s);
    } else {
      forall i | 0 <= i < |front| ensures s !in front[i] {
        Apart(groups, i);
      }
      UngroupedKept(w, front, cap, s);
      GroupsCapped(w, front, cap, symbolCap);
      assert SumOf(u, last) == SumOf(w, last);
      CapInside(u, last, cap, s);
    }
  }

  lemma CapOutside(w: Weights, g: seq<Text>, cap: real, s: Text)
    requires s !in g
    ensures W(CapGroup(w, g, cap), s) == W(w, s)
  {
  }

  lemma CapInside(w: Weights, g: seq<Text>, cap: real, s: Text)
    requires s in g
    ensures W(CapGroup(w, g, cap), s) == Part(W(w, s), ScaleTo(SumOf(w, g), cap))
  {
    Swapped(w, g, s, ScaleTo(SumOf(w, g), cap));
  }

  lemma GroupRescaled(w: Weights, groups: seq<seq<Text>>, cap: real, symbolCap: real, g: nat)
    requires cap >= 0.0 && Within(w, symbolCap) && Separate(groups) && g < |groups|
    ensures Rescaled(w, CapGroups(w, groups, cap), Members(groups[g]), cap)
  {
    hide SumOf, ScaleTo, Part, Within, CapGroups, Sums.Over;
    var v := CapGroups(w, groups, cap);
    GroupsCapped(w, groups, cap, symbolCap);
    SumIsOver(w, groups[g]);
    SumIsOver(v, groups[g]);
    SumNonNegative(w, groups[g], symbolCap);
    forall s | s in Members(groups[g]) ensures W(v, s) == Part(W(w, s), ScaleTo(SumOf(w, groups[g]), cap)) {
      GroupScaled(w, groups, cap, symbolCap, g, s);
    }
    ScaledIsRescaled(w, v, Members(groups[g]), cap);
  }

  lemma TotalRescaled(w: Weights, cap: real, symbolCap: real)
    requires cap >= 0.0 && Within(w, symbolCap)
    ensures Rescaled(w, CapTotal(w, cap), w.Keys, cap)
  {
    hide SumOf, ScaleTo, Part, Within, Sums.Over, ScaledAll;
    TotalCapped(w, cap, symbolCap);
    TotalNonNegative(w, symbolCap);
    forall s | s in w.Keys ensures W(CapTotal(w, cap), s) == Part(W(w, s), ScaleTo(Total(w), cap)) {
      SwappedAll(w, s, ScaleTo(Total(w), cap));
    }
    ScaledIsRescaled(w, CapTotal(w, cap), w.Keys, cap);
  }

  lemma OptimizedInSteps(cs: seq<Candidate>, m: Matrix, k: Constraints, b: Budget, sized: Weights, groups: seq<seq<Text>>)
    requires Sane(cs, k, b) && AreSized(cs, m, k, sized)
    requires IsClustering(m, k.correlationThreshold, SymbolsOf(cs), groups)
    ensures var grouped := CapGroups(sized, groups, k.maxCorrelationGroupExposure);
      var w := CapTotal(grouped, UtilizationCap(k, b));
      && InSteps(cs, m, k, w, groups, UtilizationCap(k, b), sized, grouped)
      && FreeWeighed(cs, m, k, b, w, groups)
  {
    hide SymbolsOf, CapGroups, CapTotal, Sums.Over, SumOf, Linked, Weighed, Rescaled, W, Within;
    SizedAllWithin(cs, m, k, sized);
    UtilizationNonNegative(k, b);
    var cap := k.maxCorrelationGroupExposure;
    var grouped := CapGroups(sized, groups, cap);
    var w := CapTotal(grouped, UtilizationCap(k, b));
    GroupsCapped(sized, groups, cap, k.maxWeightPerSymbol);
    TotalRescaled(grouped, UtilizationCap(k, b), k.maxWeightPerSymbol);
    TotalCapped(grouped, UtilizationCap(k, b), k.maxWeightPerSymbol);
    assert grouped.Keys == Members(SymbolsOf(cs));
    forall s | s in SymbolsOf(cs) ensures Weighed(cs, m, k, s, W(sized, s)) {
      SizedWeighed(cs, m, k, sized, s);
    }
    forall g | 0 <= g < |groups| ensures Rescaled(sized, grouped, Members(groups[g]), cap) {
      GroupRescaled(sized, groups, cap, k.maxWeightPerSymbol, g);
    }
    forall g, s | 0 <= g < |groups| && s in groups[g]
        && Sums.Over(Members(groups[g]), WeightOf(w)) < cap && Total(w) < UtilizationCap(k, b)
      ensures Weighed(cs, m, k, s, W(w, s))
    {
      assert s in SymbolsOf(cs) by { assert Grouped(groups, s); }
      FreeAsSized(sized, grouped, w, Members(groups[g]), cap, UtilizationCap(k, b), s);
    }
  }

  lemma FreeAsSized(sized: Weights, grouped: Weights, w: Weights, group: set<Text>, groupCap: real, cap: real, s: Text)
    requires Rescaled(sized, grouped, group, groupCap) && Rescaled(grouped, w, grouped.Keys, cap)
    requires w.Keys == grouped.Keys && group <= grouped.Keys && s in group
    requires Sums.Over(group, WeightOf(w)) < groupCap && Total(w) < cap
    ensures W(w, s) == W(sized, s)
  {
    hide Sums.Over, W;
    Sums.Same(group, WeightOf(w), WeightOf(grouped));
  }

  method Optimize(cs: seq<Candidate>, m: Matrix, k: Constraints, b: Budget) returns (w: Weights, groups: seq<seq<Text>>)
    requires Sane(cs, k, b)
    ensures exists sized: Weights ::
      AreSized(cs, m, k, sized) && w == CapTotal(CapGroups(sized, groups, k.maxCorrelationGroupExposure), UtilizationCap(k, b))
    ensures Optimized(cs, m, k, b, w, groups)
  {
    hide InSteps, FreeWeighed, IsUtilizationCap;
    hide IsClustering, CapGroups, CapTotal, Total, Within, SumOf, UtilizationCap, AreSized, SymbolsOf;
    var sized := SizeAll(cs, m, k);
    groups := ClusterByCorrelation(SymbolsOf(cs), m, k.correlationThreshold);
    w := CapEachGroup(sized, groups, k.maxCorrelationGroupExposure);
    ghost var capped := w;
    var total := AddWeights(w);
    var cap := UtilizationCap(k, b);
    if total > cap && total > 0.0 {
      w := ScaledAll(w, cap / total);
    }
    TotalScaled(capped, cap, total, w);
    AllCapped(cs, m, k, b, sized, groups);
    UtilizationIsCap(k, b);
    OptimizedInSteps(cs, m, k, b, sized, groups);
  }

  lemma TotalScaled(before: Weights, cap: real, total: real, after: Weights)
    requires total == Total(before)
    requires after == if total > cap && total > 0.0 then ScaledAll(before, cap / total) else before
    ensures after == CapTotal(before, cap)
  {
    hide Total;
    assert ScaledAll(before, 1.0) == before;
  }

  lemma AllCapped(cs: seq<Candidate>, m: Matrix, k: Constraints, b: Budget, sized: Weights, groups: seq<seq<Text>>)
    requires Sane(cs, k, b) && AreSized(cs, m, k, sized)
    requires IsClustering(m, k.correlationThreshold, SymbolsOf(cs), groups)
    ensures Capped(cs, m, k, b, CapTotal(CapGroups(sized, groups, k.maxCorrelationGroupExposure), UtilizationCap(k, b)), groups)
  {
    hide SymbolsOf, CapGroups, CapTotal, Total, SumOf, Linked;
    SizedAllWithin(cs, m, k, sized);
    SymbolsAre(cs);
    UtilizationNonNegative(k, b);
    GroupsCapped(sized, groups, k.maxCorrelationGroupExposure, k.maxWeightPerSymbol);
    var u := CapGroups(sized, groups, k.maxCorrelationGroupExposure);
    TotalCapped(u, UtilizationCap(k, b), k.maxWeightPerSymbol);
    var w := CapTotal(u, UtilizationCap(k, b));
    assert w.Keys == sized.Keys;
    forall s ensures s in w.Keys <==> s in (set c | c in cs :: c.symbol) {
    }
  }

  lemma SizedAllWithin(cs: seq<Candidate>, m: Matrix, k: Constraints, w: Weights)
    requires (forall c :: c in cs ==> c.payoffRatio > 0.0) && k.kellyFraction >= 0.0 && k.maxWeightPerSymbol >= 0.0
    requires AreSized(cs, m, k, w)
    ensures Within(w, k.maxWeightPerSymbol)
  {
    hide Sized, AvgAbsCorr, SymbolsOf;
    forall s | s in w ensures 0.0 <= w[s] <= k.maxWeightPerSymbol {
      SizedWithin(Find(cs, s).value, k, AvgAbsCorr(m, s, SymbolsOf(cs)));
    }
  }

  lemma UtilizationNonNegative(k: Constraints, b: Budget)
    requires k.maxTotalUtilization >= 0.0 && b.available >= 0.0
    ensures UtilizationCap(k, b) >= 0.0
    ensures b.total > 0.0 ==> UtilizationCap(k, b) * b.total <= b.available
    ensures b.total <= 0.0 ==> UtilizationCap(k, b) == 0.0
  {
    if b.total > 0.0 {
      Positive(b.available, b.total);
      var q := b.available / b.total;
      assert q * b.total == b.available;
      assert (q - UtilizationCap(k, b)) * b.total >= 0.0;
    }
  }

  // ---- the plan ----

  datatype Allocation = Allocation(weight: real, notional: real)

  function NotionalOf(w: Weights, total: real): Text -> real {
    s => Part(W(w, s), total)
  }

  /** Correlates the returns, sizes the candidates and turns weights into amounts; the hard
      clip to the available budget stands behind it. */
  method PlanPortfolio(sqrt: real -> real, returns_: Returns, symbols: seq<Text>, cs: seq<Candidate>, k: Constraints,
                       b: Budget)
    returns (allocations: map<Text, Allocation>, totalNotional: real, clipped: bool)
    requires Sane(cs, k, b)
    ensures exists groups: seq<seq<Text>> ::
      Optimized(cs, MatrixOf(sqrt, returns_, symbols), k, b, WeightsOf(allocations), groups)
    ensures !clipped && totalNotional <= b.available
    ensures allocations.Keys == (set c | c in cs :: c.symbol)
    ensures forall s :: s in allocations ==>
      && 0.0 <= allocations[s].weight <= k.maxWeightPerSymbol
      && allocations[s].notional == allocations[s].weight * b.total
    ensures totalNotional == Notionals(allocations)
  {
    hide IsClustering, Total, SumOf, UtilizationCap, AreSized, CapGroups, CapTotal, SymbolsOf, Notionals, Part;
    hide MatrixOf, ComesInSteps, FreeWeighed, Weighed;
    var m := Build(sqrt, returns_, symbols);
    var w, groups := Optimize(cs, m, k, b);
    NotionalFits(w, k, b);
    allocations, totalNotional := Allocate(w, b.total);
    allocations, totalNotional, clipped := HardClip(allocations, totalNotional, b.available);
    assert WeightsOf(allocations) == w;
    forall s | s in allocations ensures allocations[s].notional == allocations[s].weight * b.total {
      PartIs(allocations[s].weight, b.total);
    }
  }

  lemma PartIs(x: real, scale: real)
    ensures Part(x, scale) == x * scale
  {
  }

  function WeightsOf(allocations: map<Text, Allocation>): Weights {
    map s | s in allocations :: allocations[s].weight
  }

  ghost function Notionals(allocations: map<Text, Allocation>): real {
    Sums.Over(allocations.Keys, (s: Text) => if s in allocations then allocations[s].notional else 0.0)
  }

  method Allocate(w: Weights, total: real) returns (allocations: map<Text, Allocation>, sum: real)
    ensures allocations.Keys == w.Keys
    ensures forall s :: s in w ==> allocations[s] == Allocation(w[s], Part(w[s], total))
    ensures sum == Sums.Over(w.Keys, NotionalOf(w, total)) == Notionals(allocations)
  {
    hide Sums.Over, Part;
    allocations := map s | s in w :: Allocation(w[s], Part(w[s], total));
    sum := AddNotionals(w, total);
    Sums.Same(w.Keys, NotionalOf(w, total), (s: Text) => if s in allocations then allocations[s].notional else 0.0);
    assert allocations.Keys == w.Keys;
  }

  /** Scales a plan down to what is available. */
  method HardClip(planned: map<Text, Allocation>, sum: real, available: real)
    returns (allocations: map<Text, Allocation>, totalNotional: real, clipped: bool)
    ensures clipped <==> sum > available && sum > 0.0
    ensures totalNotional == if clipped then available else sum
    ensures allocations == if clipped then
        (map s | s in planned :: Allocation(Part(planned[s].weight, available / sum), Part(planned[s].notional, available / sum)))
      else planned
  {
    allocations, totalNotional := planned, sum;
    clipped := sum > available && sum > 0.0;
    if clipped {
      var scale := available / sum;
      allocations := map s | s in planned :: Allocation(Part(planned[s].weight, scale), Part(planned[s].notional, scale));
      totalNotional := available;
    }
  }

  method AddNotionals(w: Weights, total: real) returns (sum: real)
    ensures sum == Sums.Over(w.Keys, NotionalOf(w, total))
  {
    hide Sums.Over, Part;
    var left := w.Keys;
    sum := 0.0;
    Sums.OverNothing(NotionalOf(w, total));
    assert w.Keys - left == {};
    while left != {}
      invariant left <= w.Keys
      invariant sum == Sums.Over(w.Keys - left, NotionalOf(w, total))
      decreases |left|
    {
      var s :| s in left;
      Sums.Add(w.Keys - left, NotionalOf(w, total), s);
      assert w.Keys - (left - {s}) == (w.Keys - left) + {s};
      left := left - {s};
      sum := sum + Part(w[s], total);
    }
    assert w.Keys - left == w.Keys;
  }

  /** In exact arithmetic the amounts fit the available budget, so the clip never fires. */
  lemma NotionalFits(w: Weights, k: Constraints, b: Budget)
    requires Total(w) <= UtilizationCap(k, b) && Within(w, k.maxWeightPerSymbol)
    requires k.maxTotalUtilization >= 0.0 && b.available >= 0.0
    ensures Sums.Over(w.Keys, NotionalOf(w, b.total)) <= b.available
  {
    hide Sums.Over, UtilizationCap;
    UtilizationNonNegative(k, b);
    TotalNonNegative(w, k.maxWeightPerSymbol);
    forall s | s in w.Keys ensures NotionalOf(w, b.total)(s) == b.total * WeightOf(w)(s) {
    }
    Sums.Scale(w.Keys, WeightOf(w), NotionalOf(w, b.total), b.total);
    if b.total > 0.0 {
      assert (UtilizationCap(k, b) - Total(w)) * b.total >= 0.0;
    }
  }
}
