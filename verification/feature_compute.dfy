/** Computing a feature plan as of a point in time, with and without the versioned cache. */
module FeatureCompute {
  import opened Texts
  import opened Options
  import opened Sequences
  import opened Sorting
  import opened FeatureDag
  import opened RawStores
  import opened Quality

  /** A number, or null when the input does not suffice. */
  type FeatureValue = Option<real>

  datatype Context = Context(
    symbol: Text, asOfMs: int, raw: seq<RawRecord>, upstream: map<Text, FeatureValue>, quality: Report)

  datatype Definition = Definition(
    dependencies: seq<FeatureRef>, inputsRaw: set<Kind>, transform: Context -> FeatureValue)

  type Registry = map<Text, Definition>

  function GraphOf(reg: Registry): Graph {
    map key | key in reg :: reg[key].dependencies
  }

  // ---- cache keys ----

  function CacheKey(r: FeatureRef, symbol: Text, asOfMs: int): Text {
    RefKey(r) + [0x7C] + symbol + [0x7C] + IntText(asOfMs)
  }

  /** A reference whose key names it: no `@` in its version. */
  predicate Clean(r: FeatureRef) {
    0x40 !in r.version
  }

  lemma RefKeyInjective(a: FeatureRef, b: FeatureRef)
    requires Clean(a) && Clean(b) && RefKey(a) == RefKey(b)
    ensures a == b
  {
    SplitAtLast(a.id, a.version, b.id, b.version, 0x40);
  }

  /** Without a bar in the symbols a cache key tells feature, symbol and time. */
  lemma CacheKeyInjective(a: FeatureRef, s: Text, m: int, b: FeatureRef, t: Text, n: int)
    requires 0x7C !in s && 0x7C !in t && CacheKey(a, s, m) == CacheKey(b, t, n)
    ensures RefKey(a) == RefKey(b) && s == t && m == n
  {
    TimeTold(a, s, m, b, t, n);
    SplitAtLast(RefKey(a), s, RefKey(b), t, 0x7C);
  }

  /** A key names a second question about another symbol exactly when the symbol has a bar,
      or the reference has one behind an at-sign. */
  lemma SymbolsShareExactly(a: FeatureRef, s: Text, m: int)
    ensures (exists b, t, n :: t != s && CacheKey(b, t, n) == CacheKey(a, s, m)) <==> 0x7C in s || BarBehindAt(a)
  {
    hide CacheKey, BarBehindAt;
    if 0x7C in s {
      var b, t := BarInSymbol(a, s, m);
      assert CacheKey(b, t, m) == CacheKey(a, s, m);
    } else if BarBehindAt(a) {
      var b, t := BarInReference(a, s, m);
      assert CacheKey(b, t, m) == CacheKey(a, s, m);
    } else {
      forall b, t, n | CacheKey(b, t, n) == CacheKey(a, s, m) ensures t == s {
        SymbolTold(a, s, m, b, t, n);
      }
    }
  }

  predicate BarBehindAt(a: FeatureRef) {
    exists i, j :: 0 <= i < j < |RefKey(a)| && RefKey(a)[i] == 0x40 && RefKey(a)[j] == 0x7C
  }

  lemma BarInSymbol(a: FeatureRef, s: Text, m: int) returns (b: FeatureRef, t: Text)
    requires 0x7C in s
    ensures t != s && CacheKey(b, t, m) == CacheKey(a, s, m)
  {
    var k :| 0 <= k < |s| && s[k] == 0x7C;
    b, t := FeatureRef(a.id, a.version + [0x7C] + s[..k]), s[k + 1..];
    assert s == s[..k] + [0x7C] + t;
    assert RefKey(b) == RefKey(a) + [0x7C] + s[..k];
    Regrouped(RefKey(a), s[..k], t, IntText(m));
  }

  lemma Regrouped(x: Text, y: Text, z: Text, tail: Text)
    ensures (x + [0x7C] + y) + [0x7C] + z + [0x7C] + tail == x + [0x7C] + (y + [0x7C] + z) + [0x7C] + tail
  {
  }

  lemma BarInReference(a: FeatureRef, s: Text, m: int) returns (b: FeatureRef, t: Text)
    requires BarBehindAt(a)
    ensures t != s && CacheKey(b, t, m) == CacheKey(a, s, m)
  {
    var key := RefKey(a);
    var i, j :| 0 <= i < j < |key| && key[i] == 0x40 && key[j] == 0x7C;
    b, t := FeatureRef(key[..i], key[i + 1..j]), key[j + 1..] + [0x7C] + s;
    assert RefKey(b) == key[..j];
    assert key == key[..j] + [0x7C] + key[j + 1..];
    Regrouped(key[..j], key[j + 1..], s, IntText(m));
  }

  /** Where two keys agree, their times agree, and so does the rest in front of them. */
  lemma TimeTold(a: FeatureRef, s: Text, m: int, b: FeatureRef, t: Text, n: int)
    requires CacheKey(a, s, m) == CacheKey(b, t, n)
    ensures m == n && RefKey(a) + [0x7C] + s == RefKey(b) + [0x7C] + t
  {
    hide RefKey;
    assert 0x7C !in IntText(m) && 0x7C !in IntText(n);
    SplitAtLast(RefKey(a) + [0x7C] + s, IntText(m), RefKey(b) + [0x7C] + t, IntText(n), 0x7C);
    IntTextInjective(m, n);
  }

  lemma SymbolTold(a: FeatureRef, s: Text, m: int, b: FeatureRef, t: Text, n: int)
    requires CacheKey(b, t, n) == CacheKey(a, s, m)
    ensures t == s || 0x7C in s || BarBehindAt(a)
  {
    hide CacheKey;
    TimeTold(a, s, m, b, t, n);
    var x, y := RefKey(a), RefKey(b);
    var front := x + [0x7C] + s;
    assert front == y + [0x7C] + t;
    if |t| < |s| {
      assert front[|y|] == 0x7C && front[|y|] == s[|y| - |x| - 1];
    } else if |s| < |t| {
      assert front[|y|] == 0x7C && front[|y|] == x[|y|];
      assert front[|b.id|] == y[|b.id|] == 0x40 && front[|b.id|] == x[|b.id|];
    } else {
      assert s == front[|front| - |s|..] == t;
    }
  }

  /** A key names exactly one question when reference and symbol keep the separators to
      themselves: no second at-sign and no bar that could be taken for one. */
  lemma KeyNamesOneExactly(a: FeatureRef, s: Text, m: int)
    ensures (exists b, t, n :: (b, t, n) != (a, s, m) && CacheKey(b, t, n) == CacheKey(a, s, m))
      <==> 0x40 in a.id || 0x40 in a.version || 0x7C in a.version || 0x7C in s
  {
    hide CacheKey, BarBehindAt;
    SymbolsShareExactly(a, s, m);
    BarInVersion(a);
    if 0x40 in a.id || 0x40 in a.version {
      var b := AnotherReference(a);
      SameReferenceKey(a, b, s, m);
      assert (b, s, m) != (a, s, m);
    } else {
      forall b, t, n | CacheKey(b, t, n) == CacheKey(a, s, m) && t == s ensures b == a && n == m {
        TimeTold(a, s, m, b, t, n);
        ReferenceTold(a, b, s);
      }
      if b, t, n :| t != s && CacheKey(b, t, n) == CacheKey(a, s, m) {
        assert (b, t, n) != (a, s, m);
      }
    }
  }

  lemma BarInVersion(a: FeatureRef)
    ensures 0x7C in a.version ==> BarBehindAt(a)
    ensures BarBehindAt(a) && 0x40 !in a.id ==> 0x7C in a.version
  {
    var key := RefKey(a);
    if 0x7C in a.version {
      var k :| 0 <= k < |a.version| && a.version[k] == 0x7C;
      assert key[|a.id|] == 0x40 && key[|a.id| + 1 + k] == 0x7C;
    }
    if BarBehindAt(a) && 0x40 !in a.id {
      var i, j :| 0 <= i < j < |key| && key[i] == 0x40 && key[j] == 0x7C;
      assert i >= |a.id|;
      assert a.version[j - |a.id| - 1] == 0x7C;
    }
  }

  lemma SameReferenceKey(a: FeatureRef, b: FeatureRef, s: Text, m: int)
    requires RefKey(a) == RefKey(b)
    ensures CacheKey(a, s, m) == CacheKey(b, s, m)
  {
  }

  /** A second at-sign lets another reference have the same key. */
  lemma AnotherReference(a: FeatureRef) returns (b: FeatureRef)
    requires 0x40 in a.id || 0x40 in a.version
    ensures b != a && RefKey(b) == RefKey(a)
  {
    var key, at := RefKey(a), |a.id|;
    if 0x40 in a.id {
      var k :| 0 <= k < |a.id| && a.id[k] == 0x40;
      at := k;
    } else {
      var k :| 0 <= k < |a.version| && a.version[k] == 0x40;
      at := |a.id| + 1 + k;
    }
    assert key[at] == 0x40 && at != |a.id|;
    b := FeatureRef(key[..at], key[at + 1..]);
    assert key == key[..at] + [0x40] + key[at + 1..];
  }

  lemma ReferenceTold(a: FeatureRef, b: FeatureRef, s: Text)
    requires RefKey(a) + [0x7C] + s == RefKey(b) + [0x7C] + s && 0x40 !in a.id && 0x40 !in a.version
    ensures b == a
  {
    var x, y := RefKey(a), RefKey(b);
    assert |x| == |y|;
    assert x == (x + [0x7C] + s)[..|x|] == y;
    assert x[|b.id|] == 0x40;
    assert |b.id| == |a.id|;
    assert a.id == x[..|a.id|] == b.id;
    assert a.version == x[|a.id| + 1..] == b.version;
  }

  /** Two questions that a bar in a symbol gives one key. */
  lemma BarsCollide()
    ensures CacheKey(FeatureRef([], [0x31]), Lit("a|b"), 0) == CacheKey(FeatureRef([], Lit("1|a")), Lit("b"), 0)
  {
    assert [0x31] + [0x7C] + Lit("a|b") == Lit("1|a") + [0x7C] + Lit("b");
    assert [] + [0x40] + [0x31] + [0x7C] + Lit("a|b") == [0x40] + ([0x31] + [0x7C] + Lit("a|b"));
    assert [] + [0x40] + Lit("1|a") + [0x7C] + Lit("b") == [0x40] + (Lit("1|a") + [0x7C] + Lit("b"));
  }

  // ---- one plan ----

  /** The read a transform works on. */
  function Input(def: Definition, records: seq<RawRecord>, symbol: Text, asOfMs: int): seq<RawRecord> {
    Filter(QueryAsOf(records, AsOfQuery(asOfMs, None, Some(symbol), None)),
           (r: RawRecord) => def.inputsRaw == {} || r.kind in def.inputsRaw)
  }

  function Evaluate(def: Definition, records: seq<RawRecord>, symbol: Text, asOfMs: int,
                    upstream: map<Text, FeatureValue>): FeatureValue {
    var raw := Input(def, records, symbol, asOfMs);
    def.transform(Context(symbol, asOfMs, Normalize(raw), upstream, Assess(raw, {})))
  }

  type Cache = map<Text, FeatureValue>

  /** `ok` is false once a feature of the plan was not registered, which throws. */
  datatype Progress = Progress(values: map<Text, FeatureValue>, cache: Option<Cache>, ok: bool)

  function Next(reg: Registry, records: seq<RawRecord>, symbol: Text, asOfMs: int, p: Progress,
                r: FeatureRef): Progress {
    var key := CacheKey(r, symbol, asOfMs);
    if !p.ok then p
    else if p.cache.Some? && key in p.cache.value then p.(values := p.values[r.id := p.cache.value[key]])
    else if RefKey(r) !in reg then p.(ok := false)
    else
      var value := Evaluate(reg[RefKey(r)], records, symbol, asOfMs, p.values);
      Progress(p.values[r.id := value], if p.cache.Some? then Some(p.cache.value[key := value]) else None, true)
  }

  function Compute(reg: Registry, records: seq<RawRecord>, order: seq<FeatureRef>, symbol: Text, asOfMs: int,
                   cache: Option<Cache>): Progress {
    if order == [] then Progress(map[], cache, true)
    else
      Next(reg, records, symbol, asOfMs,
           Compute(reg, records, order[..|order| - 1], symbol, asOfMs, cache), order[|order| - 1])
  }

  class InMemoryFeatureCache {
    var m: Cache

    constructor ()
      ensures m == map[]
    {
      m := map[];
    }

    method Set(key: Text, value: FeatureValue)
      modifies this
      ensures m == old(m)[key := value]
    {
      m := m[key := value];
    }
  }

  function Held(cache: InMemoryFeatureCache?): Option<Cache>
    reads cache
  {
    if cache == null then None else Some(cache.m)
  }

  method ComputeFeatures(reg: Registry, order: seq<FeatureRef>, store: InMemoryRawStore, cache: InMemoryFeatureCache?,
                         symbol: Text, asOfMs: int) returns (ok: bool, values: map<Text, FeatureValue>)
    modifies cache
    ensures Progress(values, Held(cache), ok) == Compute(reg, store.records, order, symbol, asOfMs, old(Held(cache)))
  {
    hide Evaluate, CacheKey, RefKey;
    values := map[];
    for i := 0 to |order|
      invariant Progress(values, Held(cache), true) == Compute(reg, store.records, order[..i], symbol, asOfMs, old(Held(cache)))
    {
      var r := order[i];
      var key := CacheKey(r, symbol, asOfMs);
      assert order[..i + 1][..i] == order[..i];
      if cache != null && key in cache.m {
        values := values[r.id := cache.m[key]];
        continue;
      }
      if RefKey(r) !in reg {
        Stuck(reg, store.records, order, symbol, asOfMs, old(Held(cache)), i + 1);
        return false, values;
      }
      var def := reg[RefKey(r)];
      var value := Transform(def, store.records, symbol, asOfMs, values);
      values := values[r.id := value];
      if cache != null {
        cache.Set(key, value);
      }
    }
    assert order[..|order|] == order;
    ok := true;
  }

  method Transform(def: Definition, records: seq<RawRecord>, symbol: Text, asOfMs: int,
                   upstream: map<Text, FeatureValue>)
    returns (value: FeatureValue)
    ensures value == Evaluate(def, records, symbol, asOfMs, upstream)
  {
    var raw, report := NormalizeInput(Input(def, records, symbol, asOfMs));
    value := def.transform(Context(symbol, asOfMs, raw, upstream, report));
  }

  /** A failed plan stays failed. */
  lemma {:induction false} Stuck(reg: Registry, records: seq<RawRecord>, order: seq<FeatureRef>, symbol: Text,
                                 asOfMs: int, cache: Option<Cache>, n: nat)
    requires n <= |order| && !Compute(reg, records, order[..n], symbol, asOfMs, cache).ok
    ensures Compute(reg, records, order, symbol, asOfMs, cache) == Compute(reg, records, order[..n], symbol, asOfMs, cache)
    decreases |order|
  {
    hide Evaluate, CacheKey, RefKey;
    if n < |order| {
      assert order[..|order| - 1][..n] == order[..n];
      Stuck(reg, records, order[..|order| - 1], symbol, asOfMs, cache, n);
    } else {
      assert order[..n] == order;
    }
  }

  // ---- values do not depend on the plan ----

  /** A transform looks at nothing upstream but what it declares. */
  ghost predicate ReadsDeclared(def: Definition) {
    forall x: Context, upstream: map<Text, FeatureValue> ::
      Agree(def.dependencies, x.upstream, upstream) ==> def.transform(x) == def.transform(x.(upstream := upstream))
  }

  ghost predicate Agree(deps: seq<FeatureRef>, a: map<Text, FeatureValue>, b: map<Text, FeatureValue>) {
    forall d :: 0 <= d < |deps| ==> deps[d].id in a && deps[d].id in b && a[deps[d].id] == b[deps[d].id]
  }

  ghost predicate WellDefined(reg: Registry) {
    forall key :: key in reg ==> ReadsDeclared(reg[key]) && forall d :: d in reg[key].dependencies ==> Clean(d)
  }

  /** A resolved plan: dependencies first, and one version per feature. */
  ghost predicate Resolved(reg: Registry, order: seq<FeatureRef>) {
    && DepsFirst(GraphOf(reg), order)
    && (forall i :: 0 <= i < |order| ==> Clean(order[i]))
    && (forall i, j :: 0 <= i < j < |order| ==> order[i].id != order[j].id)
  }

  function Plain(reg: Registry, records: seq<RawRecord>, order: seq<FeatureRef>, symbol: Text,
                 asOfMs: int): map<Text, FeatureValue> {
    Compute(reg, records, order, symbol, asOfMs, None).values
  }

  /** What the feature at a position of a plan evaluates to without a cache. */
  function ValueAt(reg: Registry, records: seq<RawRecord>, order: seq<FeatureRef>, i: nat, symbol: Text,
                   asOfMs: int): FeatureValue
    requires i < |order| && RefKey(order[i]) in reg
  {
    Evaluate(reg[RefKey(order[i])], records, symbol, asOfMs, Plain(reg, records, order[..i], symbol, asOfMs))
  }

  lemma ResolvedRegistered(reg: Registry, order: seq<FeatureRef>, i: nat)
    requires Resolved(reg, order) && i < |order|
    ensures RefKey(order[i]) in reg
  {
    hide RefKey;
    assert Settled(GraphOf(reg), order, i);
  }

  lemma ResolvedPrefix(reg: Registry, order: seq<FeatureRef>, n: nat)
    requires Resolved(reg, order) && n <= |order|
    ensures Resolved(reg, order[..n])
  {
    hide RefKey, HasKey, Clean;
    forall i | 0 <= i < n ensures Settled(GraphOf(reg), order[..n], i) {
      assert Settled(GraphOf(reg), order, i);
      assert order[..n][..i] == order[..i];
    }
  }

  /** The value of a position is held under the feature's id. */
  ghost predicate HeldAt(reg: Registry, records: seq<RawRecord>, order: seq<FeatureRef>, k: nat, symbol: Text,
                         asOfMs: int, values: map<Text, FeatureValue>)
    requires k < |order|
  {
    && RefKey(order[k]) in reg && order[k].id in values
    && values[order[k].id] == ValueAt(reg, records, order, k, symbol, asOfMs)
  }

  /** Without a cache, the values of a plan are those of its positions. */
  lemma {:induction false} PlainValues(reg: Registry, records: seq<RawRecord>, order: seq<FeatureRef>, symbol: Text,
                                       asOfMs: int)
    requires Resolved(reg, order)
    ensures Compute(reg, records, order, symbol, asOfMs, None).ok
    ensures forall k :: 0 <= k < |order| ==> HeldAt(reg, records, order, k, symbol, asOfMs, Plain(reg, records, order, symbol, asOfMs))
  {
    hide Evaluate, RefKey, CacheKey, Clean, Resolved;
    if order != [] {
      hide HeldAt;
      var n := |order| - 1;
      var front := order[..n];
      ResolvedPrefix(reg, order, n);
      ResolvedRegistered(reg, order, n);
      PlainValues(reg, records, front, symbol, asOfMs);
      PlainNoCache(reg, records, front, symbol, asOfMs);
      forall k | 0 <= k < |order| ensures HeldAt(reg, records, order, k, symbol, asOfMs, Plain(reg, records, order, symbol, asOfMs)) {
        if k < n {
          OtherId(reg, order, k, n);
          HeldOn(reg, records, order, k, n, symbol, asOfMs, Plain(reg, records, front, symbol, asOfMs),
                 ValueAt(reg, records, order, n, symbol, asOfMs));
        } else {
          HeldNew(reg, records, order, symbol, asOfMs);
        }
      }
    }
  }

  lemma OtherId(reg: Registry, order: seq<FeatureRef>, k: nat, n: nat)
    requires Resolved(reg, order) && k < n < |order|
    ensures order[k].id != order[n].id
  {
    hide DepsFirst, Clean;
  }

  lemma HeldOn(reg: Registry, records: seq<RawRecord>, order: seq<FeatureRef>, k: nat, n: nat, symbol: Text,
               asOfMs: int, values: map<Text, FeatureValue>, v: FeatureValue)
    requires k < n < |order| && order[k].id != order[n].id
    requires HeldAt(reg, records, order[..n], k, symbol, asOfMs, values)
    ensures HeldAt(reg, records, order, k, symbol, asOfMs, values[order[n].id := v])
  {
    hide Evaluate, RefKey, Plain;
    assert order[..n][k] == order[k] && order[..n][..k] == order[..k];
  }

  lemma HeldNew(reg: Registry, records: seq<RawRecord>, order: seq<FeatureRef>, symbol: Text, asOfMs: int)
    requires order != [] && RefKey(order[|order| - 1]) in reg
    requires Compute(reg, records, order[..|order| - 1], symbol, asOfMs, None).ok
    requires Compute(reg, records, order[..|order| - 1], symbol, asOfMs, None).cache.None?
    ensures HeldAt(reg, records, order, |order| - 1, symbol, asOfMs, Plain(reg, records, order, symbol, asOfMs))
  {
    hide Evaluate, RefKey, CacheKey;
  }

  /** Where a plan lists a dependency. */
  lemma DependencyAt(reg: Registry, order: seq<FeatureRef>, i: nat, d: nat) returns (k: nat)
    requires WellDefined(reg) && Resolved(reg, order) && i < |order| && RefKey(order[i]) in reg
    requires d < |reg[RefKey(order[i])].dependencies|
    ensures k < i && order[k] == reg[RefKey(order[i])].dependencies[d]
  {
    hide RefKey, ReadsDeclared, Clean;
    assert Settled(GraphOf(reg), order, i);
    var dep := reg[RefKey(order[i])].dependencies[d];
    assert HasKey(order[..i], RefKey(dep));
    k :| 0 <= k < i && RefKey(order[..i][k]) == RefKey(dep);
    RefKeyInjective(order[k], dep);
  }

  /** A feature has the same value in every resolved plan that lists it. */
  lemma {:induction false} SameInEveryPlan(reg: Registry, records: seq<RawRecord>, a: seq<FeatureRef>, i: nat,
                                           b: seq<FeatureRef>, j: nat, symbol: Text, asOfMs: int)
    requires WellDefined(reg) && Resolved(reg, a) && Resolved(reg, b)
    requires i < |a| && j < |b| && RefKey(a[i]) == RefKey(b[j]) && RefKey(a[i]) in reg
    ensures ValueAt(reg, records, a, i, symbol, asOfMs) == ValueAt(reg, records, b, j, symbol, asOfMs)
    decreases i
  {
    hide Evaluate, RefKey, CacheKey, Clean, Plain, Resolved, WellDefined, ReadsDeclared;
    var def := reg[RefKey(a[i])];
    var x, y := Plain(reg, records, a[..i], symbol, asOfMs), Plain(reg, records, b[..j], symbol, asOfMs);
    forall d | 0 <= d < |def.dependencies|
      ensures var id := def.dependencies[d].id; id in x && id in y && x[id] == y[id]
    {
      var k := DependencyAt(reg, a, i, d);
      var l := DependencyAt(reg, b, j, d);
      ResolvedRegistered(reg, a, k);
      SameInEveryPlan(reg, records, a, k, b, l, symbol, asOfMs);
      PrefixValue(reg, records, a, i, k, symbol, asOfMs);
      PrefixValue(reg, records, b, j, l, symbol, asOfMs);
    }
    SameUpstream(reg, RefKey(a[i]), records, symbol, asOfMs, x, y);
  }

  lemma PrefixValue(reg: Registry, records: seq<RawRecord>, order: seq<FeatureRef>, n: nat, k: nat, symbol: Text,
                    asOfMs: int)
    requires Resolved(reg, order) && k < n <= |order|
    ensures RefKey(order[k]) in reg
    ensures order[k].id in Plain(reg, records, order[..n], symbol, asOfMs)
    ensures Plain(reg, records, order[..n], symbol, asOfMs)[order[k].id] == ValueAt(reg, records, order, k, symbol, asOfMs)
  {
    hide Evaluate, RefKey, CacheKey, Clean, Resolved, Plain;
    ResolvedPrefix(reg, order, n);
    PlainValues(reg, records, order[..n], symbol, asOfMs);
    assert HeldAt(reg, records, order[..n], k, symbol, asOfMs, Plain(reg, records, order[..n], symbol, asOfMs));
    assert order[..n][k] == order[k] && order[..n][..k] == order[..k];
  }

  lemma SameUpstream(reg: Registry, key: Text, records: seq<RawRecord>, symbol: Text, asOfMs: int,
                     x: map<Text, FeatureValue>, y: map<Text, FeatureValue>)
    requires WellDefined(reg) && key in reg && Agree(reg[key].dependencies, x, y)
    ensures Evaluate(reg[key], records, symbol, asOfMs, x) == Evaluate(reg[key], records, symbol, asOfMs, y)
  {
    hide Agree, Normalize, Assess, Input;
    var def := reg[key];
    var raw := Input(def, records, symbol, asOfMs);
    var c := Context(symbol, asOfMs, Normalize(raw), x, Assess(raw, {}));
    assert ReadsDeclared(def);
    assert c.(upstream := y) == Context(symbol, asOfMs, Normalize(raw), y, Assess(raw, {}));
  }

  // ---- sessions that share a cache ----

  datatype Action =
    | Ask(order: seq<FeatureRef>, symbol: Text, asOfMs: int)
    | Land(record: RawRecord)

  datatype Server = Server(records: seq<RawRecord>, cache: Cache)

  function Serve(reg: Registry, s: Server, a: Action): Server {
    match a
    case Land(r) => s.(records := s.records + [r])
    case Ask(order, symbol, asOfMs) =>
      match Compute(reg, s.records, order, symbol, asOfMs, Some(s.cache)).cache
      case None => s
      case Some(cache) => s.(cache := cache)
  }

  function Run(reg: Registry, actions: seq<Action>): Server {
    if actions == [] then Server([], map[]) else Serve(reg, Run(reg, actions[..|actions| - 1]), actions[|actions| - 1])
  }

  // ---- the cache agrees with recomputation ----

  /** The question for the i-th feature of a plan has this key. */
  ghost predicate KeyOf(a: Action, i: nat, key: Text) {
    a.Ask? && i < |a.order| && key == CacheKey(a.order[i], a.symbol, a.asOfMs)
  }

  /** No two questions about different symbols share a key. */
  ghost predicate Told(asked: seq<Action>) {
    forall a, b, i: nat, j: nat, key :: a in asked && b in asked && KeyOf(a, i, key) && KeyOf(b, j, key) ==> a.symbol == b.symbol
  }

  /** Symbols without bars never share one. */
  lemma BarFreeTold(asked: seq<Action>)
    requires forall a :: a in asked && a.Ask? ==> 0x7C !in a.symbol
    ensures Told(asked)
  {
    hide CacheKey;
    forall a, b, i: nat, j: nat, key | a in asked && b in asked && KeyOf(a, i, key) && KeyOf(b, j, key)
      ensures a.symbol == b.symbol
    {
      CacheKeyInjective(a.order[i], a.symbol, a.asOfMs, b.order[j], b.symbol, b.asOfMs);
    }
  }

  lemma ToldAmong(asked: seq<Action>, some: seq<Action>)
    requires Told(asked) && forall a :: a in some ==> a in asked
    ensures Told(some)
  {
    hide KeyOf;
  }

  /** Questions that share a key in such a session are the same question. */
  lemma SameQuestion(asked: seq<Action>, order: seq<FeatureRef>, i: nat, symbol: Text, asOfMs: int,
                     o: seq<FeatureRef>, k: nat, s: Text, t: int)
    requires Told(asked) && Ask(order, symbol, asOfMs) in asked && Ask(o, s, t) in asked
    requires i < |order| && k < |o| && CacheKey(order[i], symbol, asOfMs) == CacheKey(o[k], s, t)
    ensures RefKey(order[i]) == RefKey(o[k]) && symbol == s && asOfMs == t
  {
    hide CacheKey, RefKey;
    var key := CacheKey(o[k], s, t);
    assert KeyOf(Ask(order, symbol, asOfMs), i, key) && KeyOf(Ask(o, s, t), k, key);
    assert Ask(order, symbol, asOfMs).symbol == Ask(o, s, t).symbol;
    TimeTold(order[i], symbol, asOfMs, o[k], s, t);
    SameFront(RefKey(order[i]), RefKey(o[k]), [0x7C] + s);
    assert RefKey(order[i]) + [0x7C] + s == RefKey(order[i]) + ([0x7C] + s);
    assert RefKey(o[k]) + [0x7C] + s == RefKey(o[k]) + ([0x7C] + s);
  }

  lemma SameFront(x: Text, y: Text, tail: Text)
    ensures x + tail == y + tail ==> x == y
  {
    if x + tail == y + tail {
      assert |x| == |y|;
      assert x == (x + tail)[..|x|] == y;
    }
  }

  /** A cached value is what a plan that was asked for gives now without a cache. */
  ghost predicate Explained(reg: Registry, records: seq<RawRecord>, key: Text, value: FeatureValue,
                            asked: seq<Action>) {
    exists order, i: nat, symbol, asOfMs ::
      Explains(reg, records, order, i, symbol, asOfMs, key, value) && Ask(order, symbol, asOfMs) in asked
  }

  ghost predicate Explains(reg: Registry, records: seq<RawRecord>, order: seq<FeatureRef>, i: nat, symbol: Text,
                           asOfMs: int, key: Text, value: FeatureValue) {
    && Resolved(reg, order) && i < |order| && RefKey(order[i]) in reg
    && key == CacheKey(order[i], symbol, asOfMs) && value == ValueAt(reg, records, order, i, symbol, asOfMs)
  }

  ghost predicate Coherent(reg: Registry, records: seq<RawRecord>, cache: Cache, asked: seq<Action>) {
    forall key :: key in cache ==> Explained(reg, records, key, cache[key], asked)
  }

  /** A hit is what the plan would compute itself. */
  lemma HitAgrees(reg: Registry, records: seq<RawRecord>, cache: Cache, asked: seq<Action>, order: seq<FeatureRef>,
                  i: nat, symbol: Text, asOfMs: int)
    requires WellDefined(reg) && Resolved(reg, order) && i < |order| && RefKey(order[i]) in reg
    requires Told(asked) && Ask(order, symbol, asOfMs) in asked
    requires Coherent(reg, records, cache, asked) && CacheKey(order[i], symbol, asOfMs) in cache
    ensures cache[CacheKey(order[i], symbol, asOfMs)] == ValueAt(reg, records, order, i, symbol, asOfMs)
  {
    hide Resolved, WellDefined, CacheKey, ValueAt, RefKey, Told;
    var key := CacheKey(order[i], symbol, asOfMs);
    assert Explained(reg, records, key, cache[key], asked);
    var o, k: nat, s, t :| Explains(reg, records, o, k, s, t, key, cache[key]) && Ask(o, s, t) in asked;
    SameQuestion(asked, order, i, symbol, asOfMs, o, k, s, t);
    SameInEveryPlan(reg, records, o, k, order, i, symbol, asOfMs);
  }

  /** One shared cache: a resolved plan gives the same values with it as without, and
      leaves it coherent. */
  lemma {:induction false} CacheAgrees(reg: Registry, records: seq<RawRecord>, order: seq<FeatureRef>, n: nat,
                                       symbol: Text, asOfMs: int, cache: Cache, asked: seq<Action>)
    requires WellDefined(reg) && Resolved(reg, order) && n <= |order| && Told(asked)
    requires Coherent(reg, records, cache, asked) && Ask(order, symbol, asOfMs) in asked
    ensures var p := Compute(reg, records, order[..n], symbol, asOfMs, Some(cache));
      && p.ok && p.cache.Some? && p.values == Plain(reg, records, order[..n], symbol, asOfMs)
      && Coherent(reg, records, p.cache.value, asked)
  {
    hide Resolved, WellDefined, CacheKey, RefKey, Coherent, Evaluate, Told;
    if n > 0 {
      CacheAgrees(reg, records, order, n - 1, symbol, asOfMs, cache, asked);
      ResolvedRegistered(reg, order, n - 1);
      assert order[..n][..n - 1] == order[..n - 1];
      var p := Compute(reg, records, order[..n - 1], symbol, asOfMs, Some(cache));
      ResolvedPrefix(reg, order, n - 1);
      PlainValues(reg, records, order[..n - 1], symbol, asOfMs);
      PlainNoCache(reg, records, order[..n - 1], symbol, asOfMs);
      NextAgrees(reg, records, p, order, n - 1, symbol, asOfMs, asked);
    }
  }

  lemma {:induction false} PlainNoCache(reg: Registry, records: seq<RawRecord>, order: seq<FeatureRef>, symbol: Text,
                                        asOfMs: int)
    ensures Compute(reg, records, order, symbol, asOfMs, None).cache.None?
  {
    hide CacheKey, RefKey, Evaluate;
    if order != [] {
      PlainNoCache(reg, records, order[..|order| - 1], symbol, asOfMs);
    }
  }

  lemma NextAgrees(reg: Registry, records: seq<RawRecord>, p: Progress, order: seq<FeatureRef>, i: nat, symbol: Text,
                   asOfMs: int, asked: seq<Action>)
    requires WellDefined(reg) && Resolved(reg, order) && i < |order| && RefKey(order[i]) in reg && Told(asked)
    requires p.ok && p.cache.Some? && p.values == Plain(reg, records, order[..i], symbol, asOfMs)
    requires Coherent(reg, records, p.cache.value, asked) && Ask(order, symbol, asOfMs) in asked
    ensures var q := Next(reg, records, symbol, asOfMs, p, order[i]);
      && q.ok && q.cache.Some? && Coherent(reg, records, q.cache.value, asked)
      && q.values == Plain(reg, records, order[..i], symbol, asOfMs)[order[i].id := ValueAt(reg, records, order, i, symbol, asOfMs)]
  {
    hide Resolved, WellDefined, CacheKey, RefKey, Coherent, Evaluate, Plain, Told;
    var key := CacheKey(order[i], symbol, asOfMs);
    if key in p.cache.value {
      HitAgrees(reg, records, p.cache.value, asked, order, i, symbol, asOfMs);
    } else {
      StoreCoherent(reg, records, p.cache.value, order, i, symbol, asOfMs, asked);
    }
  }

  lemma StoreCoherent(reg: Registry, records: seq<RawRecord>, cache: Cache, order: seq<FeatureRef>, i: nat,
                      symbol: Text, asOfMs: int, asked: seq<Action>)
    requires Resolved(reg, order) && i < |order| && RefKey(order[i]) in reg && Ask(order, symbol, asOfMs) in asked
    requires Coherent(reg, records, cache, asked)
    ensures Coherent(reg, records, cache[CacheKey(order[i], symbol, asOfMs) := ValueAt(reg, records, order, i, symbol, asOfMs)], asked)
  {
    hide Resolved, CacheKey, RefKey, ValueAt;
    var key, value := CacheKey(order[i], symbol, asOfMs), ValueAt(reg, records, order, i, symbol, asOfMs);
    assert Explains(reg, records, order, i, symbol, asOfMs, key, value);
    hide Explained;
    assert Explained(reg, records, key, value, asked) by { ExplainedBy(reg, records, order, i, symbol, asOfMs, key, value, asked); }
  }

  lemma ExplainedBy(reg: Registry, records: seq<RawRecord>, order: seq<FeatureRef>, i: nat, symbol: Text, asOfMs: int,
                    key: Text, value: FeatureValue, asked: seq<Action>)
    requires Explains(reg, records, order, i, symbol, asOfMs, key, value) && Ask(order, symbol, asOfMs) in asked
    ensures Explained(reg, records, key, value, asked)
  {
    hide Explains;
  }

  // ---- records that land later ----

  /** Whether a feature reads a record when it is asked about a symbol as of a time: known
      by then, of that symbol, and of a kind the feature takes; one that names no kinds
      takes all, and an empty symbol asks for all symbols. */
  predicate Reads(def: Definition, symbol: Text, asOfMs: int, r: RawRecord) {
    Answers(AsOfQuery(asOfMs, None, Some(symbol), None), r) && (def.inputsRaw == {} || r.kind in def.inputsRaw)
  }

  lemma InputAppend(def: Definition, records: seq<RawRecord>, r: RawRecord, symbol: Text, asOfMs: int)
    ensures Input(def, records + [r], symbol, asOfMs)
      == Input(def, records, symbol, asOfMs) + if Reads(def, symbol, asOfMs, r) then [r] else []
  {
    hide QueryAsOf, Filter, Answers;
    var q := AsOfQuery(asOfMs, None, Some(symbol), None);
    var wanted := (x: RawRecord) => def.inputsRaw == {} || x.kind in def.inputsRaw;
    assert forall s: seq<RawRecord> :: s + [] == s;
    QueryAppend(records, r, q);
    FilterSnoc(QueryAsOf(records, q), r, wanted);
  }

  /** Counts the records it is given, with their repetitions. */
  function Counting(): Context -> FeatureValue {
    (x: Context) => Some((|x.raw| + x.quality.duplicates) as real)
  }

  lemma CountsInput(def: Definition, records: seq<RawRecord>, symbol: Text, asOfMs: int,
                    upstream: map<Text, FeatureValue>)
    requires def.transform == Counting()
    ensures Evaluate(def, records, symbol, asOfMs, upstream) == Some(|Input(def, records, symbol, asOfMs)| as real)
  {
    hide Input, Normalize, Assess;
    NormalizeCorrect(Input(def, records, symbol, asOfMs));
  }

  /** A record that lands leaves every value of a feature unchanged, whatever the feature
      computes from its input, exactly when the feature does not read it. */
  lemma LandingChangesExactly(def: Definition, records: seq<RawRecord>, r: RawRecord, symbol: Text, asOfMs: int)
    ensures (forall transform, upstream ::
        Evaluate(def.(transform := transform), records + [r], symbol, asOfMs, upstream)
        == Evaluate(def.(transform := transform), records, symbol, asOfMs, upstream))
      <==> !Reads(def, symbol, asOfMs, r)
  {
    hide Reads, Counting;
    var counting := def.(transform := Counting());
    if Reads(def, symbol, asOfMs, r) {
      CountChanges(counting, records, r, symbol, asOfMs, map[]) by { SameReads(def, counting, symbol, asOfMs, r); }
      assert Evaluate(def.(transform := Counting()), records + [r], symbol, asOfMs, map[])
        != Evaluate(def.(transform := Counting()), records, symbol, asOfMs, map[]);
    } else {
      forall transform, upstream
        ensures Evaluate(def.(transform := transform), records + [r], symbol, asOfMs, upstream)
          == Evaluate(def.(transform := transform), records, symbol, asOfMs, upstream)
      {
        SameReads(def, def.(transform := transform), symbol, asOfMs, r);
        InputSame(def.(transform := transform), records, r, symbol, asOfMs, upstream);
      }
    }
  }

  lemma SameReads(a: Definition, b: Definition, symbol: Text, asOfMs: int, r: RawRecord)
    requires a.inputsRaw == b.inputsRaw
    ensures Reads(a, symbol, asOfMs, r) == Reads(b, symbol, asOfMs, r)
  {
  }

  lemma CountChanges(def: Definition, records: seq<RawRecord>, r: RawRecord, symbol: Text, asOfMs: int,
                     upstream: map<Text, FeatureValue>)
    requires def.transform == Counting() && Reads(def, symbol, asOfMs, r)
    ensures Evaluate(def, records + [r], symbol, asOfMs, upstream) != Evaluate(def, records, symbol, asOfMs, upstream)
  {
    hide Reads, Counting, Evaluate, Input;
    InputAppend(def, records, r, symbol, asOfMs);
    CountsInput(def, records, symbol, asOfMs, upstream);
    CountsInput(def, records + [r], symbol, asOfMs, upstream);
  }

  lemma InputSame(def: Definition, records: seq<RawRecord>, r: RawRecord, symbol: Text, asOfMs: int,
                  upstream: map<Text, FeatureValue>)
    requires !Reads(def, symbol, asOfMs, r)
    ensures Evaluate(def, records + [r], symbol, asOfMs, upstream) == Evaluate(def, records, symbol, asOfMs, upstream)
  {
    hide Input, Normalize, Assess, Reads;
    InputAppend(def, records, r, symbol, asOfMs);
    assert Input(def, records, symbol, asOfMs) + [] == Input(def, records, symbol, asOfMs);
  }

  /** Some feature of the plan reads the record. */
  ghost predicate ReadBy(reg: Registry, order: seq<FeatureRef>, symbol: Text, asOfMs: int, r: RawRecord) {
    exists k :: 0 <= k < |order| && RefKey(order[k]) in reg && Reads(reg[RefKey(order[k])], symbol, asOfMs, r)
  }

  /** A record that no feature of a plan reads changes nothing that the plan computes. */
  lemma {:induction false} LaterRecordIgnored(reg: Registry, records: seq<RawRecord>, r: RawRecord,
                                              order: seq<FeatureRef>, symbol: Text, asOfMs: int)
    requires !ReadBy(reg, order, symbol, asOfMs, r)
    ensures Compute(reg, records + [r], order, symbol, asOfMs, None) == Compute(reg, records, order, symbol, asOfMs, None)
  {
    hide CacheKey, RefKey, Evaluate, Reads;
    if order != [] {
      var front, last := order[..|order| - 1], order[|order| - 1];
      assert forall k :: 0 <= k < |front| ==> front[k] == order[k];
      LaterRecordIgnored(reg, records, r, front, symbol, asOfMs);
      if RefKey(last) in reg {
        InputSame(reg[RefKey(last)], records, r, symbol, asOfMs, Compute(reg, records, front, symbol, asOfMs, None).values);
      }
    }
  }

  lemma UnreadPrefix(reg: Registry, order: seq<FeatureRef>, n: nat, symbol: Text, asOfMs: int, r: RawRecord)
    requires !ReadBy(reg, order, symbol, asOfMs, r) && n <= |order|
    ensures !ReadBy(reg, order[..n], symbol, asOfMs, r)
  {
    hide RefKey, Reads;
    assert forall k :: 0 <= k < n ==> order[..n][k] == order[k];
  }

  lemma StillExplains(reg: Registry, records: seq<RawRecord>, r: RawRecord, order: seq<FeatureRef>, i: nat,
                      symbol: Text, asOfMs: int, key: Text, value: FeatureValue)
    requires Explains(reg, records, order, i, symbol, asOfMs, key, value) && !ReadBy(reg, order, symbol, asOfMs, r)
    ensures Explains(reg, records + [r], order, i, symbol, asOfMs, key, value)
  {
    hide Resolved, CacheKey, RefKey, Evaluate, Reads, Compute;
    UnreadPrefix(reg, order, i, symbol, asOfMs, r);
    LaterRecordIgnored(reg, records, r, order[..i], symbol, asOfMs);
    InputSame(reg[RefKey(order[i])], records, r, symbol, asOfMs, Plain(reg, records, order[..i], symbol, asOfMs));
  }

  lemma LaterRecordCoherent(reg: Registry, records: seq<RawRecord>, r: RawRecord, cache: Cache, asked: seq<Action>)
    requires Coherent(reg, records, cache, asked)
    requires forall a :: a in asked && a.Ask? ==> !ReadBy(reg, a.order, a.symbol, a.asOfMs, r)
    ensures Coherent(reg, records + [r], cache, asked)
  {
    hide Resolved, CacheKey, RefKey, Evaluate, Plain, Explains, ReadBy;
    forall key | key in cache ensures Explained(reg, records + [r], key, cache[key], asked) {
      assert Explained(reg, records, key, cache[key], asked);
      var o, k: nat, s, t :| Explains(reg, records, o, k, s, t, key, cache[key]) && Ask(o, s, t) in asked;
      assert !ReadBy(reg, Ask(o, s, t).order, Ask(o, s, t).symbol, Ask(o, s, t).asOfMs, r);
      StillExplains(reg, records, r, o, k, s, t, key, cache[key]);
      ExplainedBy(reg, records + [r], o, k, s, t, key, cache[key], asked);
    }
  }

  // ---- whole sessions ----

  /** Plans are resolved. */
  ghost predicate Planned(reg: Registry, actions: seq<Action>) {
    forall a :: a in actions && a.Ask? ==> Resolved(reg, a.order)
  }

  /** No record that lands is read by a plan that was asked for before. */
  ghost predicate Unread(reg: Registry, actions: seq<Action>) {
    forall i, j :: 0 <= i < j < |actions| && actions[i].Ask? && actions[j].Land? ==>
      !ReadBy(reg, actions[i].order, actions[i].symbol, actions[i].asOfMs, actions[j].record)
  }

  lemma {:induction false} RunCoherent(reg: Registry, actions: seq<Action>)
    requires WellDefined(reg) && Planned(reg, actions) && Unread(reg, actions) && Told(actions)
    ensures Coherent(reg, Run(reg, actions).records, Run(reg, actions).cache, actions)
  {
    hide Resolved, Compute, WellDefined, Coherent, ReadBy, Told;
    if actions == [] {
      NothingCached(reg);
    } else {
      var front, a := actions[..|actions| - 1], actions[|actions| - 1];
      var s := Run(reg, front);
      assert actions == front + [a];
      ToldAmong(actions, front);
      RunCoherent(reg, front);
      MoreAsked(reg, s.records, s.cache, front, a);
      match a
      case Ask(order, symbol, asOfMs) =>
        assert a in actions;
        CacheAgrees(reg, s.records, order, |order|, symbol, asOfMs, s.cache, actions);
        assert order[..|order|] == order;
      case Land(r) =>
        forall x | x in actions && x.Ask? ensures !ReadBy(reg, x.order, x.symbol, x.asOfMs, r) {
          var i :| 0 <= i < |actions| && actions[i] == x;
        }
        LaterRecordCoherent(reg, s.records, r, s.cache, actions);
    }
  }

  lemma NothingCached(reg: Registry)
    ensures Coherent(reg, [], map[], [])
  {
  }

  lemma MoreAsked(reg: Registry, records: seq<RawRecord>, cache: Cache, asked: seq<Action>, a: Action)
    requires Coherent(reg, records, cache, asked)
    ensures Coherent(reg, records, cache, asked + [a])
  {
    hide Explains;
    forall key | key in cache ensures Explained(reg, records, key, cache[key], asked + [a]) {
      assert Explained(reg, records, key, cache[key], asked);
      var o, k: nat, s, t :| Explains(reg, records, o, k, s, t, key, cache[key]) && Ask(o, s, t) in asked;
      assert Ask(o, s, t) in asked + [a];
    }
  }

  /** Whether a plan asked for now gets the values it would get without a cache. */
  ghost predicate Fresh(reg: Registry, s: Server, order: seq<FeatureRef>, symbol: Text, asOfMs: int) {
    && Compute(reg, s.records, order, symbol, asOfMs, Some(s.cache)).ok
    && Compute(reg, s.records, order, symbol, asOfMs, Some(s.cache)).values
       == Compute(reg, s.records, order, symbol, asOfMs, None).values
  }

  /** Over any session of plans, symbols and times that share one cache, in which no two
      symbols share a key and no record lands that an earlier plan reads, every plan gets the
      values it would get without a cache. */
  lemma CacheNeverShows(reg: Registry, actions: seq<Action>, order: seq<FeatureRef>, symbol: Text, asOfMs: int)
    requires WellDefined(reg) && Planned(reg, actions) && Unread(reg, actions)
    requires Resolved(reg, order) && Told(actions + [Ask(order, symbol, asOfMs)])
    ensures Fresh(reg, Run(reg, actions), order, symbol, asOfMs)
  {
    hide Resolved, Compute, WellDefined, Coherent, Unread, Run, Planned, Told;
    ToldAmong(actions + [Ask(order, symbol, asOfMs)], actions);
    RunCoherent(reg, actions);
    var s := Run(reg, actions);
    MoreAsked(reg, s.records, s.cache, actions, Ask(order, symbol, asOfMs));
    CacheAgrees(reg, s.records, order, |order|, symbol, asOfMs, s.cache, actions + [Ask(order, symbol, asOfMs)]);
    assert order[..|order|] == order;
  }

  // ---- exactly when the cache never shows ----

  /** Registries that differ at most in what their features compute. */
  ghost predicate SameShape(a: Registry, b: Registry) {
    && a.Keys == b.Keys
    && forall key :: key in a ==> a[key].dependencies == b[key].dependencies && a[key].inputsRaw == b[key].inputsRaw
  }

  /** At every point of a session, every plan asked for so far is answered as without a cache. */
  ghost predicate NeverShows(reg: Registry, actions: seq<Action>) {
    forall i, j :: 0 <= i < j <= |actions| && actions[i].Ask? ==>
      Fresh(reg, Run(reg, actions[..j]), actions[i].order, actions[i].symbol, actions[i].asOfMs)
  }

  lemma SameReadBy(a: Registry, b: Registry, order: seq<FeatureRef>, symbol: Text, asOfMs: int, r: RawRecord)
    requires SameShape(a, b)
    ensures ReadBy(a, order, symbol, asOfMs, r) == ReadBy(b, order, symbol, asOfMs, r)
  {
    hide RefKey, Answers;
  }

  lemma SamePlans(a: Registry, b: Registry, actions: seq<Action>)
    requires SameShape(a, b)
    ensures Planned(a, actions) == Planned(b, actions) && Unread(a, actions) == Unread(b, actions)
  {
    hide Resolved, ReadBy;
    assert GraphOf(a) == GraphOf(b);
    forall order ensures Resolved(a, order) == Resolved(b, order) {
      SameResolved(a, b, order);
    }
    forall order, symbol, asOfMs, r ensures ReadBy(a, order, symbol, asOfMs, r) == ReadBy(b, order, symbol, asOfMs, r) {
      SameReadBy(a, b, order, symbol, asOfMs, r);
    }
  }

  lemma SameResolved(a: Registry, b: Registry, order: seq<FeatureRef>)
    requires GraphOf(a) == GraphOf(b)
    ensures Resolved(a, order) == Resolved(b, order)
  {
    hide DepsFirst, Clean;
  }

  lemma SessionPrefix(reg: Registry, actions: seq<Action>, n: nat)
    requires Planned(reg, actions) && n <= |actions|
    ensures Planned(reg, actions[..n])
    ensures Unread(reg, actions) ==> Unread(reg, actions[..n])
  {
    hide Resolved, ReadBy;
  }

  lemma UnreadNeverShows(reg: Registry, actions: seq<Action>)
    requires WellDefined(reg) && Planned(reg, actions) && Unread(reg, actions) && Told(actions)
    ensures NeverShows(reg, actions)
  {
    hide WellDefined, Unread, Fresh, Resolved, Told;
    forall i, j | 0 <= i < j <= |actions| && actions[i].Ask?
      ensures Fresh(reg, Run(reg, actions[..j]), actions[i].order, actions[i].symbol, actions[i].asOfMs)
    {
      SessionPrefix(reg, actions, j);
      assert actions[i] in actions;
      ToldAmong(actions, actions[..j] + [actions[i]]);
      CacheNeverShows(reg, actions[..j], actions[i].order, actions[i].symbol, actions[i].asOfMs);
    }
  }

  /** The same features, each computing this. */
  function Like(reg: Registry, transform: Context -> FeatureValue): Registry {
    map key | key in reg :: reg[key].(transform := transform)
  }

  lemma LikeDefined(reg: Registry, transform: Context -> FeatureValue)
    requires WellDefined(reg)
    requires forall x: Context, upstream :: transform(x) == transform(x.(upstream := upstream))
    ensures WellDefined(Like(reg, transform)) && SameShape(Like(reg, transform), reg)
    ensures forall key :: key in Like(reg, transform) ==> Like(reg, transform)[key].transform == transform
  {
    hide ReadsDeclared, Clean;
    var like := Like(reg, transform);
    forall key | key in like ensures ReadsDeclared(like[key]) {
      NothingUpstream(like[key]);
    }
  }

  /** A transform that looks at nothing upstream looks at nothing undeclared. */
  lemma NothingUpstream(def: Definition)
    requires forall x: Context, upstream :: def.transform(x) == def.transform(x.(upstream := upstream))
    ensures ReadsDeclared(def)
  {
    hide Agree;
  }

  lemma {:induction false} AllStored(reg: Registry, records: seq<RawRecord>, order: seq<FeatureRef>, symbol: Text,
                                     asOfMs: int, cache: Cache)
    requires forall k :: 0 <= k < |order| ==> RefKey(order[k]) in reg
    ensures var p := Compute(reg, records, order, symbol, asOfMs, Some(cache));
      && p.ok && p.cache.Some? && cache.Keys <= p.cache.value.Keys
      && forall k :: 0 <= k < |order| ==> CacheKey(order[k], symbol, asOfMs) in p.cache.value
  {
    hide CacheKey, RefKey, Evaluate;
    if order != [] {
      AllStored(reg, records, order[..|order| - 1], symbol, asOfMs, cache);
    }
  }

  lemma AllRegistered(reg: Registry, order: seq<FeatureRef>)
    requires Resolved(reg, order)
    ensures forall k :: 0 <= k < |order| ==> RefKey(order[k]) in reg
  {
    hide Resolved, RefKey;
    forall k | 0 <= k < |order| ensures RefKey(order[k]) in reg {
      ResolvedRegistered(reg, order, k);
    }
  }

  /** What a plan asked for is in the cache from then on. */
  lemma {:induction false} AskedHeld(reg: Registry, actions: seq<Action>, i: nat)
    requires Planned(reg, actions) && i < |actions| && actions[i].Ask?
    ensures forall k :: 0 <= k < |actions[i].order| ==>
      CacheKey(actions[i].order[k], actions[i].symbol, actions[i].asOfMs) in Run(reg, actions).cache
    decreases |actions|
  {
    hide CacheKey, RefKey, Compute, Resolved;
    var front, a := actions[..|actions| - 1], actions[|actions| - 1];
    SessionPrefix(reg, actions, |front|);
    assert a in actions;
    if a.Ask? {
      AllRegistered(reg, a.order);
      AllStored(reg, Run(reg, front).records, a.order, a.symbol, a.asOfMs, Run(reg, front).cache);
    }
    if i < |front| {
      AskedHeld(reg, front, i);
    }
  }

  /** A plan that finds everything in the cache does not look at the records. */
  lemma {:induction false} HeldIgnoresRecords(reg: Registry, records: seq<RawRecord>, other: seq<RawRecord>,
                                              order: seq<FeatureRef>, symbol: Text, asOfMs: int, cache: Cache)
    requires forall k :: 0 <= k < |order| ==> CacheKey(order[k], symbol, asOfMs) in cache
    ensures Compute(reg, records, order, symbol, asOfMs, Some(cache)) == Compute(reg, other, order, symbol, asOfMs, Some(cache))
    ensures Compute(reg, records, order, symbol, asOfMs, Some(cache)).cache == Some(cache)
  {
    hide CacheKey, RefKey, Evaluate;
    if order != [] {
      HeldIgnoresRecords(reg, records, other, order[..|order| - 1], symbol, asOfMs, cache);
    }
  }

  /** A plan of counting features that reads a record computes something else with it. */
  lemma ReadChanges(reg: Registry, records: seq<RawRecord>, order: seq<FeatureRef>, symbol: Text, asOfMs: int,
                    r: RawRecord)
    requires Resolved(reg, order) && ReadBy(reg, order, symbol, asOfMs, r)
    requires forall key :: key in reg ==> reg[key].transform == Counting()
    ensures Plain(reg, records + [r], order, symbol, asOfMs) != Plain(reg, records, order, symbol, asOfMs)
  {
    hide Resolved, RefKey, Evaluate, Reads, Counting, Plain;
    var k :| 0 <= k < |order| && RefKey(order[k]) in reg && Reads(reg[RefKey(order[k])], symbol, asOfMs, r);
    var def := reg[RefKey(order[k])];
    assert order[..|order|] == order;
    PrefixValue(reg, records, order, |order|, k, symbol, asOfMs);
    PrefixValue(reg, records + [r], order, |order|, k, symbol, asOfMs);
    InputAppend(def, records, r, symbol, asOfMs);
    CountsInput(def, records, symbol, asOfMs, Plain(reg, records, order[..k], symbol, asOfMs));
    CountsInput(def, records + [r], symbol, asOfMs, Plain(reg, records + [r], order[..k], symbol, asOfMs));
  }

  /** A record that an earlier plan reads leaves that plan's cached answer stale. */
  lemma ReadIsStale(reg: Registry, front: seq<Action>, i: nat, r: RawRecord)
    requires WellDefined(reg) && Planned(reg, front) && Unread(reg, front) && Told(front)
    requires i < |front| && front[i].Ask? && ReadBy(reg, front[i].order, front[i].symbol, front[i].asOfMs, r)
    requires forall key :: key in reg ==> reg[key].transform == Counting()
    ensures !Fresh(reg, Run(reg, front + [Land(r)]), front[i].order, front[i].symbol, front[i].asOfMs)
  {
    hide WellDefined, Unread, Resolved, ReadBy, Counting, Compute, CacheKey, Told;
    var Ask(order, symbol, asOfMs) := front[i];
    var s := Run(reg, front);
    assert front[i] in front;
    assert (front + [Land(r)])[..|front|] == front;
    ToldAmong(front, front + [front[i]]);
    CacheNeverShows(reg, front, order, symbol, asOfMs);
    AskedHeld(reg, front, i);
    HeldIgnoresRecords(reg, s.records, s.records + [r], order, symbol, asOfMs, s.cache);
    ReadChanges(reg, s.records, order, symbol, asOfMs, r);
  }

  /** The first record that an earlier plan reads. */
  lemma {:induction false} FirstRead(reg: Registry, actions: seq<Action>) returns (i: nat, j: nat)
    requires !Unread(reg, actions)
    ensures i < j < |actions| && actions[i].Ask? && actions[j].Land? && Unread(reg, actions[..j])
    ensures ReadBy(reg, actions[i].order, actions[i].symbol, actions[i].asOfMs, actions[j].record)
  {
    hide ReadBy;
    var front := actions[..|actions| - 1];
    if Unread(reg, front) {
      i, j :| 0 <= i < j < |actions| && actions[i].Ask? && actions[j].Land?
        && ReadBy(reg, actions[i].order, actions[i].symbol, actions[i].asOfMs, actions[j].record);
      if j < |front| {
        assert false;
      }
    } else {
      i, j := FirstRead(reg, front);
      assert front[..j] == actions[..j];
    }
  }

  lemma CountingShows(reg: Registry, actions: seq<Action>)
    requires WellDefined(reg) && Planned(reg, actions) && !Unread(reg, actions) && Told(actions)
    requires forall key :: key in reg ==> reg[key].transform == Counting()
    ensures !NeverShows(reg, actions)
  {
    hide WellDefined, Unread, ReadBy, Planned, Fresh, Counting, Told;
    var i, j := FirstRead(reg, actions);
    var front := actions[..j];
    SessionPrefix(reg, actions, j);
    ToldAmong(actions, front);
    ReadIsStale(reg, front, i, actions[j].record);
    assert actions[..j + 1] == front + [Land(actions[j].record)];
    assert front[i] == actions[i];
  }

  /** A number of its own for every text. */
  function Code(t: Text): nat {
    if t == [] then 0 else Code(t[..|t| - 1]) * 0x10000 + t[|t| - 1] + 1
  }

  lemma {:induction false} CodeInjective(a: Text, b: Text)
    requires Code(a) == Code(b)
    ensures a == b
  {
    if a != [] && b != [] {
      var x, y := a[..|a| - 1], b[..|b| - 1];
      SameDigits(Code(x), a[|a| - 1], Code(y), b[|b| - 1]);
      CodeInjective(x, y);
      assert a == x + [a[|a| - 1]] && b == y + [b[|b| - 1]];
    }
  }

  lemma SameDigits(m: nat, u: CodeUnit, n: nat, v: CodeUnit)
    requires m * 0x10000 + u + 1 == n * 0x10000 + v + 1
    ensures m == n && u == v
  {
  }

  /** Tells the symbol it is asked about. */
  function Coding(): Context -> FeatureValue {
    (x: Context) => Some(Code(x.symbol) as real)
  }

  lemma {:induction false} HeldAnswers(reg: Registry, records: seq<RawRecord>, order: seq<FeatureRef>, symbol: Text,
                                       asOfMs: int, cache: Cache)
    requires forall k :: 0 <= k < |order| ==> CacheKey(order[k], symbol, asOfMs) in cache
    requires forall i, j :: 0 <= i < j < |order| ==> order[i].id != order[j].id
    ensures var p := Compute(reg, records, order, symbol, asOfMs, Some(cache));
      && p.ok && p.cache == Some(cache)
      && forall k :: 0 <= k < |order| ==>
           order[k].id in p.values && p.values[order[k].id] == cache[CacheKey(order[k], symbol, asOfMs)]
  {
    hide CacheKey, RefKey, Evaluate;
    if order != [] {
      var front := order[..|order| - 1];
      assert forall k :: 0 <= k < |front| ==> front[k] == order[k];
      HeldAnswers(reg, records, front, symbol, asOfMs, cache);
    }
  }

  /** Where a fresh answer was asked for, the cache holds the code of the symbol. */
  lemma HoldsCode(reg: Registry, actions: seq<Action>, i: nat, k: nat)
    requires Planned(reg, actions) && i < |actions| && actions[i].Ask? && k < |actions[i].order|
    requires forall key :: key in reg ==> reg[key].transform == Coding()
    requires Fresh(reg, Run(reg, actions), actions[i].order, actions[i].symbol, actions[i].asOfMs)
    ensures var key := CacheKey(actions[i].order[k], actions[i].symbol, actions[i].asOfMs);
      key in Run(reg, actions).cache && Run(reg, actions).cache[key] == Some(Code(actions[i].symbol) as real)
  {
    hide CacheKey, RefKey, Compute, DepsFirst, Run, Input, Normalize, Assess, Code;
    var Ask(order, symbol, asOfMs) := actions[i];
    var s := Run(reg, actions);
    assert actions[i] in actions;
    AskedHeld(reg, actions, i);
    HeldAnswers(reg, s.records, order, symbol, asOfMs, s.cache);
    assert order[..|order|] == order;
    PrefixValue(reg, s.records, order, |order|, k, symbol, asOfMs);
  }

  lemma CodingShows(reg: Registry, actions: seq<Action>)
    requires Planned(reg, actions) && !Told(actions)
    requires forall key :: key in reg ==> reg[key].transform == Coding()
    ensures !NeverShows(reg, actions)
  {
    hide CacheKey, Fresh, Planned, Coding, Run, Code;
    var a, b, i: nat, j: nat, key :|
      a in actions && b in actions && KeyOf(a, i, key) && KeyOf(b, j, key) && a.symbol != b.symbol;
    var m :| 0 <= m < |actions| && actions[m] == a;
    var n :| 0 <= n < |actions| && actions[n] == b;
    assert actions[..|actions|] == actions;
    if NeverShows(reg, actions) {
      HoldsCode(reg, actions, m, i);
      HoldsCode(reg, actions, n, j);
      CodeInjective(a.symbol, b.symbol);
      assert false;
    }
  }

  /** Whatever the features compute, a session of resolved plans never shows its cache
      exactly when no two symbols asked about share a key and no record lands that a plan
      asked for before reads. */
  lemma NeverShowsExactly(shape: Registry, actions: seq<Action>)
    requires WellDefined(shape) && Planned(shape, actions)
    ensures (forall reg :: SameShape(reg, shape) && WellDefined(reg) ==> NeverShows(reg, actions))
      <==> Told(actions) && Unread(shape, actions)
  {
    hide WellDefined, Unread, ReadBy, SameShape, NeverShows, Planned, Like, Told;
    if Told(actions) && Unread(shape, actions) {
      forall reg | SameShape(reg, shape) && WellDefined(reg) ensures NeverShows(reg, actions) {
        SamePlans(reg, shape, actions);
        UnreadNeverShows(reg, actions);
      }
    } else {
      var transform := if Told(actions) then Counting() else Coding();
      LikeDefined(shape, transform);
      SamePlans(Like(shape, transform), shape, actions);
      if Told(actions) {
        CountingShows(Like(shape, transform), actions);
      } else {
        CodingShows(Like(shape, transform), actions);
      }
    }
  }

  // ---- records that land late ----

  const F := FeatureRef([0x66], [0x31])
  const SYMBOL := [0x62]
  const EARLY := RawRecord(TRADE, SYMBOL, 0, 0, 1, [])

  /** Counts the records it is given. */
  const COUNTING: Registry := map[RefKey(F) := Definition([], {}, (x: Context) => Some(|x.raw| as real))]

  lemma CountsNothing(upstream: map<Text, FeatureValue>)
    ensures Evaluate(COUNTING[RefKey(F)], [], SYMBOL, 0, upstream) == Some(0.0)
  {
    hide QueryAsOf, RefKey, Assess;
    QueryNothing(AsOfQuery(0, None, Some(SYMBOL), None));
    NoneDropped([]);
  }

  lemma CountsOne(upstream: map<Text, FeatureValue>)
    ensures Evaluate(COUNTING[RefKey(F)], [EARLY], SYMBOL, 0, upstream) == Some(1.0)
  {
    hide RefKey, Assess, QueryAsOf, Filter, Normalize;
    var def, q := COUNTING[RefKey(F)], AsOfQuery(0, None, Some(SYMBOL), None);
    EarlyRead(q);
    FilterAll([EARLY], (r: RawRecord) => def.inputsRaw == {} || r.kind in def.inputsRaw);
    assert Input(def, [EARLY], SYMBOL, 0) == [EARLY];
    OneNormalized(EARLY);
  }

  lemma EarlyRead(q: AsOfQuery)
    requires q == AsOfQuery(0, None, Some(SYMBOL), None)
    ensures QueryAsOf([EARLY], q) == [EARLY]
  {
    hide QueryAsOf;
    QueryNothing(q);
    QueryAppend([], EARLY, q);
    assert [] + [EARLY] == [EARLY];
  }

  lemma OneNormalized(r: RawRecord)
    ensures Normalize([r]) == [r]
  {
    hide InOrder;
    NoneDropped([r]);
    InOrderTotal();
    SortCorrect([r], InOrder);
    SortMembers([r], InOrder);
    assert Normalize([r])[0] in Normalize([r]);
  }

  lemma OnePlan(reg: Registry, records: seq<RawRecord>, r: FeatureRef, cache: Option<Cache>)
    ensures Compute(reg, records, [r], SYMBOL, 0, cache) == Next(reg, records, SYMBOL, 0, Progress(map[], cache, true), r)
  {
    hide Next;
    assert [r][..0] == [];
  }

  /** A record that lands behind a question about its own time leaves the cached answer
      stale: the plan keeps its old value while recomputation gives a new one. */
  lemma LateRecordStale()
    ensures var s := Run(COUNTING, [Ask([F], SYMBOL, 0), Land(EARLY)]);
      && Compute(COUNTING, s.records, [F], SYMBOL, 0, Some(s.cache)).values == map[F.id := Some(0.0)]
      && Compute(COUNTING, s.records, [F], SYMBOL, 0, None).values == map[F.id := Some(1.0)]
  {
    hide Evaluate, CacheKey, RefKey, Compute;
    var ask := Ask([F], SYMBOL, 0);
    CountsNothing(map[]);
    CountsOne(map[]);
    OnePlan(COUNTING, [], F, Some(map[]));
    assert [ask, Land(EARLY)][..1] == [ask] && [ask][..0] == [];
    assert Run(COUNTING, []) == Server([], map[]);
    assert [] + [EARLY] == [EARLY];
    var cache := map[CacheKey(F, SYMBOL, 0) := Some(0.0)];
    assert Run(COUNTING, [ask]) == Server([], cache);
    OnePlan(COUNTING, [EARLY], F, Some(cache));
    OnePlan(COUNTING, [EARLY], F, None);
  }
}
