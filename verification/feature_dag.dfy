/** Feature definitions as a graph of versioned references, and the depth-first
    topological order of a dependency closure. */
module FeatureDag {
  import opened Texts

  datatype FeatureRef = FeatureRef(id: Text, version: Text)

  function RefKey(r: FeatureRef): Text {
    r.id + [0x40] + r.version
  }

  /** What each registered key depends on. */
  type Graph = map<Text, seq<FeatureRef>>

  // ---- reachability ----

  predicate Edge(g: Graph, a: Text, b: Text) {
    a in g && exists i :: 0 <= i < |g[a]| && RefKey(g[a][i]) == b
  }

  ghost predicate Path(g: Graph, p: seq<Text>) {
    p != [] && forall i :: 0 <= i < |p| - 1 ==> Edge(g, p[i], p[i + 1])
  }

  ghost predicate Leads(g: Graph, p: seq<Text>, a: Text, b: Text) {
    Path(g, p) && p[0] == a && p[|p| - 1] == b
  }

  ghost predicate Reaches(g: Graph, a: Text, b: Text) {
    exists p :: Leads(g, p, a, b)
  }

  /** The key belongs to the dependency closure of the roots. */
  ghost predicate InClosure(g: Graph, roots: seq<FeatureRef>, key: Text) {
    exists i :: 0 <= i < |roots| && Reaches(g, RefKey(roots[i]), key)
  }

  /** The key depends on itself, through at least one step. */
  ghost predicate OnCycle(g: Graph, key: Text) {
    exists p :: Leads(g, p, key, key) && |p| > 1
  }

  lemma PathExtends(g: Graph, p: seq<Text>, b: Text)
    requires Path(g, p) && Edge(g, p[|p| - 1], b)
    ensures Path(g, p + [b])
  {
    hide Edge;
  }

  lemma ClosureExtends(g: Graph, roots: seq<FeatureRef>, a: Text, b: Text)
    requires InClosure(g, roots, a) && Edge(g, a, b)
    ensures InClosure(g, roots, b)
  {
    hide Edge, Path;
    var i :| 0 <= i < |roots| && Reaches(g, RefKey(roots[i]), a);
    var p :| Leads(g, p, RefKey(roots[i]), a);
    PathExtends(g, p, b);
    assert Leads(g, p + [b], RefKey(roots[i]), b) by { FirstKept(g, p, b); }
  }

  lemma FirstKept(g: Graph, p: seq<Text>, b: Text)
    requires Path(g, p)
    ensures (p + [b])[0] == p[0]
  {
  }

  // ---- orders ----

  predicate HasKey(order: seq<FeatureRef>, key: Text) {
    exists i :: 0 <= i < |order| && RefKey(order[i]) == key
  }

  /** Every key once, registered, behind all it depends on. */
  ghost predicate DepsFirst(g: Graph, order: seq<FeatureRef>) {
    && (forall i, j :: 0 <= i < j < |order| ==> RefKey(order[i]) != RefKey(order[j]))
    && (forall i :: 0 <= i < |order| ==> Settled(g, order, i))
  }

  ghost predicate Settled(g: Graph, order: seq<FeatureRef>, i: nat)
    requires i < |order|
  {
    var key := RefKey(order[i]);
    key in g && forall d :: 0 <= d < |g[key]| ==> HasKey(order[..i], RefKey(g[key][d]))
  }

  lemma DepsFirstAppend(g: Graph, order: seq<FeatureRef>, r: FeatureRef)
    requires DepsFirst(g, order) && !HasKey(order, RefKey(r)) && RefKey(r) in g
    requires forall d :: 0 <= d < |g[RefKey(r)]| ==> HasKey(order, RefKey(g[RefKey(r)][d]))
    ensures DepsFirst(g, order + [r])
  {
    hide HasKey, RefKey;
    var next := order + [r];
    assert next[..|order|] == order;
    forall i | 0 <= i < |next| ensures Settled(g, next, i) {
      if i < |order| {
        assert Settled(g, order, i);
        assert next[..i] == order[..i];
      }
    }
    forall i, j | 0 <= i < j < |next| ensures RefKey(next[i]) != RefKey(next[j]) {
      if j == |order| && RefKey(order[i]) == RefKey(r) {
        HasAt(order, i);
        assert false;
      }
    }
  }

  lemma HasAt(order: seq<FeatureRef>, i: nat)
    requires i < |order|
    ensures HasKey(order, RefKey(order[i]))
  {
  }

  lemma HasMore(order: seq<FeatureRef>, more: seq<FeatureRef>, key: Text)
    requires order <= more && HasKey(order, key)
    ensures HasKey(more, key)
  {
    var i :| 0 <= i < |order| && RefKey(order[i]) == key;
    assert more[i] == order[i];
  }

  lemma HasAppend(order: seq<FeatureRef>, r: FeatureRef, key: Text)
    ensures HasKey(order + [r], key) <==> HasKey(order, key) || key == RefKey(r)
  {
    var next := order + [r];
    if HasKey(order, key) {
      HasMore(order, next, key);
    }
    assert next[|order|] == r;
    if HasKey(next, key) && key != RefKey(r) {
      var i :| 0 <= i < |next| && RefKey(next[i]) == key;
      assert order[i] == next[i];
    }
  }

  /** Along every path from an ordered key, positions strictly decrease. */
  lemma {:induction false} PathDescends(g: Graph, order: seq<FeatureRef>, p: seq<Text>, i: nat) returns (j: nat)
    requires DepsFirst(g, order) && Path(g, p) && i < |order| && RefKey(order[i]) == p[0]
    ensures j < |order| && RefKey(order[j]) == p[|p| - 1]
    ensures |p| > 1 ==> j < i
    decreases |p|
  {
    hide RefKey;
    if |p| == 1 {
      j := i;
    } else {
      var k := StepDescends(g, order, p[0], p[1], i);
      PathSuffix(g, p, 1);
      j := PathDescends(g, order, p[1..], k);
    }
  }

  lemma StepDescends(g: Graph, order: seq<FeatureRef>, a: Text, b: Text, i: nat) returns (k: nat)
    requires DepsFirst(g, order) && Edge(g, a, b) && i < |order| && RefKey(order[i]) == a
    ensures k < i && RefKey(order[k]) == b
  {
    hide RefKey;
    assert Settled(g, order, i);
    var d :| 0 <= d < |g[a]| && RefKey(g[a][d]) == b;
    k :| 0 <= k < |order[..i]| && RefKey(order[..i][k]) == b;
  }

  /** A key that an order contains depends on nothing unregistered and not on itself. */
  lemma OrderedAcyclic(g: Graph, order: seq<FeatureRef>, key: Text)
    requires DepsFirst(g, order) && HasKey(order, key)
    ensures key in g && !OnCycle(g, key)
  {
    hide RefKey, Path;
    var i :| 0 <= i < |order| && RefKey(order[i]) == key;
    assert Settled(g, order, i);
    if OnCycle(g, key) {
      var p :| Leads(g, p, key, key) && |p| > 1;
      var j := PathDescends(g, order, p, i);
      assert false;
    }
  }

  /** The order holds the whole closure of what it contains. */
  lemma OrderedClosed(g: Graph, order: seq<FeatureRef>, roots: seq<FeatureRef>, key: Text)
    requires DepsFirst(g, order) && InClosure(g, roots, key)
    requires forall i :: 0 <= i < |roots| ==> HasKey(order, RefKey(roots[i]))
    ensures HasKey(order, key)
  {
    hide RefKey, Path;
    var r :| 0 <= r < |roots| && Reaches(g, RefKey(roots[r]), key);
    var p :| Leads(g, p, RefKey(roots[r]), key);
    assert HasKey(order, RefKey(roots[r]));
    var i :| 0 <= i < |order| && RefKey(order[i]) == RefKey(roots[r]);
    var j := PathDescends(g, order, p, i);
  }

  // ---- the traversal ----

  datatype Mark = Visiting | Done

  datatype Outcome = Visited | Cyclic(key: Text) | Unresolved(key: Text)

  /** Why a traversal gives up: a key of the closure that is on a cycle, or unknown. */
  ghost predicate Justified(g: Graph, roots: seq<FeatureRef>, o: Outcome) {
    match o
    case Visited => true
    case Cyclic(key) => InClosure(g, roots, key) && OnCycle(g, key)
    case Unresolved(key) => InClosure(g, roots, key) && key !in g
  }

  /** What a traversal keeps on its way down from a root: finished keys are ordered,
      dependencies first, keys being visited are those on the way, and all of them
      belong to the closure. */
  ghost predicate Sound(g: Graph, roots: seq<FeatureRef>, state: map<Text, Mark>, order: seq<FeatureRef>,
                        way: seq<Text>) {
    && DepsFirst(g, order)
    && (forall k :: k in state && state[k] == Done <==> HasKey(order, k))
    && (forall k :: k in state && state[k] == Visiting <==> k in way)
    && (forall i :: 0 <= i < |order| ==> InClosure(g, roots, RefKey(order[i])))
    && (way == [] || Path(g, way))
    && (forall k :: k in way ==> InClosure(g, roots, k))
  }

  /** The key may be visited next: a root, or a dependency of the last key on the way. */
  ghost predicate Next(g: Graph, roots: seq<FeatureRef>, way: seq<Text>, key: Text) {
    InClosure(g, roots, key) && (way == [] || Edge(g, way[|way| - 1], key))
  }

  lemma WayCycles(g: Graph, roots: seq<FeatureRef>, way: seq<Text>, key: Text)
    requires way != [] && Path(g, way) && Next(g, roots, way, key) && key in way
    ensures OnCycle(g, key)
  {
    hide Edge, InClosure;
    var i :| 0 <= i < |way| && way[i] == key;
    PathExtends(g, way, key);
    PathSuffix(g, way + [key], i);
    assert Leads(g, (way + [key])[i..], key, key);
  }

  lemma PathSuffix(g: Graph, p: seq<Text>, i: nat)
    requires Path(g, p) && i < |p|
    ensures Path(g, p[i..])
  {
    hide Edge;
    forall j | 0 <= j < |p[i..]| - 1 ensures Edge(g, p[i..][j], p[i..][j + 1]) {
      assert Edge(g, p[i + j], p[i + j + 1]);
    }
  }

  lemma PathPrefix(g: Graph, p: seq<Text>, b: Text)
    requires Path(g, p + [b])
    ensures p == [] || Path(g, p)
  {
    hide Edge;
    forall j | 0 <= j < |p| - 1 ensures Edge(g, p[j], p[j + 1]) {
      assert Edge(g, (p + [b])[j], (p + [b])[j + 1]);
    }
  }

  /** What a mark tells. */
  lemma Marked(g: Graph, roots: seq<FeatureRef>, state: map<Text, Mark>, order: seq<FeatureRef>, way: seq<Text>,
               key: Text)
    requires Sound(g, roots, state, order, way) && key in state
    ensures state[key] == Done ==> HasKey(order, key)
    ensures state[key] == Visiting ==> key in way && way != [] && Path(g, way)
  {
    hide DepsFirst, HasKey, InClosure, Path;
  }

  lemma Enter(g: Graph, roots: seq<FeatureRef>, state: map<Text, Mark>, order: seq<FeatureRef>, way: seq<Text>,
              key: Text)
    requires Sound(g, roots, state, order, way) && Next(g, roots, way, key) && key !in state
    ensures Sound(g, roots, state[key := Visiting], order, way + [key])
    ensures !HasKey(order, key) && key !in way
  {
    hide Edge, InClosure, DepsFirst, HasKey;
    if way != [] {
      PathExtends(g, way, key);
    }
  }

  lemma Dependency(g: Graph, roots: seq<FeatureRef>, way: seq<Text>, key: Text, d: nat)
    requires key in g && d < |g[key]| && InClosure(g, roots, key)
    ensures Next(g, roots, way + [key], RefKey(g[key][d]))
  {
    hide InClosure, RefKey;
    assert Edge(g, key, RefKey(g[key][d]));
    ClosureExtends(g, roots, key, RefKey(g[key][d]));
  }

  lemma Leave(g: Graph, roots: seq<FeatureRef>, state: map<Text, Mark>, order: seq<FeatureRef>, way: seq<Text>,
              r: FeatureRef)
    requires Sound(g, roots, state, order, way + [RefKey(r)])
    requires RefKey(r) !in way && !HasKey(order, RefKey(r)) && RefKey(r) in g
    requires AllOrdered(order, g[RefKey(r)])
    ensures Sound(g, roots, state[RefKey(r) := Done], order + [r], way)
    ensures HasKey(order + [r], RefKey(r))
  {
    hide InClosure, DepsFirst, HasKey, RefKey, Edge;
    var key := RefKey(r);
    DepsFirstAppend(g, order, r);
    forall k ensures HasKey(order + [r], k) <==> HasKey(order, k) || k == key {
      HasAppend(order, r, k);
    }
    assert forall k :: k in way + [key] <==> k in way || k == key;
    PathPrefix(g, way, key);
  }

  /** How many registered keys have not been met. */
  function Left(g: Graph, state: map<Text, Mark>): nat {
    |g.Keys - state.Keys|
  }

  lemma LeftShrinks(g: Graph, before: map<Text, Mark>, after: map<Text, Mark>, key: Text)
    requires before.Keys <= after.Keys && key in g && key in after
    ensures Left(g, after) <= Left(g, before)
    ensures key !in before ==> Left(g, after) < Left(g, before)
  {
    var a, b := g.Keys - after.Keys, g.Keys - before.Keys;
    assert b == a + (b - a);
    if key !in before {
      assert key in b - a;
    }
  }

  class Traversal {
    const g: Graph
    ghost const roots: seq<FeatureRef>
    var state: map<Text, Mark>
    var order: seq<FeatureRef>

    constructor (g: Graph, ghost roots: seq<FeatureRef>)
      ensures this.g == g && this.roots == roots && Valid([]) && order == []
    {
      this.g := g;
      this.roots := roots;
      state, order := map[], [];
    }

    ghost predicate Valid(way: seq<Text>)
      reads this
    {
      Sound(g, roots, state, order, way)
    }

    /** Visits a reference from the end of `way`, the keys being visited above it. */
    method Visit(r: FeatureRef, ghost way: seq<Text>) returns (o: Outcome)
      requires Valid(way) && Next(g, roots, way, RefKey(r))
      modifies this
      ensures Justified(g, roots, o)
      ensures old(order) <= order && old(state).Keys <= state.Keys
      ensures o.Visited? ==> Valid(way) && HasKey(order, RefKey(r))
      decreases Left(g, state), 0
    {
      hide RefKey, Path, HasKey, DepsFirst, InClosure, OnCycle, Sound, Next, Edge, AllOrdered, Left;
      var key := RefKey(r);
      if key in state {
        Marked(g, roots, state, order, way, key);
        if state[key] == Done {
          return Visited;
        }
        WayCycles(g, roots, way, key);
        Reached(g, roots, way, key);
        return Cyclic(key);
      }
      Enter(g, roots, state, order, way, key);
      Reached(g, roots, way, key);
      state := state[key := Visiting];
      if key !in g {
        return Unresolved(key);
      }
      LeftShrinks(g, old(state), state, key);
      o := VisitDependencies(key, way);
      if o.Visited? {
        VisitedOnce(g, roots, state, order, way, key);
        Leave(g, roots, state, order, way, r);
        state := state[key := Done];
        order := order + [r];
      }
    }

    /** Visits all that the key depends on. */
    method VisitDependencies(key: Text, ghost way: seq<Text>) returns (o: Outcome)
      requires key in g && key in state && Valid(way + [key]) && InClosure(g, roots, key)
      modifies this
      ensures Justified(g, roots, o)
      ensures old(order) <= order && old(state).Keys <= state.Keys
      ensures o.Visited? ==> Valid(way + [key]) && AllOrdered(order, g[key])
      decreases Left(g, state), 1
    {
      hide RefKey, Path, HasKey, DepsFirst, InClosure, OnCycle, Sound, Next, Edge, AllOrdered, Left;
      var deps := g[key];
      o := Visited;
      NoneOrdered(order, deps);
      for d := 0 to |deps|
        invariant Valid(way + [key]) && old(order) <= order
        invariant old(state).Keys <= state.Keys && key in state
        invariant AllOrdered(order, deps[..d])
        invariant o.Visited?
      {
        ghost var before := order;
        Dependency(g, roots, way, key, d);
        LeftShrinks(g, old(state), state, key);
        o := Visit(deps[d], way + [key]);
        if !o.Visited? {
          return;
        }
        OneMoreOrdered(before, order, deps, d);
      }
      assert deps[..|deps|] == deps;
    }
  }

  ghost predicate AllOrdered(order: seq<FeatureRef>, refs: seq<FeatureRef>) {
    forall e :: 0 <= e < |refs| ==> HasKey(order, RefKey(refs[e]))
  }

  lemma NoneOrdered(order: seq<FeatureRef>, refs: seq<FeatureRef>)
    ensures AllOrdered(order, refs[..0])
  {
  }

  lemma OneMoreOrdered(order: seq<FeatureRef>, more: seq<FeatureRef>, refs: seq<FeatureRef>, d: nat)
    requires order <= more && d < |refs| && AllOrdered(order, refs[..d]) && HasKey(more, RefKey(refs[d]))
    ensures AllOrdered(more, refs[..d + 1])
  {
    hide HasKey, RefKey;
    var next := refs[..d + 1];
    forall e | 0 <= e < |next| ensures HasKey(more, RefKey(next[e])) {
      if e < d {
        assert refs[..d][e] == next[e];
        HasMore(order, more, RefKey(refs[..d][e]));
      }
    }
  }

  lemma Reached(g: Graph, roots: seq<FeatureRef>, way: seq<Text>, key: Text)
    requires Next(g, roots, way, key)
    ensures InClosure(g, roots, key)
  {
  }

  /** A key on the way is neither ordered nor on the way twice. */
  lemma VisitedOnce(g: Graph, roots: seq<FeatureRef>, state: map<Text, Mark>, order: seq<FeatureRef>, way: seq<Text>,
                    key: Text)
    requires Sound(g, roots, state, order, way + [key])
    ensures !HasKey(order, key)
  {
    hide DepsFirst, HasKey, InClosure;
    assert key in way + [key];
  }

  // ---- the order ----

  datatype Result = Sorted(order: seq<FeatureRef>) | Cycle(key: Text) | Unknown(key: Text)

  /** The order is the dependency closure of the roots, each key once, dependencies first. */
  ghost predicate IsOrder(g: Graph, roots: seq<FeatureRef>, order: seq<FeatureRef>) {
    DepsFirst(g, order) && forall key :: HasKey(order, key) <==> InClosure(g, roots, key)
  }

  /** The closure is registered and free of cycles. */
  ghost predicate Resolvable(g: Graph, roots: seq<FeatureRef>) {
    forall key :: InClosure(g, roots, key) ==> key in g && !OnCycle(g, key)
  }

  lemma OrderedResolvable(g: Graph, roots: seq<FeatureRef>, order: seq<FeatureRef>)
    requires IsOrder(g, roots, order)
    ensures Resolvable(g, roots)
  {
    hide DepsFirst, InClosure, OnCycle, HasKey;
    forall key | InClosure(g, roots, key) ensures key in g && !OnCycle(g, key) {
      OrderedAcyclic(g, order, key);
    }
  }

  method TopoOrder(g: Graph, roots: seq<FeatureRef>) returns (r: Result)
    ensures r.Sorted? ==> IsOrder(g, roots, r.order)
    ensures r.Cycle? ==> InClosure(g, roots, r.key) && OnCycle(g, r.key)
    ensures r.Unknown? ==> InClosure(g, roots, r.key) && r.key !in g
    ensures r.Sorted? <==> Resolvable(g, roots)
    ensures (forall key :: InClosure(g, roots, key) ==> key in g)
      ==> (r.Cycle? <==> exists key :: InClosure(g, roots, key) && OnCycle(g, key))
  {
    hide RefKey, Path, HasKey, DepsFirst, InClosure, OnCycle, IsOrder, Next, Edge;
    var t := new Traversal(g, roots);
    for i := 0 to |roots|
      invariant t.g == g && t.roots == roots && t.Valid([])
      invariant forall j :: 0 <= j < i ==> HasKey(t.order, RefKey(roots[j]))
      invariant fresh(t)
    {
      hide Sound;
      ghost var before := t.order;
      RootInClosure(g, roots, i);
      var o := t.Visit(roots[i], []);
      match o {
        case Cyclic(key) => return Cycle(key);
        case Unresolved(key) => return Unknown(key);
        case Visited =>
      }
      forall j | 0 <= j < i ensures HasKey(t.order, RefKey(roots[j])) {
        HasMore(before, t.order, RefKey(roots[j]));
      }
    }
    ClosureOrdered(g, roots, t.state, t.order);
    OrderedResolvable(g, roots, t.order);
    r := Sorted(t.order);
  }

  lemma RootInClosure(g: Graph, roots: seq<FeatureRef>, i: nat)
    requires i < |roots|
    ensures Next(g, roots, [], RefKey(roots[i]))
  {
    var key := RefKey(roots[i]);
    assert Leads(g, [key], key, key);
  }

  lemma ClosureOrdered(g: Graph, roots: seq<FeatureRef>, state: map<Text, Mark>, order: seq<FeatureRef>)
    requires Sound(g, roots, state, order, [])
    requires forall i :: 0 <= i < |roots| ==> HasKey(order, RefKey(roots[i]))
    ensures IsOrder(g, roots, order)
  {
    hide DepsFirst, InClosure;
    forall key ensures HasKey(order, key) <==> InClosure(g, roots, key) {
      if InClosure(g, roots, key) {
        OrderedClosed(g, order, roots, key);
      }
    }
  }

  /** True exactly when the closure of the roots is registered and acyclic. */
  method IsDag(g: Graph, roots: seq<FeatureRef>) returns (ok: bool)
    ensures ok <==> Resolvable(g, roots)
  {
    hide Resolvable;
    var r := TopoOrder(g, roots);
    ok := r.Sorted?;
  }
}
