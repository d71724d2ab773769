/** What a plan hands to the transform of each of its features. */
module FeatureContexts {
  import opened Texts
  import opened Options
  import opened Sequences
  import opened Sorting
  import opened FeatureDag
  import opened RawStores
  import opened Quality
  import opened FeatureCompute

  // ---- the records that are picked out of a log ----

  type Pick = RawRecord -> bool

  predicate PickedAt(records: seq<RawRecord>, p: Pick, i: nat) {
    i < |records| && p(records[i])
  }

  /** A picked record that carries the number of an earlier one. */
  ghost predicate RepeatAt(records: seq<RawRecord>, p: Pick, i: nat) {
    PickedAt(records, p, i) && exists j :: 0 <= j < i && p(records[j]) && records[j].seq_no == records[i].seq_no
  }

  /** A picked record that is older than an earlier one. */
  ghost predicate LateAt(records: seq<RawRecord>, p: Pick, i: nat) {
    PickedAt(records, p, i) && exists j :: 0 <= j < i && p(records[j]) && records[i].event_time_ms < records[j].event_time_ms
  }

  /** The first picked record of its number. */
  ghost predicate IsFirst(records: seq<RawRecord>, p: Pick, r: RawRecord) {
    exists i: nat :: PickedAt(records, p, i) && records[i] == r && !RepeatAt(records, p, i)
  }

  ghost function Repeats(records: seq<RawRecord>, p: Pick): set<nat> {
    set i: nat | i < |records| && RepeatAt(records, p, i)
  }

  ghost function Lates(records: seq<RawRecord>, p: Pick): set<nat> {
    set i: nat | i < |records| && LateAt(records, p, i)
  }

  ghost function Numbers(records: seq<RawRecord>, p: Pick): set<int> {
    set i | 0 <= i < |records| && p(records[i]) :: records[i].seq_no
  }

  /** What a range of numbers misses: all of them that do not occur. */
  ghost predicate IsMissing(numbers: set<int>, gaps: int) {
    if numbers == {} then gaps == 0
    else exists lo, hi :: Bounds(numbers, lo, hi) && gaps + |numbers| == hi - lo + 1
  }

  ghost predicate Bounds(numbers: set<int>, lo: int, hi: int) {
    lo in numbers && hi in numbers && forall x :: x in numbers ==> lo <= x <= hi
  }

  /** The report on the picked records as they landed. */
  ghost predicate ReportsOn(records: seq<RawRecord>, p: Pick, q: Report) {
    && q.duplicates == |Repeats(records, p)|
    && q.outOfOrder == |Lates(records, p)|
    && IsMissing(Numbers(records, p), q.gaps)
    && q.restFilled == 0
    && (DUPLICATED in q.states <==> Repeats(records, p) != {})
    && (OUT_OF_ORDER in q.states <==> Lates(records, p) != {})
    && (GAP_DETECTED in q.states <==> q.gaps > 0)
    && REST_FILLED !in q.states
    && (COMPLETE in q.states <==> q.states == {COMPLETE})
  }

  /** In order of time and number, the first picked record of every number, each once. */
  ghost predicate Prepared(records: seq<RawRecord>, p: Pick, rs: seq<RawRecord>) {
    && (forall i, j :: 0 <= i < j < |rs| ==> rs[i].event_time_ms <= rs[j].event_time_ms)
    && (forall i, j :: 0 <= i < j < |rs| && rs[i].event_time_ms == rs[j].event_time_ms ==> rs[i].seq_no < rs[j].seq_no)
    && (forall r :: r in rs <==> IsFirst(records, p, r))
  }

  lemma PickedNext(records: seq<RawRecord>, p: Pick)
    requires records != []
    ensures var (front, n: nat) := (records[..|records| - 1], |records| - 1);
      && (forall i: nat :: i < n ==> (RepeatAt(records, p, i) <==> RepeatAt(front, p, i)))
      && (forall i: nat :: i < n ==> (LateAt(records, p, i) <==> LateAt(front, p, i)))
      && Repeats(records, p) == Repeats(front, p) + (if RepeatAt(records, p, n) then {n} else {})
      && Lates(records, p) == Lates(front, p) + (if LateAt(records, p, n) then {n} else {})
      && Numbers(records, p) == Numbers(front, p) + (if p(records[n]) then {records[n].seq_no} else {})
  {
    var front, n: nat := records[..|records| - 1], |records| - 1;
    assert forall i :: 0 <= i < n ==> records[i] == front[i];
    assert forall i: nat :: i < n ==> (RepeatAt(records, p, i) <==> RepeatAt(front, p, i));
    assert forall i: nat :: i < n ==> (LateAt(records, p, i) <==> LateAt(front, p, i));
  }

  /** Counting over the filtered list is counting over the places it was picked from. */
  lemma {:induction false} CountedAt(records: seq<RawRecord>, p: Pick)
    ensures Duplicates(Filter(records, p)) == |Repeats(records, p)|
    ensures OutOfOrder(Filter(records, p)) == |Lates(records, p)|
  {
    hide RepeatAt, LateAt, SeenBefore, Late, Filter, Duplicates, OutOfOrder, Numbers;
    if records == [] {
      NonePicked(p);
      assert Repeats(records, p) == {} && Lates(records, p) == {};
    } else {
      var front, n: nat := records[..|records| - 1], |records| - 1;
      CountedAt(front, p);
      PickedNext(records, p);
      assert n !in Repeats(front, p) && n !in Lates(front, p);
      assert records == front + [records[n]];
      FilterSnoc(front, records[n], p);
      NewPicked(records, p);
      if p(records[n]) {
        CountLast(Filter(front, p), records[n]);
      } else {
        assert Filter(front, p) + [] == Filter(front, p);
      }
    }
  }

  lemma NonePicked(p: Pick)
    ensures Filter([], p) == [] && Duplicates([]) == 0 == OutOfOrder([])
  {
  }

  lemma CountLast(rs: seq<RawRecord>, r: RawRecord)
    ensures Duplicates(rs + [r]) == Duplicates(rs) + if SeenBefore(rs + [r], |rs|) then 1 else 0
    ensures OutOfOrder(rs + [r]) == OutOfOrder(rs) + if Late(rs + [r], |rs|) then 1 else 0
  {
    hide SeenBefore, Late;
    assert (rs + [r])[..|rs|] == rs;
  }

  lemma SeenAmong(rs: seq<RawRecord>, r: RawRecord)
    ensures SeenBefore(rs + [r], |rs|) <==> exists x :: x in rs && x.seq_no == r.seq_no
    ensures Late(rs + [r], |rs|) <==> exists x :: x in rs && r.event_time_ms < x.event_time_ms
  {
    var all := rs + [r];
    if SeenBefore(all, |rs|) {
      var j :| 0 <= j < |rs| && all[j].seq_no == r.seq_no;
      assert rs[j] in rs;
    }
    if Late(all, |rs|) {
      var j :| 0 <= j < |rs| && r.event_time_ms < all[j].event_time_ms;
      assert rs[j] in rs;
    }
    forall x | x in rs ensures exists j :: 0 <= j < |rs| && all[j] == x {
      var j :| 0 <= j < |rs| && rs[j] == x;
      assert all[j] == x;
    }
  }

  lemma PickedAmong(records: seq<RawRecord>, p: Pick, n: nat)
    requires n < |records|
    ensures RepeatAt(records, p, n)
      <==> p(records[n]) && exists x :: x in Filter(records[..n], p) && x.seq_no == records[n].seq_no
    ensures LateAt(records, p, n)
      <==> p(records[n]) && exists x :: x in Filter(records[..n], p) && records[n].event_time_ms < x.event_time_ms
  {
    var front := records[..n];
    var rs := Filter(front, p);
    forall j | 0 <= j < n && p(records[j]) ensures records[j] in rs {
      assert front[j] == records[j];
    }
    forall x | x in rs ensures exists j :: 0 <= j < n && records[j] == x && p(records[j]) {
      var k :| 0 <= k < |rs| && rs[k] == x;
      assert x in front;
      var j :| 0 <= j < n && front[j] == x;
      assert records[j] == x;
    }
  }

  /** Whether the last picked record repeats a number or is late. */
  lemma NewPicked(records: seq<RawRecord>, p: Pick)
    requires records != []
    ensures var (n: nat, rs) := (|records| - 1, Filter(records[..|records| - 1], p));
      && (RepeatAt(records, p, n) <==> p(records[n]) && SeenBefore(rs + [records[n]], |rs|))
      && (LateAt(records, p, n) <==> p(records[n]) && Late(rs + [records[n]], |rs|))
  {
    hide RepeatAt, LateAt, SeenBefore, Late, Filter;
    PickedAmong(records, p, |records| - 1);
    SeenAmong(Filter(records[..|records| - 1], p), records[|records| - 1]);
  }

  lemma {:induction false} FirstsAt(records: seq<RawRecord>, p: Pick, r: RawRecord)
    ensures r in Dedupe(Filter(records, p)) <==> IsFirst(records, p, r)
  {
    hide RepeatAt, LateAt, SeenBefore, Filter, Dedupe, Numbers, Repeats, Lates;
    NoneDeduped(p);
    if records != [] {
      var front, n: nat := records[..|records| - 1], |records| - 1;
      FirstsAt(front, p, r);
      PickedNext(records, p);
      FirstNext(records, p, r);
      assert records == front + [records[n]];
      FilterSnoc(front, records[n], p);
      NewPicked(records, p);
      DedupeLast(Filter(front, p), records[n]);
      assert Filter(front, p) + [] == Filter(front, p);
    }
  }

  lemma FirstNext(records: seq<RawRecord>, p: Pick, r: RawRecord)
    requires records != []
    requires var (front, n: nat) := (records[..|records| - 1], |records| - 1);
      forall i: nat :: i < n ==> (RepeatAt(records, p, i) <==> RepeatAt(front, p, i))
    ensures var (front, n: nat) := (records[..|records| - 1], |records| - 1);
      IsFirst(records, p, r) <==> IsFirst(front, p, r) || (r == records[n] && p(r) && !RepeatAt(records, p, n))
  {
    hide RepeatAt;
    var front, n: nat := records[..|records| - 1], |records| - 1;
    if IsFirst(front, p, r) {
      var i: nat :| PickedAt(front, p, i) && front[i] == r && !RepeatAt(front, p, i);
      assert PickedAt(records, p, i) && records[i] == r && !RepeatAt(records, p, i);
    }
    if r == records[n] && p(r) && !RepeatAt(records, p, n) {
      assert PickedAt(records, p, n);
    }
    if IsFirst(records, p, r) {
      var i: nat :| PickedAt(records, p, i) && records[i] == r && !RepeatAt(records, p, i);
      if i < n {
        assert PickedAt(front, p, i) && front[i] == r && !RepeatAt(front, p, i);
      }
    }
  }

  lemma NoneDeduped(p: Pick)
    ensures Dedupe(Filter([], p)) == []
    ensures forall r :: !IsFirst([], p, r)
  {
  }

  lemma DedupeLast(rs: seq<RawRecord>, r: RawRecord)
    ensures Dedupe(rs + [r]) == Dedupe(rs) + if SeenBefore(rs + [r], |rs|) then [] else [r]
  {
    hide SeenBefore;
    assert (rs + [r])[..|rs|] == rs;
  }

  lemma NumbersAre(records: seq<RawRecord>, p: Pick)
    ensures Occurring(Seqs(Filter(records, p))) == Numbers(records, p)
  {
    var rs := Filter(records, p);
    forall x ensures x in Occurring(Seqs(rs)) <==> x in Numbers(records, p) {
      if x in Seqs(rs) {
        var k :| 0 <= k < |rs| && rs[k].seq_no == x;
        var i :| 0 <= i < |records| && records[i] == rs[k];
      }
      if x in Numbers(records, p) {
        var i :| 0 <= i < |records| && p(records[i]) && records[i].seq_no == x;
        assert records[i] in rs;
        var k :| 0 <= k < |rs| && rs[k] == records[i];
        assert Seqs(rs)[k] == x;
      }
    }
  }

  lemma GapsMissing(seqs: seq<int>)
    ensures IsMissing(Occurring(seqs), Gaps(seqs))
  {
    if seqs == [] {
      assert Occurring(seqs) == {};
    } else {
      hide Gaps;
      GapsAreWhatIsMissing(seqs);
      var lo, hi :| Spans(seqs, lo, hi) && Gaps(seqs) + |Occurring(seqs)| == hi - lo + 1;
      assert Bounds(Occurring(seqs), lo, hi);
      assert seqs[0] in Occurring(seqs);
    }
  }

  /** The report on filtered input counts what the records at their places say. */
  lemma ReportTells(records: seq<RawRecord>, p: Pick)
    ensures ReportsOn(records, p, Assess(Filter(records, p), {}))
  {
    hide Filter, Duplicates, OutOfOrder, Gaps, Repeats, Lates, Numbers, IsMissing, Occurring, Seqs;
    var rs := Filter(records, p);
    CountedAt(records, p);
    NumbersAre(records, p);
    GapsMissing(Seqs(rs));
    NoneFilled(rs);
    StatesTell(Duplicates(rs), OutOfOrder(rs), Gaps(Seqs(rs)));
  }

  lemma StatesTell(d: nat, o: nat, g: int)
    ensures var s := States(d, o, g, 0);
      && (DUPLICATED in s <==> d > 0) && (OUT_OF_ORDER in s <==> o > 0) && (GAP_DETECTED in s <==> g > 0)
      && REST_FILLED !in s && (COMPLETE in s <==> s == {COMPLETE})
  {
  }

  lemma NormalizedPrepared(records: seq<RawRecord>, p: Pick)
    ensures Prepared(records, p, Normalize(Filter(records, p)))
  {
    hide Filter, Dedupe, IsFirst;
    var all := Dedupe(Filter(records, p));
    var rs := Normalize(Filter(records, p));
    InOrderTotal();
    SortCorrect(all, InOrder);
    SortMembers(all, InOrder);
    DedupeKeepsFirsts(Filter(records, p));
    forall r ensures r in rs <==> IsFirst(records, p, r) {
      FirstsAt(records, p, r);
    }
    assert forall i, j :: 0 <= i < j < |rs| ==> InOrder(rs[i], rs[j]);
    forall i, j | 0 <= i < j < |rs| ensures rs[i].seq_no != rs[j].seq_no {
      NumberedOnce(all, rs, i, j);
    }
  }

  lemma NumberedOnce(a: seq<RawRecord>, b: seq<RawRecord>, i: nat, j: nat)
    requires multiset(a) == multiset(b) && i < j < |b|
    requires forall k, l :: 0 <= k < l < |a| ==> a[k].seq_no != a[l].seq_no
    ensures b[i].seq_no != b[j].seq_no
  {
    DistinctSeqs(a, b);
  }

  // ---- the context of a feature in a plan ----

  /** What a feature reads: known at the asked time, about the asked symbol, all symbols if
      that is empty, and of a declared kind, any if none is declared. */
  ghost function ReadBy(def: Definition, symbol: Text, asOfMs: int): Pick {
    (r: RawRecord) =>
      && r.event_time_ms <= asOfMs
      && (symbol == [] || r.symbol == symbol)
      && (def.inputsRaw == {} || r.kind in def.inputsRaw)
  }

  predicate Listed(order: seq<FeatureRef>, id: Text) {
    exists k :: 0 <= k < |order| && order[k].id == id
  }

  /** The context at a position of a plan whose features have these values. */
  ghost predicate IsContext(def: Definition, records: seq<RawRecord>, order: seq<FeatureRef>, i: nat, symbol: Text, asOfMs: int,
                            values: map<Text, FeatureValue>, x: Context)
    requires i < |order|
  {
    && x.symbol == symbol && x.asOfMs == asOfMs
    && (forall id :: id in x.upstream <==> Listed(order[..i], id))
    && (forall k :: 0 <= k < i ==> order[k].id in values && x.upstream[order[k].id] == values[order[k].id])
    && Prepared(records, ReadBy(def, symbol, asOfMs), x.raw)
    && ReportsOn(records, ReadBy(def, symbol, asOfMs), x.quality)
  }

  lemma {:induction false} InputIsRead(def: Definition, records: seq<RawRecord>, symbol: Text, asOfMs: int)
    ensures Input(def, records, symbol, asOfMs) == Filter(records, ReadBy(def, symbol, asOfMs))
  {
    hide Input, Filter, Reads;
    if records == [] {
      NothingRead(def, symbol, asOfMs);
    } else {
      var front, r := records[..|records| - 1], records[|records| - 1];
      InputIsRead(def, front, symbol, asOfMs);
      InputAppend(def, front, r, symbol, asOfMs);
      FilterSnoc(front, r, ReadBy(def, symbol, asOfMs));
      ReadsAlike(def, symbol, asOfMs, r);
      assert records == front + [r];
    }
  }

  lemma NothingRead(def: Definition, symbol: Text, asOfMs: int)
    ensures Input(def, [], symbol, asOfMs) == [] == Filter([], ReadBy(def, symbol, asOfMs))
  {
    QueryNothing(AsOfQuery(asOfMs, None, Some(symbol), None));
  }

  lemma ReadsAlike(def: Definition, symbol: Text, asOfMs: int, r: RawRecord)
    ensures ReadBy(def, symbol, asOfMs)(r) <==> Reads(def, symbol, asOfMs, r)
  {
  }

  lemma {:induction false} PlainKeys(reg: Registry, records: seq<RawRecord>, order: seq<FeatureRef>, symbol: Text, asOfMs: int)
    requires Resolved(reg, order)
    ensures forall id :: id in Plain(reg, records, order, symbol, asOfMs) <==> Listed(order, id)
  {
    hide Evaluate, RefKey, CacheKey, Resolved, Listed;
    NoneListed();
    if order != [] {
      var n := |order| - 1;
      var front := order[..n];
      ResolvedPrefix(reg, order, n);
      ResolvedRegistered(reg, order, n);
      PlainKeys(reg, records, front, symbol, asOfMs);
      PlainValues(reg, records, front, symbol, asOfMs);
      PlainNoCache(reg, records, front, symbol, asOfMs);
      assert Plain(reg, records, order, symbol, asOfMs)
        == Plain(reg, records, front, symbol, asOfMs)[order[n].id := ValueAt(reg, records, order, n, symbol, asOfMs)];
      KeysNext(Plain(reg, records, front, symbol, asOfMs), order, ValueAt(reg, records, order, n, symbol, asOfMs),
               Plain(reg, records, order, symbol, asOfMs));
    }
  }

  lemma NoneListed()
    ensures forall id :: !Listed([], id)
  {
  }

  lemma KeysNext(before: map<Text, FeatureValue>, order: seq<FeatureRef>, v: FeatureValue, after: map<Text, FeatureValue>)
    requires order != [] && after == before[order[|order| - 1].id := v]
    requires forall id :: id in before <==> Listed(order[..|order| - 1], id)
    ensures forall id :: id in after <==> Listed(order, id)
  {
    var front, n := order[..|order| - 1], |order| - 1;
    forall id ensures Listed(order, id) <==> Listed(front, id) || id == order[n].id {
      if Listed(front, id) {
        var k :| 0 <= k < |front| && front[k].id == id;
        assert order[k].id == id;
      }
      if Listed(order, id) {
        var k :| 0 <= k < |order| && order[k].id == id;
        assert k < n ==> front[k].id == id;
      }
    }
  }

  /** Every feature of a resolved plan has the value of its transform on this context. */
  lemma HandsOver(reg: Registry, records: seq<RawRecord>, order: seq<FeatureRef>, i: nat, symbol: Text, asOfMs: int) returns (x: Context)
    requires Resolved(reg, order) && i < |order|
    ensures var p := Compute(reg, records, order, symbol, asOfMs, None);
      && p.ok && RefKey(order[i]) in reg && order[i].id in p.values
      && IsContext(reg[RefKey(order[i])], records, order, i, symbol, asOfMs, p.values, x)
      && p.values[order[i].id] == reg[RefKey(order[i])].transform(x)
  {
    hide Input, Normalize, Assess, RefKey, Compute, Resolved, Prepared, ReportsOn, ReadBy, CacheKey;
    ResolvedRegistered(reg, order, i);
    var def := reg[RefKey(order[i])];
    var raw := Input(def, records, symbol, asOfMs);
    var values := Plain(reg, records, order, symbol, asOfMs);
    var before := Plain(reg, records, order[..i], symbol, asOfMs);
    x := Context(symbol, asOfMs, Normalize(raw), before, Assess(raw, {}));
    InputIsRead(def, records, symbol, asOfMs);
    NormalizedPrepared(records, ReadBy(def, symbol, asOfMs));
    ReportTells(records, ReadBy(def, symbol, asOfMs));
    PlainValues(reg, records, order, symbol, asOfMs);
    assert HeldAt(reg, records, order, i, symbol, asOfMs, values);
    ResolvedPrefix(reg, order, i);
    PlainKeys(reg, records, order[..i], symbol, asOfMs);
    assert forall k :: 0 <= k < i ==> order[..i][k] == order[k];
    forall k | 0 <= k < i ensures order[k].id in values && order[k].id in before && before[order[k].id] == values[order[k].id] {
      PrefixValue(reg, records, order, i, k, symbol, asOfMs);
      assert HeldAt(reg, records, order, k, symbol, asOfMs, values);
    }
  }

  /** A transform that gives what a declared dependency holds has the dependency's value. */
  lemma DependencyHandedOver(reg: Registry, records: seq<RawRecord>, order: seq<FeatureRef>, i: nat, symbol: Text, asOfMs: int, d: nat)
    requires WellDefined(reg) && Resolved(reg, order) && i < |order| && RefKey(order[i]) in reg
    requires d < |reg[RefKey(order[i])].dependencies|
    requires var id := reg[RefKey(order[i])].dependencies[d].id;
      forall x: Context :: reg[RefKey(order[i])].transform(x) == if id in x.upstream then x.upstream[id] else None
    ensures var values := Compute(reg, records, order, symbol, asOfMs, None).values;
      var id := reg[RefKey(order[i])].dependencies[d].id;
      order[i].id in values && id in values && values[order[i].id] == values[id]
  {
    hide RefKey, Compute, Resolved, Prepared, ReportsOn, CacheKey, WellDefined;
    var k := DependencyAt(reg, order, i, d);
    var x := HandsOver(reg, records, order, i, symbol, asOfMs);
  }

  /** Without a cache, a plan is computed exactly when all its features are registered. */
  lemma {:induction false} ComputesExactly(reg: Registry, records: seq<RawRecord>, order: seq<FeatureRef>, symbol: Text, asOfMs: int)
    ensures Compute(reg, records, order, symbol, asOfMs, None).ok <==> forall i :: 0 <= i < |order| ==> RefKey(order[i]) in reg
    ensures Compute(reg, records, order, symbol, asOfMs, None).cache.None?
  {
    hide Evaluate, RefKey, CacheKey;
    if order != [] {
      ComputesExactly(reg, records, order[..|order| - 1], symbol, asOfMs);
    }
  }
}
