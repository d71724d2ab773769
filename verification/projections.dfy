/** Projections as folds over the log, the same for live runs and replays. */
module Projections {
  import opened Texts
  import opened Options
  import opened Sequences
  import opened Sorting
  import opened CanonicalJson
  import JsonReader
  import opened EventLog
  import T = Transitions

  datatype Projection<!S> = Projection(name: Text, initial: S, step: (S, Stored) -> S)

  type Upcaster = Stored -> Stored

  function Upcast(up: Option<Upcaster>, e: Stored): Stored {
    match up
    case None => e
    case Some(f) => f(e)
  }

  /** The state after the events, starting from `state`. */
  function Fold<S>(events: seq<Stored>, p: Projection<S>, up: Option<Upcaster>, state: S): S {
    if events == [] then state
    else p.step(Fold(events[..|events| - 1], p, up, state), Upcast(up, events[|events| - 1]))
  }

  function Sent(events: seq<Stored>, up: Option<Upcaster>): seq<Stored> {
    Map(events, (e: Stored) => Upcast(up, e))
  }

  /** The pipeline of live runs and replays; a replay has no sink, so it sends nothing,
      and computes the same state. */
  method RunPipeline<S>(source: seq<Stored>, p: Projection<S>, up: Option<Upcaster>, sink: bool)
    returns (state: S, sent: seq<Stored>)
    ensures state == Fold(source, p, up, p.initial)
    ensures sent == if sink then Sent(source, up) else []
  {
    state, sent := p.initial, [];
    for i := 0 to |source|
      invariant state == Fold(source[..i], p, up, p.initial)
      invariant sent == if sink then Sent(source[..i], up) else []
    {
      assert source[..i + 1][..i] == source[..i];
      var e := Upcast(up, source[i]);
      state := p.step(state, e);
      if sink {
        sent := sent + [e];
      }
    }
    assert source[..|source|] == source;
  }

  /** Stopping anywhere and going on gives the same state as one pass. */
  lemma {:induction false} FoldContinues<S>(a: seq<Stored>, b: seq<Stored>, p: Projection<S>, up: Option<Upcaster>,
                                            state: S)
    ensures Fold(a + b, p, up, state) == Fold(b, p, up, Fold(a, p, up, state))
  {
    if b == [] {
      assert a + b == a;
    } else {
      FoldContinues(a, b[..|b| - 1], p, up, state);
      assert (a + b)[..|a + b| - 1] == a + b[..|b| - 1];
    }
  }

  /** One more event is one more step, on the event as the upcaster gives it. */
  lemma FoldNext<S>(events: seq<Stored>, e: Stored, p: Projection<S>, up: Upcaster, state: S)
    ensures Fold([], p, Some(up), state) == state == Fold([], p, None, state)
    ensures Fold(events + [e], p, Some(up), state) == p.step(Fold(events, p, Some(up), state), up(e))
    ensures Fold(events + [e], p, None, state) == p.step(Fold(events, p, None, state), e)
  {
    assert (events + [e])[..|events|] == events;
  }

  /** Materialized projections, disposable at any time. */
  class ProjectionEngine<!S(==)> {
    const up: Option<Upcaster>
    var cache: map<Text, S>

    constructor (up: Option<Upcaster>)
      ensures this.up == up && cache == map[]
    {
      this.up := up;
      cache := map[];
    }

    method Build(source: seq<Stored>, p: Projection<S>) returns (state: S)
      modifies this
      ensures state == Fold(source, p, up, p.initial) && cache == old(cache)[p.name := state]
    {
      var built, _ := RunPipeline(source, p, up, false);
      state := built;
      cache := cache[p.name := state];
    }

    method Delete(name: Text)
      modifies this
      ensures cache == old(cache) - {name}
    {
      cache := cache - {name};
    }

    /** Deleting and rebuilding gives what a build gives, whatever was cached. */
    method Rebuild(source: seq<Stored>, p: Projection<S>) returns (state: S)
      modifies this
      ensures state == Fold(source, p, up, p.initial) && cache == old(cache)[p.name := state]
    {
      Delete(p.name);
      state := Build(source, p);
    }
  }

  // ---- decisions ----

  datatype DecisionRecord = DecisionRecord(
    decision_id: Text,
    correlation_id: Text,
    event_time: Text,
    decided_at: Text,
    snapshot_id: Text,
    source_event_ids: seq<Text>,
    action: Value,
    reason: Value)

  predicate BySeq(a: Stored, b: Stored) { a.seqNo <= b.seqNo }

  function FindSnapshot(events: seq<Stored>): Text {
    if events == [] then Lit("unknown")
    else
      match events[0].input.snapshot_id
      case Some(id) => if id != [] then id else FindSnapshot(events[1..])
      case None => FindSnapshot(events[1..])
  }

  function FindOutcome(events: seq<Stored>): Option<Stored> {
    if events == [] then None
    else if events[0].input.event_type == Lit("Decision.outcome") then Some(events[0])
    else FindOutcome(events[1..])
  }

  /** The payload of the outcome event, or holding when there is none or it is empty. */
  function Outcome(events: seq<Stored>): Value {
    var none := Obj([(Lit("action"), Str(Lit("hold"))), (Lit("reason"), Str(Lit("no outcome event")))]);
    match FindOutcome(events)
    case None => none
    case Some(e) => if e.input.payload == Null || e.input.payload == Undefined then none else e.input.payload
  }

  function EventId(e: Stored): Text { e.input.event_id }

  function RecordOf(ordered: seq<Stored>): DecisionRecord
    requires ordered != []
  {
    var first, last := ordered[0].input, ordered[|ordered| - 1].input;
    DecisionRecord(Lit("decision:") + first.correlation_id, first.correlation_id, first.event_time, last.event_time,
                   FindSnapshot(ordered), Map(ordered, EventId),
                   T.Get(Outcome(ordered), Lit("action")), T.Get(Outcome(ordered), Lit("reason")))
  }

  lemma BySeqTotal()
    ensures TotalPreorder<Stored>(BySeq)
  {
  }

  function ProjectDecision(events: seq<Stored>): Option<DecisionRecord> {
    var ordered := Sort(events, BySeq);
    if ordered == [] then None else Some(RecordOf(ordered))
  }

  /** Numbers tell the events apart. */
  ghost predicate DistinctNumbers(events: seq<Stored>) {
    forall a, b :: a in events && b in events && a.seqNo == b.seqNo ==> a == b
  }

  /** A record depends on which events there are, not on the order they come in, and names
      every one of them. */
  lemma RecordOfAnyOrder(a: seq<Stored>, b: seq<Stored>)
    requires multiset(a) == multiset(b) && DistinctNumbers(a)
    ensures ProjectDecision(a) == ProjectDecision(b)
    ensures ProjectDecision(a).Some? <==> a != []
    ensures a != [] ==> forall id :: id in ProjectDecision(a).value.source_event_ids <==> exists e :: e in a && e.input.event_id == id
  {
    hide Outcome, FindSnapshot, Lit;
    BySeqTotal();
    assert TiesAreEqual(a, BySeq);
    SortInvariant(a, b, BySeq);
    SortCorrect(a, BySeq);
    SortMembers(a, BySeq);
    if a != [] {
      var ordered := Sort(a, BySeq);
      forall id ensures id in Map(ordered, EventId) <==> exists e :: e in a && e.input.event_id == id {
        if id in Map(ordered, EventId) {
          var i :| 0 <= i < |ordered| && Map(ordered, EventId)[i] == id;
          assert ordered[i] in a;
        }
        if exists e :: e in a && e.input.event_id == id {
          var e :| e in a && e.input.event_id == id;
          assert e in ordered;
          var i :| 0 <= i < |ordered| && ordered[i] == e;
          assert Map(ordered, EventId)[i] == id;
        }
      }
    }
  }

  ghost predicate IsFirst(events: seq<Stored>, e: Stored) {
    e in events && forall f :: f in events ==> e.seqNo <= f.seqNo
  }

  ghost predicate IsLast(events: seq<Stored>, e: Stored) {
    e in events && forall f :: f in events ==> f.seqNo <= e.seqNo
  }

  /** A record starts with the event that has the least number and is decided at the one
      that has the greatest. */
  lemma RecordSpans(events: seq<Stored>) returns (first: Stored, last: Stored)
    requires events != []
    ensures IsFirst(events, first) && IsLast(events, last)
    ensures ProjectDecision(events).Some?
    ensures var d := ProjectDecision(events).value;
      && d.event_time == first.input.event_time && d.correlation_id == first.input.correlation_id
      && d.decided_at == last.input.event_time
  {
    hide Outcome, FindSnapshot, Lit, Sort;
    BySeqTotal();
    SortCorrect(events, BySeq);
    SortMembers(events, BySeq);
    var ordered := Sort(events, BySeq);
    first, last := ordered[0], ordered[|ordered| - 1];
    forall f | f in events ensures first.seqNo <= f.seqNo <= last.seqNo {
      assert f in ordered;
      var k :| 0 <= k < |ordered| && ordered[k] == f;
      assert k > 0 ==> BySeq(ordered[0], ordered[k]);
      assert k < |ordered| - 1 ==> BySeq(ordered[k], ordered[|ordered| - 1]);
    }
    assert first in ordered && last in ordered;
  }

  /** What an object holds under a key; nothing has a field that no pair names. */
  ghost predicate IsField(v: Value, key: Text, x: Value) {
    if v.Obj? && exists i :: 0 <= i < |v.fields| && v.fields[i].0 == key then
      exists i :: 0 <= i < |v.fields| && v.fields[i] == (key, x) && forall j :: 0 <= j < i ==> v.fields[j].0 != key
    else x == Undefined
  }

  /** The place of the first event of a kind; none of it if that is the length. */
  ghost predicate FirstAt(events: seq<Stored>, kind: Stored -> bool, k: nat) {
    k <= |events| && (forall j :: 0 <= j < k ==> !kind(events[j])) && (k < |events| ==> kind(events[k]))
  }

  function IsOutcome(): Stored -> bool {
    (e: Stored) => e.input.event_type == Lit("Decision.outcome")
  }

  function HasSnapshot(): Stored -> bool {
    (e: Stored) => e.input.snapshot_id.Some? && e.input.snapshot_id.value != []
  }

  lemma {:induction false} OutcomeAt(events: seq<Stored>, k: nat)
    requires FirstAt(events, IsOutcome(), k)
    ensures FindOutcome(events) == if k < |events| then Some(events[k]) else None
  {
    hide Lit;
    if events != [] && k > 0 {
      assert FirstAt(events[1..], IsOutcome(), k - 1);
      OutcomeAt(events[1..], k - 1);
    }
  }

  lemma {:induction false} SnapshotAt(events: seq<Stored>, k: nat)
    requires FirstAt(events, HasSnapshot(), k)
    ensures FindSnapshot(events) == if k < |events| then events[k].input.snapshot_id.value else Lit("unknown")
  {
    hide Lit;
    if events != [] && k > 0 {
      assert FirstAt(events[1..], HasSnapshot(), k - 1);
      SnapshotAt(events[1..], k - 1);
    }
  }

  lemma {:induction false} FirstExists(events: seq<Stored>, kind: Stored -> bool) returns (k: nat)
    ensures FirstAt(events, kind, k)
  {
    if events == [] || kind(events[0]) {
      k := 0;
    } else {
      var i := FirstExists(events[1..], kind);
      k := i + 1;
      assert forall j :: 0 < j < k ==> events[j] == events[1..][j - 1];
    }
  }

  lemma {:induction false} LookupTells(fields: seq<(Text, Value)>, key: Text)
    ensures IsField(Obj(fields), key, T.Lookup(fields, key))
  {
    var v, x := Obj(fields), T.Lookup(fields, key);
    if fields != [] {
      if fields[0].0 == key {
        assert v.fields[0] == (key, x);
      } else {
        LookupTells(fields[1..], key);
        assert forall j :: 0 < j < |fields| ==> fields[j] == fields[1..][j - 1];
        if i :| 0 <= i < |fields| && fields[i].0 == key {
          assert fields[1..][i - 1].0 == key;
          var k :| 0 <= k < |fields[1..]| && fields[1..][k] == (key, x) && forall j :: 0 <= j < k ==> fields[1..][j].0 != key;
          assert v.fields[k + 1] == (key, x);
        }
      }
    }
  }

  lemma GetTells(v: Value, key: Text)
    ensures IsField(v, key, T.Get(v, key))
  {
    if v.Obj? {
      LookupTells(v.fields, key);
    }
  }

  /** What a record says, from the events by number: the ids of all of them, the first
      snapshot that is named, and the action and the reason of the first outcome event;
      holding without one, or when it says nothing. */
  lemma RecordTells(events: seq<Stored>) returns (ordered: seq<Stored>, snapshot: nat, outcome: nat)
    requires events != []
    ensures multiset(ordered) == multiset(events)
    ensures forall i, j :: 0 <= i < j < |ordered| ==> ordered[i].seqNo <= ordered[j].seqNo
    ensures FirstAt(ordered, HasSnapshot(), snapshot) && FirstAt(ordered, IsOutcome(), outcome)
    ensures ProjectDecision(events).Some?
    ensures var d := ProjectDecision(events).value;
      && d.decision_id == Lit("decision:") + d.correlation_id
      && |d.source_event_ids| == |ordered|
      && (forall i :: 0 <= i < |ordered| ==> d.source_event_ids[i] == ordered[i].input.event_id)
      && d.snapshot_id == (if snapshot < |ordered| then ordered[snapshot].input.snapshot_id.value else Lit("unknown"))
      && (if outcome < |ordered| && ordered[outcome].input.payload != Null && ordered[outcome].input.payload != Undefined then
            var said := ordered[outcome].input.payload;
            IsField(said, Lit("action"), d.action) && IsField(said, Lit("reason"), d.reason)
          else
            d.action == Str(Lit("hold")) && d.reason == Str(Lit("no outcome event")))
  {
    hide Lit, Sort, FindOutcome, FindSnapshot, FirstAt, T.Get, IsField;
    BySeqTotal();
    SortCorrect(events, BySeq);
    ordered := Sort(events, BySeq);
    forall i, j | 0 <= i < j < |ordered| ensures ordered[i].seqNo <= ordered[j].seqNo {
      assert BySeq(ordered[i], ordered[j]);
    }
    snapshot := FirstExists(ordered, HasSnapshot());
    outcome := FirstExists(ordered, IsOutcome());
    SnapshotAt(ordered, snapshot);
    OutcomeAt(ordered, outcome);
    GetTells(Outcome(ordered), Lit("action"));
    GetTells(Outcome(ordered), Lit("reason"));
    HoldTells();
  }

  lemma HoldTells()
    ensures var none := Obj([(Lit("action"), Str(Lit("hold"))), (Lit("reason"), Str(Lit("no outcome event")))]);
      T.Get(none, Lit("action")) == Str(Lit("hold")) && T.Get(none, Lit("reason")) == Str(Lit("no outcome event"))
  {
    var none := Obj([(Lit("action"), Str(Lit("hold"))), (Lit("reason"), Str(Lit("no outcome event")))]);
    assert Lit("action")[0] != Lit("reason")[0];
    T.LookupHere(none.fields, 0);
    T.LookupHere(none.fields, 1);
  }

  // ---- the hash of a record ----

  function TextValues(ts: seq<Text>): (r: seq<Value>)
    ensures |r| == |ts| && forall i :: 0 <= i < |ts| ==> r[i] == Str(ts[i])
  {
    Map(ts, (t: Text) => Str(t))
  }

  function RecordFields(d: DecisionRecord): seq<(Text, Value)> {
    [ (Lit("decision_id"), Str(d.decision_id)),
      (Lit("correlation_id"), Str(d.correlation_id)),
      (Lit("event_time"), Str(d.event_time)),
      (Lit("decided_at"), Str(d.decided_at)),
      (Lit("engine_version"), Str(Lit("0.0.0"))),
      (Lit("snapshot_id"), Str(d.snapshot_id)),
      (Lit("data_snapshot_ref"), Str(Lit("n/a"))),
      (Lit("schema_version"), Num(NatNumber(1))),
      (Lit("source_event_ids"), Arr(TextValues(d.source_event_ids))),
      (Lit("outcome"), Obj([(Lit("action"), d.action), (Lit("reason"), d.reason)])) ]
  }

  function RecordTag(name: Text): int {
    match |name|
    case 10 => if name[0] == Unit('e') then 2 else 3
    case 11 => if name[0] == Unit('d') then 0 else 5
    case 14 => if name[0] == Unit('c') then 1 else if name[0] == Unit('e') then 4 else 7
    case 17 => 6
    case 16 => 8
    case _ => 9
  }

  lemma RecordTags(d: DecisionRecord)
    ensures var fs := RecordFields(d); |fs| == 10 && forall i :: 0 <= i < 10 ==> RecordTag(fs[i].0) == i
  {
    hide NatNumber;
  }

  lemma RecordValid(d: DecisionRecord)
    requires Valid(d.action) && Valid(d.reason)
    ensures Valid(Obj(RecordFields(d)))
  {
    hide Lit, NatNumber, RecordTag, RecordFields;
    RecordTags(d);
    PartsValid(d);
    var fs := RecordFields(d);
    forall i, j | 0 <= i < j < |fs| ensures fs[i].0 != fs[j].0 {
      assert RecordTag(fs[i].0) != RecordTag(fs[j].0);
    }
  }

  lemma PartsValid(d: DecisionRecord)
    requires Valid(d.action) && Valid(d.reason)
    ensures forall f | f in RecordFields(d) :: Valid(f.1)
  {
    hide Lit, NatNumber;
    OutcomeValid(d);
    assert Valid(Arr(TextValues(d.source_event_ids)));
  }

  lemma OutcomeValid(d: DecisionRecord)
    requires Valid(d.action) && Valid(d.reason)
    ensures Valid(Obj([(Lit("action"), d.action), (Lit("reason"), d.reason)]))
  {
    assert Lit("action")[0] != Lit("reason")[0];
  }

  /** The text that the hash of a record is taken of. */
  function RecordText(d: DecisionRecord): Text
    requires Valid(d.action) && Valid(d.reason)
  {
    RecordValid(d);
    Canonical(Obj(RecordFields(d)))
  }

  /** The same decision, up to the meaning of what the outcome event said. */
  ghost predicate SameRecord(a: DecisionRecord, b: DecisionRecord) {
    && a.(action := Null, reason := Null) == b.(action := Null, reason := Null)
    && Meaning(a.action) == Meaning(b.action) && Meaning(a.reason) == Meaning(b.reason)
  }

  ghost predicate SameMeanings(a: DecisionRecord, b: DecisionRecord) {
    && |RecordFields(a)| == |RecordFields(b)| == 10
    && forall i :: 0 <= i < 10 ==> Meaning(RecordFields(a)[i].1) == Meaning(RecordFields(b)[i].1)
  }

  /** Records have the same text exactly when they are the same decision. */
  lemma RecordTextExact(a: DecisionRecord, b: DecisionRecord)
    requires Valid(a.action) && Valid(a.reason) && Valid(b.action) && Valid(b.reason)
    ensures RecordText(a) == RecordText(b) <==> SameRecord(a, b)
  {
    hide Canonical, RecordFields, SameRecord, Meaning, SameMeanings;
    RecordValid(a);
    RecordValid(b);
    JsonReader.CanonicalExact(Obj(RecordFields(a)), Obj(RecordFields(b)));
    SameMeaningExactly(a, b);
    if SameRecord(a, b) {
      SameFields(a, b);
    }
    if SameMeanings(a, b) {
      SameParts(a, b);
    }
  }

  lemma SameMeaningExactly(a: DecisionRecord, b: DecisionRecord)
    requires Valid(Obj(RecordFields(a))) && Valid(Obj(RecordFields(b)))
    ensures Meaning(Obj(RecordFields(a))) == Meaning(Obj(RecordFields(b))) <==> SameMeanings(a, b)
  {
    hide RecordFields, FieldMeanings;
    var f, g := RecordFields(a), RecordFields(b);
    SameFieldNames(a, b);
    if FieldMeanings(f) == FieldMeanings(g) {
      forall i | 0 <= i < 10 ensures Meaning(f[i].1) == Meaning(g[i].1) {
        JsonReader.MeaningAt(f, i);
        JsonReader.MeaningAt(g, i);
      }
    }
    if SameMeanings(a, b) {
      FieldsAlike(f, g);
    }
  }

  lemma SameFieldNames(a: DecisionRecord, b: DecisionRecord)
    ensures |RecordFields(a)| == |RecordFields(b)| == 10
    ensures forall i :: 0 <= i < 10 ==> RecordFields(a)[i].0 == RecordFields(b)[i].0
  {
    hide Lit, NatNumber;
  }

  lemma SameFields(a: DecisionRecord, b: DecisionRecord)
    requires SameRecord(a, b)
    ensures SameMeanings(a, b)
  {
    hide Lit, NatNumber, Meanings, FieldMeanings;
    SameFieldNames(a, b);
    OutcomesAlike(a, b);
  }

  lemma OutcomesAlike(a: DecisionRecord, b: DecisionRecord)
    ensures FieldMeanings([(Lit("action"), a.action), (Lit("reason"), a.reason)])
      == FieldMeanings([(Lit("action"), b.action), (Lit("reason"), b.reason)])
      <==> Meaning(a.action) == Meaning(b.action) && Meaning(a.reason) == Meaning(b.reason)
  {
    hide Meaning, FieldMeanings;
    var action, reason := Lit("action"), Lit("reason");
    assert action[0] != reason[0];
    var f, g := [(action, a.action), (reason, a.reason)], [(action, b.action), (reason, b.reason)];
    JsonReader.MeaningAt(f, 0);
    JsonReader.MeaningAt(f, 1);
    JsonReader.MeaningAt(g, 0);
    JsonReader.MeaningAt(g, 1);
    if Meaning(a.action) == Meaning(b.action) && Meaning(a.reason) == Meaning(b.reason) {
      FieldsAlike(f, g);
    }
  }

  lemma {:induction false} SameTextValues(a: seq<Text>, b: seq<Text>)
    requires Meanings(TextValues(a)) == Meanings(TextValues(b))
    ensures a == b
  {
    assert |Meanings(TextValues(a))| == |a| && |Meanings(TextValues(b))| == |b|;
    if a != [] {
      assert TextValues(a)[1..] == TextValues(a[1..]) && TextValues(b)[1..] == TextValues(b[1..]);
      assert Meanings(TextValues(a))[0] == JStr(a[0]) && Meanings(TextValues(b))[0] == JStr(b[0]);
      assert Meanings(TextValues(a))[1..] == Meanings(TextValues(a[1..]));
      assert Meanings(TextValues(b))[1..] == Meanings(TextValues(b[1..]));
      SameTextValues(a[1..], b[1..]);
      assert a == [a[0]] + a[1..] && b == [b[0]] + b[1..];
    }
  }

  lemma SameParts(a: DecisionRecord, b: DecisionRecord)
    requires SameMeanings(a, b)
    ensures SameRecord(a, b)
  {
    hide Lit, NatNumber, Meanings, FieldMeanings, TextValues;
    var f, g := RecordFields(a), RecordFields(b);
    assert Meaning(f[0].1) == Meaning(g[0].1) && Meaning(f[1].1) == Meaning(g[1].1);
    assert Meaning(f[2].1) == Meaning(g[2].1) && Meaning(f[3].1) == Meaning(g[3].1);
    assert Meaning(f[5].1) == Meaning(g[5].1);
    assert Meaning(f[8].1) == Meaning(g[8].1) && Meaning(f[9].1) == Meaning(g[9].1);
    SameTextValues(a.source_event_ids, b.source_event_ids);
    OutcomesAlike(a, b);
  }

  lemma {:induction false} LookupValid(fields: seq<(Text, Value)>, key: Text)
    requires forall f | f in fields :: Valid(f.1)
    ensures Valid(T.Lookup(fields, key))
  {
    if fields != [] {
      assert fields[0] in fields;
      LookupValid(fields[1..], key);
    }
  }

  lemma {:induction false} FoundOutcome(events: seq<Stored>)
    ensures FindOutcome(events).Some? ==> FindOutcome(events).value in events
  {
    hide Lit;
    if events != [] {
      FoundOutcome(events[1..]);
    }
  }

  /** What a record says of its outcome is a proper value. */
  lemma ProjectedValid(events: seq<Stored>)
    ensures var d := ProjectDecision(events); d.Some? ==> Valid(d.value.action) && Valid(d.value.reason)
  {
    hide FindOutcome, FindSnapshot, T.Lookup, Sort;
    var ordered := Sort(events, BySeq);
    var outcome := Outcome(ordered);
    assert Valid(outcome) by {
      assert Lit("action")[0] != Lit("reason")[0];
    }
    if outcome.Obj? {
      LookupValid(outcome.fields, Lit("action"));
      LookupValid(outcome.fields, Lit("reason"));
    }
  }

  /** The hash that a decision carries. */
  function DecisionHash(sha: Sha, events: seq<Stored>): Option<Text> {
    ProjectedValid(events);
    match ProjectDecision(events)
    case None => None
    case Some(d) => Some(sha(RecordText(d)))
  }

  /** Decisions that carry the same hash are the same decision, with the same events behind
      it; or their two texts differ and have one digest. */
  lemma DecisionHashExact(sha: Sha, a: seq<Stored>, b: seq<Stored>)
    requires a != [] && b != []
    ensures ProjectDecision(a).Some? && ProjectDecision(b).Some?
    ensures var d, e := ProjectDecision(a).value, ProjectDecision(b).value;
      && Valid(d.action) && Valid(d.reason) && Valid(e.action) && Valid(e.reason)
      && (SameRecord(d, e) ==> DecisionHash(sha, a) == DecisionHash(sha, b))
      && (DecisionHash(sha, a) == DecisionHash(sha, b) ==>
            SameRecord(d, e) || (RecordText(d) != RecordText(e) && sha(RecordText(d)) == sha(RecordText(e))))
  {
    hide RecordText, SameRecord, RecordOf;
    BySeqTotal();
    SortCorrect(a, BySeq);
    SortCorrect(b, BySeq);
    ProjectedValid(a);
    ProjectedValid(b);
    RecordTextExact(ProjectDecision(a).value, ProjectDecision(b).value);
  }
}
