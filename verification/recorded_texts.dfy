/** What hashed texts say when they are read back as JSON. */
module RecordedTexts {
  import opened Texts
  import opened Options
  import opened Sequences
  import opened CanonicalJson
  import opened EventLog
  import J = JsonReader
  import P = Projections
  import R = Replay

  /** The whole number that a JSON number writes. */
  predicate Denotes(j: Json, n: nat) {
    if n == 0 then j == JZero
    else j.JNum? && !j.negative && |j.digits| <= j.point && DigitsNat(j.digits + seq(j.point - |j.digits|, _ => 0)) == n
  }

  lemma NatDenoted(n: nat)
    ensures Denotes(Meaning(Num(NatNumber(n))), n)
  {
    hide NatDigits, Strip, DigitsNat;
    if n > 0 {
      var ds := NatDigits(n);
      DigitsBack(n);
      StripBack(ds);
      assert Meaning(Num(NatNumber(n))) == JNum(false, Strip(ds), |ds|);
    }
  }

  /** Whole numbers are written in decimal, without a leading zero, and with a sign exactly
      below zero. */
  lemma IntTextReads(n: int)
    ensures J.ReadInt(IntText(n)) == n
    ensures n > 0 ==> IntText(n)[0] != 0x30
    ensures n < 0 ==> IntText(n) == [0x2D] + IntText(-n)
  {
    hide NatText, J.ReadNat;
    if n < 0 {
      J.NatReads(-n);
      assert IntText(n)[1..] == NatText(-n);
    } else {
      J.NatReads(n);
      NoLeadingZero(n);
    }
  }

  lemma {:induction false} NoLeadingZero(n: nat)
    ensures n > 0 ==> NatText(n)[0] != 0x30
  {
    if n >= 10 {
      NoLeadingZero(n / 10);
    }
  }

  /** An object that names exactly these texts, as far as it goes. */
  ghost predicate NamesOnly(m: map<Text, Json>, names: seq<string>) {
    && (forall i :: 0 <= i < |names| ==> Lit(names[i]) in m)
    && (forall key :: key in m ==> exists i :: 0 <= i < |names| && key == Lit(names[i]))
  }

  predicate Says(m: map<Text, Json>, name: string, j: Json) {
    Lit(name) in m && m[Lit(name)] == j
  }

  predicate SaysNumber(m: map<Text, Json>, name: string, n: nat) {
    Lit(name) in m && Denotes(m[Lit(name)], n)
  }

  // ---- events ----

  const REQUIRED := ["event_id", "event_type", "event_time", "ingest_time", "source_engine", "schema_version",
                     "correlation_id", "payload", "seq", "prev_hash"]

  function Names(e: Event): seq<string> {
    REQUIRED + (if e.snapshot_id.Some? then ["snapshot_id"] else []) + (if e.causation_id.Some? then ["causation_id"] else [])
  }

  ghost predicate SaysNames(m: map<Text, Json>, e: Event) {
    && Says(m, "event_id", JStr(e.event_id)) && Says(m, "event_type", JStr(e.event_type))
    && Says(m, "event_time", JStr(e.event_time)) && Says(m, "ingest_time", JStr(e.ingest_time))
    && Says(m, "source_engine", JStr(e.source_engine))
  }

  ghost predicate SaysRest(m: map<Text, Json>, e: Event, seqNo: nat, prev: Option<Text>) {
    && SaysNumber(m, "schema_version", e.schema_version) && Says(m, "correlation_id", JStr(e.correlation_id))
    && Says(m, "payload", Meaning(e.payload)) && SaysNumber(m, "seq", seqNo)
    && Says(m, "prev_hash", match prev case None => JNull case Some(h) => JStr(h))
  }

  /** The text that is hashed for an event says all of the event, its number and the hash
      before it, and nothing else. */
  lemma EventTextSays(e: Event, seqNo: nat, prev: Option<Text>) returns (m: map<Text, Json>)
    ensures J.ReadValue(Canonical(Content(e, seqNo, prev))) == J.Got(JObj(m), [])
    ensures NamesOnly(m, Names(e)) && SaysNames(m, e) && SaysRest(m, e, seqNo, prev)
    ensures e.snapshot_id.Some? ==> Says(m, "snapshot_id", JStr(e.snapshot_id.value))
    ensures e.causation_id.Some? ==> Says(m, "causation_id", JStr(e.causation_id.value))
  {
    hide Lit, Canonical, FieldMeanings, J.ReadValue, NamesOnly, Fields, SaysNames, SaysRest, Meaning;
    m := FieldMeanings(Fields(e, seqNo, prev));
    J.RoundTrip(Content(e, seqNo, prev));
    ContentMeans(e, seqNo, prev);
    NamesAre(e, seqNo, prev);
    OptionalMeaning(e, seqNo, prev);
    FirstFields(e, seqNo, prev);
    LastFields(e, seqNo, prev);
  }

  lemma FirstFields(e: Event, seqNo: nat, prev: Option<Text>)
    ensures SaysNames(FieldMeanings(Fields(e, seqNo, prev)), e)
  {
    hide Lit, FieldMeanings, NatNumber, Fields;
    RequiredMeaning(e, seqNo, prev, 0);
    RequiredMeaning(e, seqNo, prev, 1);
    RequiredMeaning(e, seqNo, prev, 2);
    RequiredMeaning(e, seqNo, prev, 3);
    RequiredMeaning(e, seqNo, prev, 4);
  }

  lemma LastFields(e: Event, seqNo: nat, prev: Option<Text>)
    ensures SaysRest(FieldMeanings(Fields(e, seqNo, prev)), e, seqNo, prev)
  {
    hide Lit, FieldMeanings, NatNumber, Fields, Denotes;
    RequiredMeaning(e, seqNo, prev, 5);
    RequiredMeaning(e, seqNo, prev, 6);
    RequiredMeaning(e, seqNo, prev, 7);
    RequiredMeaning(e, seqNo, prev, 8);
    RequiredMeaning(e, seqNo, prev, 9);
    NatDenoted(e.schema_version);
    NatDenoted(seqNo);
  }

  lemma NamesAre(e: Event, seqNo: nat, prev: Option<Text>)
    ensures NamesOnly(FieldMeanings(Fields(e, seqNo, prev)), Names(e))
  {
    hide Lit, FieldMeanings, RequiredFields, NamesOnly;
    var fs := Fields(e, seqNo, prev);
    RequiredNames(e, seqNo, prev);
    assert |fs| == |Names(e)|;
    forall i | 0 <= i < |fs| ensures fs[i].0 == Lit(Names(e)[i]) {
      if i < 10 {
        assert fs[i] == RequiredFields(e, seqNo, prev)[i];
      }
    }
    NamedByFields(fs, Names(e));
  }

  lemma RequiredNames(e: Event, seqNo: nat, prev: Option<Text>)
    ensures |RequiredFields(e, seqNo, prev)| == 10 == |REQUIRED|
    ensures forall i :: 0 <= i < 10 ==> RequiredFields(e, seqNo, prev)[i].0 == Lit(REQUIRED[i])
  {
    hide Lit, NatNumber;
  }

  lemma NamedByFields(fs: seq<(Text, Value)>, names: seq<string>)
    requires |fs| == |names| && forall i :: 0 <= i < |fs| ==> fs[i].0 == Lit(names[i])
    ensures NamesOnly(FieldMeanings(fs), names)
  {
    hide Lit, FieldMeanings;
    J.MeaningKeys(fs);
    forall i | 0 <= i < |names| ensures Lit(names[i]) in J.KeySet(fs) {
      assert fs[i] in fs;
    }
    forall key | key in J.KeySet(fs) ensures exists i :: 0 <= i < |names| && key == Lit(names[i]) {
      var f :| f in fs && f.0 == key;
      var i :| 0 <= i < |fs| && fs[i] == f;
    }
  }

  /** The first event is sealed with the hash of the hash of that text, every later one with
      the hash of the hash before it and the hash of its text, in this order. */
  lemma SealHashes(sha: Sha, log: seq<Stored>, e: Event)
    ensures var sealed := Seal(sha, log, e);
      var text := Canonical(Content(e, |log| + 1, sealed.prev_hash));
      && sealed.input == e && sealed.seqNo == |log| + 1
      && (log == [] ==> sealed.prev_hash == None && sealed.hash == sha(sha(text)))
      && (log != [] ==> sealed.prev_hash == Some(log[|log| - 1].hash) && sealed.hash == sha(log[|log| - 1].hash + sha(text)))
  {
    hide Canonical, Content;
  }

  // ---- decision records and replay states ----

  const RECORD := ["decision_id", "correlation_id", "event_time", "decided_at", "engine_version", "snapshot_id",
                   "data_snapshot_ref", "schema_version", "source_event_ids", "outcome"]

  ghost predicate SaysRecord(m: map<Text, Json>, d: P.DecisionRecord) {
    && Says(m, "decision_id", JStr(d.decision_id)) && Says(m, "correlation_id", JStr(d.correlation_id))
    && Says(m, "event_time", JStr(d.event_time)) && Says(m, "decided_at", JStr(d.decided_at))
    && Says(m, "snapshot_id", JStr(d.snapshot_id))
  }

  ghost predicate SaysVersions(m: map<Text, Json>) {
    && Says(m, "engine_version", JStr(Lit("0.0.0"))) && Says(m, "data_snapshot_ref", JStr(Lit("n/a")))
    && SaysNumber(m, "schema_version", 1)
  }

  /** The events in their order, and what was decided, under `action` and `reason` alone. */
  ghost predicate SaysOutcome(m: map<Text, Json>, d: P.DecisionRecord) {
    && Says(m, "source_event_ids", JArr(seq(|d.source_event_ids|, i requires 0 <= i < |d.source_event_ids| => JStr(d.source_event_ids[i]))))
    && Says(m, "outcome", JObj(map[Lit("action") := Meaning(d.action), Lit("reason") := Meaning(d.reason)]))
  }

  /** The text that is hashed for a decision record says all of the record, under the names
      its fields have. */
  lemma RecordTextSays(d: P.DecisionRecord) returns (m: map<Text, Json>)
    requires Valid(d.action) && Valid(d.reason)
    ensures J.ReadValue(P.RecordText(d)) == J.Got(JObj(m), [])
    ensures NamesOnly(m, RECORD) && SaysRecord(m, d) && SaysVersions(m) && SaysOutcome(m, d)
  {
    hide Lit, Canonical, FieldMeanings, J.ReadValue, NamesOnly, P.RecordFields, SaysRecord, SaysVersions, SaysOutcome;
    m := FieldMeanings(P.RecordFields(d));
    P.RecordValid(d);
    J.RoundTrip(Obj(P.RecordFields(d)));
    RecordNames(d);
    NamedByFields(P.RecordFields(d), RECORD);
    RecordTexts(d);
    RecordVersions(d);
    RecordOutcome(d);
  }

  lemma RecordNames(d: P.DecisionRecord)
    ensures |P.RecordFields(d)| == 10 == |RECORD|
    ensures forall i :: 0 <= i < 10 ==> P.RecordFields(d)[i].0 == Lit(RECORD[i])
  {
    hide Lit, NatNumber, P.TextValues;
  }

  lemma FieldSays(d: P.DecisionRecord, i: nat)
    requires Valid(d.action) && Valid(d.reason) && i < 10 == |P.RecordFields(d)|
    ensures var f := P.RecordFields(d)[i];
      f.0 in FieldMeanings(P.RecordFields(d)) && FieldMeanings(P.RecordFields(d))[f.0] == Meaning(f.1)
  {
    hide FieldMeanings, P.RecordFields, Meaning;
    P.RecordValid(d);
    J.MeaningAt(P.RecordFields(d), i);
  }

  lemma RecordTexts(d: P.DecisionRecord)
    requires Valid(d.action) && Valid(d.reason)
    ensures SaysRecord(FieldMeanings(P.RecordFields(d)), d)
  {
    hide Lit, FieldMeanings, NatNumber, P.TextValues;
    FieldSays(d, 0);
    FieldSays(d, 1);
    FieldSays(d, 2);
    FieldSays(d, 3);
    FieldSays(d, 5);
  }

  lemma RecordVersions(d: P.DecisionRecord)
    requires Valid(d.action) && Valid(d.reason)
    ensures SaysVersions(FieldMeanings(P.RecordFields(d)))
  {
    hide Lit, FieldMeanings, NatNumber, P.TextValues, Denotes;
    FieldSays(d, 4);
    FieldSays(d, 6);
    FieldSays(d, 7);
    NatDenoted(1);
  }

  lemma RecordOutcome(d: P.DecisionRecord)
    requires Valid(d.action) && Valid(d.reason)
    ensures SaysOutcome(FieldMeanings(P.RecordFields(d)), d)
  {
    hide Lit, FieldMeanings, NatNumber, P.TextValues, Meanings;
    FieldSays(d, 8);
    FieldSays(d, 9);
    IdsMean(d.source_event_ids);
    OutcomeMeans(d);
  }

  lemma {:induction false} IdsMean(ids: seq<Text>)
    ensures Meanings(P.TextValues(ids)) == seq(|ids|, i requires 0 <= i < |ids| => JStr(ids[i]))
  {
    if ids != [] {
      IdsMean(ids[1..]);
      assert P.TextValues(ids)[1..] == P.TextValues(ids[1..]);
    }
  }

  lemma OutcomeMeans(d: P.DecisionRecord)
    ensures FieldMeanings([(Lit("action"), d.action), (Lit("reason"), d.reason)])
      == map[Lit("action") := Meaning(d.action), Lit("reason") := Meaning(d.reason)]
  {
    assert Lit("action")[0] != Lit("reason")[0];
    hide Lit, Meaning;
    var fs: seq<(Text, Value)> := [(Lit("action"), d.action), (Lit("reason"), d.reason)];
    OneField(Lit("reason"), d.reason);
    assert fs[1..] == [(Lit("reason"), d.reason)];
  }

  lemma OneField(key: Text, v: Value)
    ensures FieldMeanings([(key, v)]) == map[key := Meaning(v)]
  {
    hide Meaning;
    var fs: seq<(Text, Value)> := [(key, v)];
    assert fs[1..] == [];
  }

  /** One more applied event chains the hash of its own quoted hash behind the state. */
  lemma StateHashNext(sha: Sha, events: seq<Stored>, e: Stored)
    ensures R.FoldHash(sha, []) == None
    ensures var before := R.FoldHash(sha, events);
      R.FoldHash(sha, events + [e]) == Some(sha((if before.Some? then before.value else []) + sha(StringText(e.hash))))
  {
    hide StringText;
    assert (events + [e])[..|events|] == events;
    var h := sha(StringText(e.hash));
    assert [] + h == h;
  }
}
