/** The append-only, hash-chained event log. SHA-256 is a parameter: any function
    to texts of 64 characters. Nothing is assumed about collisions; where one is the
    only alternative, it is named as two different texts that were really hashed. */
module EventLog {
  import opened Texts
  import opened Options
  import opened Sequences
  import opened CanonicalJson
  import JsonReader

  type Sha = Text -> Text

  ghost predicate IsDigest(sha: Sha) {
    forall t :: |sha(t)| == 64
  }

  // ---- whole numbers ----

  function NatDigits(n: nat): (ds: seq<int>)
    ensures forall i :: 0 <= i < |ds| ==> 0 <= ds[i] <= 9
    ensures n > 0 ==> |ds| > 0 && ds[0] != 0
  {
    if n == 0 then [] else NatDigits(n / 10) + [n % 10]
  }

  function Strip(ds: seq<int>): (r: seq<int>)
    ensures r <= ds && (r != [] ==> r[|r| - 1] != 0)
    ensures ds != [] && ds[0] != 0 ==> r != []
  {
    if ds != [] && ds[|ds| - 1] == 0 then Strip(ds[..|ds| - 1]) else ds
  }

  /** The number n as the language holds it. */
  function NatNumber(n: nat): (r: Number)
    ensures r.Valid()
  {
    if n == 0 then Zero(false) else Finite(false, Strip(NatDigits(n)), |NatDigits(n)|)
  }

  function DigitsNat(ds: seq<int>): int {
    if ds == [] then 0 else 10 * DigitsNat(ds[..|ds| - 1]) + ds[|ds| - 1]
  }

  lemma {:induction false} DigitsBack(n: nat)
    ensures DigitsNat(NatDigits(n)) == n
  {
    if n > 0 {
      DigitsBack(n / 10);
      assert NatDigits(n)[..|NatDigits(n)| - 1] == NatDigits(n / 10);
    }
  }

  lemma {:induction false} StripBack(ds: seq<int>)
    ensures ds == Strip(ds) + seq(|ds| - |Strip(ds)|, _ => 0)
  {
    if ds != [] && ds[|ds| - 1] == 0 {
      var front := ds[..|ds| - 1];
      StripBack(front);
      assert seq(|ds| - |Strip(ds)|, _ => 0) == seq(|front| - |Strip(front)|, _ => 0) + [0];
      assert ds == front + [0];
    }
  }

  lemma StripInjective(a: seq<int>, b: seq<int>)
    requires |a| == |b| && Strip(a) == Strip(b)
    ensures a == b
  {
    hide Strip;
    StripBack(a);
    StripBack(b);
  }

  lemma NatNumberInjective(a: nat, b: nat)
    requires Meaning(Num(NatNumber(a))) == Meaning(Num(NatNumber(b)))
    ensures a == b
  {
    hide Strip, NatDigits, DigitsNat;
    if a > 0 && b > 0 {
      StripInjective(NatDigits(a), NatDigits(b));
      DigitsBack(a);
      DigitsBack(b);
    }
  }

  // ---- events ----

  /** An event as submitted. */
  datatype EventInput = EventInput(
    event_id: Text,
    event_type: Text,
    event_time: Text,
    ingest_time: Text,
    source_engine: Text,
    schema_version: nat,
    snapshot_id: Option<Text>,
    correlation_id: Text,
    causation_id: Option<Text>,
    payload: Value)

  /** A sealed event. */
  datatype StoredEvent = StoredEvent(input: EventInput, seqNo: nat, prev_hash: Option<Text>, hash: Text)

  type Event = e: EventInput | Valid(e.payload) witness EventInput([], [], [], [], [], 0, None, [], None, Null)
  type Stored = e: StoredEvent | Valid(e.input.payload)
    witness StoredEvent(EventInput([], [], [], [], [], 0, None, [], None, Null), 0, None, [])

  function OptionalText(o: Option<Text>): Value {
    match o
    case None => Null
    case Some(t) => Str(t)
  }

  function OptionalField(name: string, o: Option<Text>): seq<(Text, Value)> {
    match o
    case None => []
    case Some(t) => [(Lit(name), Str(t))]
  }

  function RequiredFields(e: Event, seqNo: nat, prev: Option<Text>): seq<(Text, Value)> {
    [ (Lit("event_id"), Str(e.event_id)),
      (Lit("event_type"), Str(e.event_type)),
      (Lit("event_time"), Str(e.event_time)),
      (Lit("ingest_time"), Str(e.ingest_time)),
      (Lit("source_engine"), Str(e.source_engine)),
      (Lit("schema_version"), Num(NatNumber(e.schema_version))),
      (Lit("correlation_id"), Str(e.correlation_id)),
      (Lit("payload"), e.payload),
      (Lit("seq"), Num(NatNumber(seqNo))),
      (Lit("prev_hash"), OptionalText(prev)) ]
  }

  function Fields(e: Event, seqNo: nat, prev: Option<Text>): seq<(Text, Value)> {
    RequiredFields(e, seqNo, prev)
    + OptionalField("snapshot_id", e.snapshot_id)
    + OptionalField("causation_id", e.causation_id)
  }

  /** The object `{...input, seq, prev_hash: prev ?? null}` that is hashed. */
  function Content(e: Event, seqNo: nat, prev: Option<Text>): (v: Value)
    ensures Valid(v)
  {
    FieldsDistinct(e, seqNo, prev);
    Obj(Fields(e, seqNo, prev))
  }

  /** Tells the twelve field names apart. */
  function Tag(name: Text): int {
    match |name|
    case 8 => 0
    case 10 => if name[7] == Unit('y') then 1 else 2
    case 11 => if name[0] == Unit('i') then 3 else 10
    case 13 => 4
    case 14 => if name[0] == Unit('s') then 5 else 6
    case 7 => 7
    case 3 => 8
    case 9 => 9
    case _ => 11
  }

  lemma Tags()
    ensures Tag(Lit("event_id")) == 0 && Tag(Lit("event_type")) == 1 && Tag(Lit("event_time")) == 2
    ensures Tag(Lit("ingest_time")) == 3 && Tag(Lit("source_engine")) == 4 && Tag(Lit("schema_version")) == 5
    ensures Tag(Lit("correlation_id")) == 6 && Tag(Lit("payload")) == 7 && Tag(Lit("seq")) == 8
    ensures Tag(Lit("prev_hash")) == 9 && Tag(Lit("snapshot_id")) == 10 && Tag(Lit("causation_id")) == 11
  {
  }

  lemma RequiredTags(e: Event, seqNo: nat, prev: Option<Text>)
    ensures var fs := RequiredFields(e, seqNo, prev);
      |fs| == 10 && forall i :: 0 <= i < 10 ==> Tag(fs[i].0) == i && Valid(fs[i].1)
  {
    hide Lit, Tag, NatNumber;
    Tags();
  }

  lemma FieldsDistinct(e: Event, seqNo: nat, prev: Option<Text>)
    ensures DistinctKeys(Fields(e, seqNo, prev))
    ensures forall f | f in Fields(e, seqNo, prev) :: Valid(f.1)
  {
    hide Lit, Tag, RequiredFields;
    Tags();
    RequiredTags(e, seqNo, prev);
    var fs := Fields(e, seqNo, prev);
    assert forall i :: 0 <= i < |fs| ==> Tag(fs[i].0) >= 0 && (i < 10 ==> Tag(fs[i].0) == i);
    assert forall i :: 10 <= i < |fs| ==> 10 <= Tag(fs[i].0) <= 11;
    assert |fs| == 12 ==> Tag(fs[10].0) == 10 && Tag(fs[11].0) == 11;
    forall i, j | 0 <= i < j < |fs| ensures fs[i].0 != fs[j].0 {
      assert Tag(fs[i].0) != Tag(fs[j].0);
    }
  }

  // ---- what the hashed object says about the event ----

  /** Equal events, up to the meaning of the payload. */
  ghost predicate SameInput(a: Event, b: Event) {
    && a.event_id == b.event_id
    && a.event_type == b.event_type
    && a.event_time == b.event_time
    && a.ingest_time == b.ingest_time
    && a.source_engine == b.source_engine
    && a.schema_version == b.schema_version
    && a.snapshot_id == b.snapshot_id
    && a.correlation_id == b.correlation_id
    && a.causation_id == b.causation_id
    && Meaning(a.payload) == Meaning(b.payload)
  }

  lemma RequiredMeaning(e: Event, seqNo: nat, prev: Option<Text>, i: nat)
    requires i < 10 == |RequiredFields(e, seqNo, prev)|
    ensures var f := RequiredFields(e, seqNo, prev)[i];
      && f.0 in FieldMeanings(Fields(e, seqNo, prev))
      && FieldMeanings(Fields(e, seqNo, prev))[f.0] == Meaning(f.1)
  {
    hide FieldMeanings, RequiredFields;
    FieldsDistinct(e, seqNo, prev);
    JsonReader.MeaningAt(Fields(e, seqNo, prev), i);
  }

  lemma OptionalMeaning(e: Event, seqNo: nat, prev: Option<Text>)
    ensures var m := FieldMeanings(Fields(e, seqNo, prev));
      && (match e.snapshot_id
          case None => Lit("snapshot_id") !in m
          case Some(t) => Lit("snapshot_id") in m && m[Lit("snapshot_id")] == JStr(t))
      && (match e.causation_id
          case None => Lit("causation_id") !in m
          case Some(t) => Lit("causation_id") in m && m[Lit("causation_id")] == JStr(t))
  {
    hide FieldMeanings, RequiredFields, Lit, Tag;
    var fs := Fields(e, seqNo, prev);
    Tags();
    RequiredTags(e, seqNo, prev);
    FieldsDistinct(e, seqNo, prev);
    JsonReader.MeaningKeys(fs);
    if e.snapshot_id.Some? {
      JsonReader.MeaningAt(fs, 10);
    }
    if e.causation_id.Some? {
      JsonReader.MeaningAt(fs, |fs| - 1);
    }
  }

  lemma SameNames(a: Event, m: nat, p: Option<Text>, b: Event, n: nat, q: Option<Text>)
    ensures |RequiredFields(a, m, p)| == |RequiredFields(b, n, q)| == 10
    ensures forall i :: 0 <= i < 10 ==> RequiredFields(a, m, p)[i].0 == RequiredFields(b, n, q)[i].0
  {
    hide Lit, NatNumber;
  }

  lemma RequiredSame(a: Event, m: nat, p: Option<Text>, b: Event, n: nat, q: Option<Text>)
    requires FieldMeanings(Fields(a, m, p)) == FieldMeanings(Fields(b, n, q))
    ensures SameRequired(a, m, p, b, n, q)
  {
    hide FieldMeanings, RequiredFields, Fields, Meaning;
    SameNames(a, m, p, b, n, q);
    forall i | 0 <= i < 10
      ensures Meaning(RequiredFields(a, m, p)[i].1) == Meaning(RequiredFields(b, n, q)[i].1)
    {
      RequiredMeaning(a, m, p, i);
      RequiredMeaning(b, n, q, i);
    }
  }

  /** The required fields mean the same, one by one. */
  ghost predicate SameRequired(a: Event, m: nat, p: Option<Text>, b: Event, n: nat, q: Option<Text>) {
    && |RequiredFields(a, m, p)| == |RequiredFields(b, n, q)| == 10
    && forall i :: 0 <= i < 10 ==> Meaning(RequiredFields(a, m, p)[i].1) == Meaning(RequiredFields(b, n, q)[i].1)
  }

  lemma SameTexts(a: Event, m: nat, p: Option<Text>, b: Event, n: nat, q: Option<Text>)
    requires SameRequired(a, m, p, b, n, q)
    ensures a.event_id == b.event_id && a.event_type == b.event_type && a.event_time == b.event_time
    ensures a.ingest_time == b.ingest_time && a.source_engine == b.source_engine && a.correlation_id == b.correlation_id
    ensures Meaning(a.payload) == Meaning(b.payload)
  {
    hide FieldMeanings, Lit, NatNumber, Fields;
    var x, y := RequiredFields(a, m, p), RequiredFields(b, n, q);
    assert Meaning(x[0].1) == Meaning(y[0].1) && Meaning(x[1].1) == Meaning(y[1].1);
    assert Meaning(x[2].1) == Meaning(y[2].1) && Meaning(x[3].1) == Meaning(y[3].1);
    assert Meaning(x[4].1) == Meaning(y[4].1) && Meaning(x[6].1) == Meaning(y[6].1);
    assert Meaning(x[7].1) == Meaning(y[7].1);
  }

  lemma SameNumbers(a: Event, m: nat, p: Option<Text>, b: Event, n: nat, q: Option<Text>)
    requires SameRequired(a, m, p, b, n, q)
    ensures a.schema_version == b.schema_version && m == n && p == q
  {
    hide FieldMeanings, Lit, NatNumber, Fields, NatDigits, Strip;
    var x, y := RequiredFields(a, m, p), RequiredFields(b, n, q);
    assert Meaning(x[5].1) == Meaning(y[5].1) && Meaning(x[8].1) == Meaning(y[8].1) && Meaning(x[9].1) == Meaning(y[9].1);
    NatNumberInjective(a.schema_version, b.schema_version);
    NatNumberInjective(m, n);
  }

  /** The hashed object determines the event, its number and its predecessor. */
  lemma ContentExact(a: Event, m: nat, p: Option<Text>, b: Event, n: nat, q: Option<Text>)
    requires Meaning(Content(a, m, p)) == Meaning(Content(b, n, q))
    ensures SameInput(a, b) && m == n && p == q
  {
    hide FieldMeanings, Lit, NatNumber, Fields, RequiredFields;
    RequiredSame(a, m, p, b, n, q);
    SameTexts(a, m, p, b, n, q);
    SameNumbers(a, m, p, b, n, q);
    OptionalMeaning(a, m, p);
    OptionalMeaning(b, n, q);
  }

  // ---- the chain ----

  function ContentHash(sha: Sha, v: Value): Text
    requires Valid(v)
  {
    sha(Canonical(v))
  }

  function ChainText(prev: Option<Text>, content: Text): Text {
    match prev
    case None => content
    case Some(h) => h + content
  }

  function ChainHash(sha: Sha, prev: Option<Text>, content: Text): Text {
    sha(ChainText(prev, content))
  }

  /** The hash an event numbered `seqNo` gets behind a predecessor with hash `prev`. */
  function EventHash(sha: Sha, e: Event, seqNo: nat, prev: Option<Text>): Text {
    ChainHash(sha, prev, ContentHash(sha, Content(e, seqNo, prev)))
  }

  function LastHash(log: seq<Stored>): Option<Text> {
    if log == [] then None else Some(log[|log| - 1].hash)
  }

  function Seal(sha: Sha, log: seq<Stored>, e: Event): Stored {
    StoredEvent(e, |log| + 1, LastHash(log), EventHash(sha, e, |log| + 1, LastHash(log)))
  }

  lemma SealedInput(sha: Sha, log: seq<Stored>, e: Event)
    ensures Seal(sha, log, e).input == e
  {
    hide EventHash;
  }

  /** Whether recomputing the chain from the stored events gives the stored hashes. */
  predicate Verified(sha: Sha, log: seq<Stored>) {
    log == [] ||
    var front, e := log[..|log| - 1], log[|log| - 1];
    && Verified(sha, front)
    && e.prev_hash == LastHash(front)
    && e.hash == EventHash(sha, e.input, e.seqNo, LastHash(front))
  }

  /** Every log the store builds passes the check. */
  lemma SealedVerifies(sha: Sha, log: seq<Stored>, e: Event)
    requires Verified(sha, log)
    ensures Verified(sha, log + [Seal(sha, log, e)])
  {
    hide EventHash;
    var next := log + [Seal(sha, log, e)];
    assert next[..|next| - 1] == log;
  }

  /** The texts that checking a log hashes. */
  function Hashed(sha: Sha, log: seq<Stored>): set<Text> {
    if log == [] then {}
    else
      var front, e := log[..|log| - 1], log[|log| - 1];
      var text := Canonical(Content(e.input, e.seqNo, LastHash(front)));
      Hashed(sha, front) + {text, ChainText(LastHash(front), sha(text))}
  }

  /** Two different texts, one from each side, with one digest. */
  ghost predicate Collide(sha: Sha, xs: set<Text>, ys: set<Text>) {
    exists x, y :: x in xs && y in ys && x != y && sha(x) == sha(y)
  }

  ghost predicate SameEvent(a: Stored, b: Stored) {
    SameInput(a.input, b.input) && a.seqNo == b.seqNo && a.prev_hash == b.prev_hash && a.hash == b.hash
  }

  ghost predicate SameLog(a: seq<Stored>, b: seq<Stored>) {
    |a| == |b| && forall i :: 0 <= i < |a| ==> SameEvent(a[i], b[i])
  }

  /** One link: equal hashes come from equal events behind equal predecessors. */
  lemma LinkExact(sha: Sha, a: Event, m: nat, p: Option<Text>, b: Event, n: nat, q: Option<Text>)
    requires IsDigest(sha)
    requires p.Some? ==> |p.value| == 64
    requires q.Some? ==> |q.value| == 64
    requires EventHash(sha, a, m, p) == EventHash(sha, b, n, q)
    ensures var x, y := Canonical(Content(a, m, p)), Canonical(Content(b, n, q));
      || (SameInput(a, b) && m == n && p == q)
      || (x != y && sha(x) == sha(y))
      || (ChainText(p, sha(x)) != ChainText(q, sha(y)) && sha(ChainText(p, sha(x))) == sha(ChainText(q, sha(y))))
  {
    hide Canonical, Content, SameInput;
    var x, y := Canonical(Content(a, m, p)), Canonical(Content(b, n, q));
    var s, t := ChainText(p, sha(x)), ChainText(q, sha(y));
    assert |s| == (if p.None? then 64 else 128) && |t| == (if q.None? then 64 else 128);
    if s == t {
      assert sha(x) == s[|s| - 64..] && sha(y) == t[|t| - 64..];
      assert p.Some? ==> p.value == s[..64] && q.value == t[..64];
      if x == y {
        JsonReader.CanonicalExact(Content(a, m, p), Content(b, n, q));
        ContentExact(a, m, p, b, n, q);
      }
    }
  }

  lemma DigestsInLog(sha: Sha, log: seq<Stored>)
    requires IsDigest(sha) && Verified(sha, log)
    ensures LastHash(log).Some? ==> |LastHash(log).value| == 64
  {
    hide Content, Canonical;
  }

  /** The last link of two logs that end in the same hash. */
  lemma LastLink(sha: Sha, a: seq<Stored>, b: seq<Stored>)
    requires IsDigest(sha) && Verified(sha, a) && Verified(sha, b) && a != [] && b != []
    requires LastHash(a) == LastHash(b)
    ensures
      || Collide(sha, Hashed(sha, a), Hashed(sha, b))
      || (SameEvent(a[|a| - 1], b[|b| - 1]) && LastHash(a[..|a| - 1]) == LastHash(b[..|b| - 1]))
  {
    hide Canonical, Content, SameInput, ChainText;
    var a', b' := a[..|a| - 1], b[..|b| - 1];
    var e, f := a[|a| - 1], b[|b| - 1];
    DigestsInLog(sha, a');
    DigestsInLog(sha, b');
    LinkExact(sha, e.input, e.seqNo, LastHash(a'), f.input, f.seqNo, LastHash(b'));
  }

  /** Two logs that pass the check and end in the same hash are the same log, event by
      event, or checking them hashed two different texts to the same digest. */
  lemma {:induction false} TamperEvidence(sha: Sha, a: seq<Stored>, b: seq<Stored>)
    requires IsDigest(sha) && Verified(sha, a) && Verified(sha, b)
    requires LastHash(a) == LastHash(b)
    ensures SameLog(a, b) || Collide(sha, Hashed(sha, a), Hashed(sha, b))
  {
    hide Content, SameEvent, ChainText, Canonical, Collide, EventHash, IsDigest;
    if a != [] {
      LastLink(sha, a, b);
      var a', b' := a[..|a| - 1], b[..|b| - 1];
      if LastHash(a') == LastHash(b') {
        TamperEvidence(sha, a', b');
        CollideOn(sha, a, b);
      }
    }
  }

  lemma CollideOn(sha: Sha, a: seq<Stored>, b: seq<Stored>)
    requires a != [] && b != []
    ensures Collide(sha, Hashed(sha, a[..|a| - 1]), Hashed(sha, b[..|b| - 1])) ==> Collide(sha, Hashed(sha, a), Hashed(sha, b))
  {
    hide Content, Canonical, ChainText;
    assert Hashed(sha, a[..|a| - 1]) <= Hashed(sha, a) && Hashed(sha, b[..|b| - 1]) <= Hashed(sha, b);
    hide Hashed;
  }

  lemma {:induction false} VerifiedPrefix(sha: Sha, log: seq<Stored>, n: nat)
    requires Verified(sha, log) && n <= |log|
    ensures Verified(sha, log[..n])
  {
    hide EventHash;
    if n < |log| {
      VerifiedPrefix(sha, log[..|log| - 1], n);
      assert log[..|log| - 1][..n] == log[..n];
    } else {
      assert log[..n] == log;
    }
  }

  lemma OneDiffers(a: seq<Stored>, b: seq<Stored>, i: nat)
    requires i < |a| == |b| && !SameEvent(a[i], b[i])
    ensures !SameLog(a, b)
  {
    hide SameEvent;
  }

  /** Changing a stored event, other than to one whose payload means the same JSON, while
      keeping its stored hash makes the check fail, or the two checks hashed different texts
      to the same digest. */
  lemma ChangeDetected(sha: Sha, log: seq<Stored>, changed: seq<Stored>, i: nat)
    requires IsDigest(sha) && Verified(sha, log) && i < |log| == |changed|
    requires changed[i].hash == log[i].hash && !SameEvent(log[i], changed[i])
    ensures !Verified(sha, changed) || Collide(sha, Hashed(sha, log[..i + 1]), Hashed(sha, changed[..i + 1]))
  {
    if Verified(sha, changed) {
      VerifiedPrefix(sha, log, i + 1);
      VerifiedPrefix(sha, changed, i + 1);
      TamperEvidence(sha, log[..i + 1], changed[..i + 1]);
      OneDiffers(log[..i + 1], changed[..i + 1], i);
    }
  }

  lemma {:induction false} FieldsAlike(f: seq<(Text, Value)>, g: seq<(Text, Value)>)
    requires |f| == |g| && forall i :: 0 <= i < |f| ==> f[i].0 == g[i].0 && Meaning(f[i].1) == Meaning(g[i].1)
    ensures FieldMeanings(f) == FieldMeanings(g)
  {
    hide Meaning;
    if f != [] {
      FieldsAlike(f[1..], g[1..]);
    }
  }

  /** Events that are the same up to the meaning of the payload get the same hash. */
  lemma AlikeHashed(sha: Sha, a: Event, b: Event, seqNo: nat, prev: Option<Text>)
    requires SameInput(a, b)
    ensures EventHash(sha, a, seqNo, prev) == EventHash(sha, b, seqNo, prev)
  {
    hide Meaning, Lit, NatNumber, Canonical;
    FieldsAlike(Fields(a, seqNo, prev), Fields(b, seqNo, prev));
    ContentMeans(a, seqNo, prev);
    ContentMeans(b, seqNo, prev);
    JsonReader.CanonicalExact(Content(a, seqNo, prev), Content(b, seqNo, prev));
  }

  lemma ContentMeans(e: Event, seqNo: nat, prev: Option<Text>)
    ensures Meaning(Content(e, seqNo, prev)) == JObj(FieldMeanings(Fields(e, seqNo, prev)))
  {
    hide Fields, FieldMeanings;
  }

  /** The check looks at nothing but what the hashed texts mean. */
  lemma {:induction false} SameLogVerifies(sha: Sha, a: seq<Stored>, b: seq<Stored>)
    requires SameLog(a, b) && Verified(sha, a)
    ensures Verified(sha, b)
  {
    hide EventHash, SameInput;
    if a != [] {
      var n := |a| - 1;
      assert SameEvent(a[n], b[n]);
      assert n > 0 ==> SameEvent(a[n - 1], b[n - 1]);
      SameLogVerifies(sha, a[..n], b[..n]);
      AlikeHashed(sha, a[n].input, b[n].input, a[n].seqNo, LastHash(a[..n]));
    }
  }

  /** Exchanging one stored event for another with the same stored hash passes the check
      exactly when the other is the same event, with a payload of the same JSON meaning, or
      else the two checks hashed different texts to the same digest. */
  lemma ChangeSeenExactly(sha: Sha, log: seq<Stored>, i: nat, e: Stored)
    requires IsDigest(sha) && Verified(sha, log) && i < |log| && e.hash == log[i].hash
    ensures SameEvent(log[i], e) ==> Verified(sha, log[i := e])
    ensures Verified(sha, log[i := e]) ==>
      SameEvent(log[i], e) || Collide(sha, Hashed(sha, log[..i + 1]), Hashed(sha, log[i := e][..i + 1]))
  {
    hide Meaning, Collide, Verified, Hashed;
    if SameEvent(log[i], e) {
      SameLogVerifies(sha, log, log[i := e]);
    } else {
      ChangeDetected(sha, log, log[i := e], i);
    }
  }

  // ---- the store ----

  function DecisionClass(t: Text): bool {
    t == Lit("Decision.stage") || t == Lit("Decision.outcome")
  }

  predicate DecisionClassValid(e: EventInput) {
    DecisionClass(e.event_type) ==> e.snapshot_id.Some? && e.snapshot_id.value != [] && e.correlation_id != []
  }

  lemma RefusedExactly(e: EventInput)
    ensures !DecisionClassValid(e) <==>
      && e.event_type in {Lit("Decision.stage"), Lit("Decision.outcome")}
      && (e.snapshot_id in {None, Some([])} || e.correlation_id == [])
  {
    hide Lit;
  }

  predicate Numbered(log: seq<Stored>) {
    forall i :: 0 <= i < |log| ==> log[i].seqNo == i + 1
  }

  /** The log grew by events of these types with these payloads. */
  ghost predicate Appended(before: seq<Stored>, after: seq<Stored>, events: seq<(Text, Value)>) {
    && before <= after && |after| == |before| + |events|
    && forall i :: 0 <= i < |events| ==>
         after[|before| + i].input.event_type == events[i].0 && after[|before| + i].input.payload == events[i].1
  }

  lemma AppendedNone(a: seq<Stored>)
    ensures Appended(a, a, [])
  {
  }

  lemma AppendedBoth(a: seq<Stored>, b: seq<Stored>, c: seq<Stored>, es: seq<(Text, Value)>, fs: seq<(Text, Value)>)
    requires Appended(a, b, es) && Appended(b, c, fs)
    ensures Appended(a, c, es + fs)
  {
  }

  class InMemoryEventStore {
    const sha: Sha
    var log: seq<Stored>

    ghost predicate Valid()
      reads this
    {
      Verified(sha, log) && Numbered(log)
    }

    constructor (sha: Sha)
      ensures Valid() && log == [] && this.sha == sha
    {
      this.sha := sha;
      log := [];
    }

    /** Appends the sealed event; throws, changing nothing, on a decision event
        without its snapshot or correlation. */
    method Append(input: Event) returns (sealed: Option<Stored>)
      requires Valid()
      modifies this`log
      ensures Valid()
      ensures sealed.Some? <==> DecisionClassValid(input)
      ensures sealed.None? <==>
        && input.event_type in {Lit("Decision.stage"), Lit("Decision.outcome")}
        && (input.snapshot_id in {None, Some([])} || input.correlation_id == [])
      ensures sealed.Some? ==> sealed.value == Seal(sha, old(log), input) && log == old(log) + [sealed.value]
      ensures sealed.None? ==> log == old(log)
    {
      hide DecisionClassValid, Verified, EventHash, LastHash, Lit;
      RefusedExactly(input);
      if !DecisionClassValid(input) {
        return None;
      }
      var e := Seal(sha, log, input);
      SealedVerifies(sha, log, input);
      log := log + [e];
      sealed := Some(e);
    }

    /** Recomputes the chain from the stored events. */
    method VerifyChain() returns (ok: bool)
      ensures ok <==> Verified(sha, log)
    {
      hide EventHash;
      var prevHash: Option<Text> := None;
      for i := 0 to |log|
        invariant Verified(sha, log[..i])
        invariant prevHash == LastHash(log[..i])
      {
        var e := log[i];
        assert log[..i + 1][..i] == log[..i];
        if e.prev_hash != prevHash || e.hash != EventHash(sha, e.input, e.seqNo, prevHash) {
          if Verified(sha, log) {
            VerifiedPrefix(sha, log, i + 1);
          }
          return false;
        }
        prevHash := Some(e.hash);
      }
      assert log[..|log|] == log;
      ok := true;
    }

    function Since(seqNo: nat): seq<Stored>
      reads this
    {
      Filter(log, (e: Stored) => e.seqNo > seqNo)
    }

    function ByCorrelation(correlationId: Text): seq<Stored>
      reads this
    {
      Filter(log, OfCorrelation(correlationId))
    }
  }

  /** On a log the store built, `since(n)` is everything behind the first n events. */
  lemma SinceIsSuffix(store: InMemoryEventStore, n: nat)
    requires store.Valid()
    ensures store.Since(n) == if n <= |store.log| then store.log[n..] else []
  {
    hide Verified;
    var log, p := store.log, (e: Stored) => e.seqNo > n;
    if n <= |log| {
      assert log == log[..n] + log[n..];
      FilterConcat(log[..n], log[n..], p);
      FilterNone(log[..n], p);
      FilterAll(log[n..], p);
    } else {
      FilterNone(log, p);
    }
  }

  function OfCorrelation(id: Text): Stored -> bool {
    (e: Stored) => e.input.correlation_id == id
  }

  /** The events of one correlation, in the order of the log. */
  lemma CorrelatedInOrder(store: InMemoryEventStore, id: Text)
    requires store.Valid()
    ensures var found := store.ByCorrelation(id);
      && (forall e :: e in found <==> e in store.log && e.input.correlation_id == id)
      && (forall i, j :: 0 <= i < j < |found| ==> found[i].seqNo < found[j].seqNo)
  {
    hide Verified;
    FilterAscends(store.log, OfCorrelation(id));
    assert store.ByCorrelation(id) == Filter(store.log, OfCorrelation(id));
  }

  lemma {:induction false} FilterAscends(log: seq<Stored>, p: Stored -> bool)
    requires forall i, j :: 0 <= i < j < |log| ==> log[i].seqNo < log[j].seqNo
    ensures var found := Filter(log, p); forall i, j :: 0 <= i < j < |found| ==> found[i].seqNo < found[j].seqNo
  {
    if log != [] {
      var front := log[..|log| - 1];
      FilterAscends(front, p);
      forall i | 0 <= i < |Filter(front, p)| ensures Filter(front, p)[i].seqNo < log[|log| - 1].seqNo {
        var k :| 0 <= k < |front| && front[k] == Filter(front, p)[i];
      }
    }
  }
}
