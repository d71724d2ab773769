/** The append-only landing of raw market records and its point-in-time reads. */
module RawStores {
  import opened Texts
  import opened Options
  import opened Sequences

  datatype Kind = TRADE | ORDERBOOK | TICKER | CANDLE

  /** `payload` is whatever was landed. */
  datatype RawRecord = RawRecord(
    kind: Kind, symbol: Text, event_time_ms: int, ingest_time_ms: int, seq_no: int, payload: Text)

  predicate Known(r: RawRecord, asOfEventMs: int, asOfIngestMs: Option<int>) {
    r.event_time_ms <= asOfEventMs && (asOfIngestMs.Some? ==> r.ingest_time_ms <= asOfIngestMs.value)
  }

  function KnownAt(asOfEventMs: int, asOfIngestMs: Option<int>): RawRecord -> bool {
    r => Known(r, asOfEventMs, asOfIngestMs)
  }

  function AsOf(records: seq<RawRecord>, asOfEventMs: int, asOfIngestMs: Option<int>): seq<RawRecord> {
    Filter(records, KnownAt(asOfEventMs, asOfIngestMs))
  }

  datatype AsOfQuery = AsOfQuery(asOfEventMs: int, asOfIngestMs: Option<int>, symbol: Option<Text>, kind: Option<Kind>)

  /** An empty symbol asks for all symbols. */
  predicate SymbolAsked(q: AsOfQuery, r: RawRecord) {
    q.symbol.Some? && q.symbol.value != [] ==> r.symbol == q.symbol.value
  }

  predicate KindAsked(q: AsOfQuery, r: RawRecord) {
    q.kind.Some? ==> r.kind == q.kind.value
  }

  predicate Answers(q: AsOfQuery, r: RawRecord) {
    Known(r, q.asOfEventMs, q.asOfIngestMs) && SymbolAsked(q, r) && KindAsked(q, r)
  }

  function ForSymbol(q: AsOfQuery): RawRecord -> bool {
    r => SymbolAsked(q, r)
  }

  function ForKind(q: AsOfQuery): RawRecord -> bool {
    r => KindAsked(q, r)
  }

  function QueryAsOf(records: seq<RawRecord>, q: AsOfQuery): seq<RawRecord> {
    Filter(Filter(AsOf(records, q.asOfEventMs, q.asOfIngestMs), ForSymbol(q)), ForKind(q))
  }

  lemma QueryAppend(records: seq<RawRecord>, r: RawRecord, q: AsOfQuery)
    ensures QueryAsOf(records + [r], q) == QueryAsOf(records, q) + if Answers(q, r) then [r] else []
  {
    hide Filter, Known, SymbolAsked, KindAsked;
    var known := AsOf(records, q.asOfEventMs, q.asOfIngestMs);
    assert forall s: seq<RawRecord> :: s + [] == s;
    FilterSnoc(records, r, KnownAt(q.asOfEventMs, q.asOfIngestMs));
    FilterSnoc(known, r, ForSymbol(q));
    FilterSnoc(Filter(known, ForSymbol(q)), r, ForKind(q));
  }

  /** The three filters in a row are one: known by then, and asked for. */
  lemma {:induction false} QueryIsOneFilter(records: seq<RawRecord>, q: AsOfQuery)
    ensures QueryAsOf(records, q) == Filter(records, (r: RawRecord) => Answers(q, r))
  {
    hide QueryAsOf, Answers;
    if records == [] {
      QueryNothing(q);
    } else {
      var front, r := records[..|records| - 1], records[|records| - 1];
      QueryIsOneFilter(front, q);
      QueryAppend(front, r, q);
      assert records == front + [r];
    }
  }

  lemma QueryNothing(q: AsOfQuery)
    ensures QueryAsOf([], q) == []
  {
    assert AsOf([], q.asOfEventMs, q.asOfIngestMs) == [];
  }

  /** A read gives, in the order of landing, what happened and arrived by the asked times,
      of the asked symbol and the asked kind; what is not asked for does not narrow it, and
      neither does an empty symbol. */
  lemma QueryNext(records: seq<RawRecord>, r: RawRecord, q: AsOfQuery)
    ensures QueryAsOf([], q) == []
    ensures QueryAsOf(records + [r], q) == QueryAsOf(records, q) +
      if && r.event_time_ms <= q.asOfEventMs
         && (q.asOfIngestMs.None? || r.ingest_time_ms <= q.asOfIngestMs.value)
         && q.symbol in {None, Some([]), Some(r.symbol)}
         && q.kind in {None, Some(r.kind)}
      then [r] else []
  {
    QueryNothing(q);
    QueryAppend(records, r, q);
  }

  /** A read stays the same when a record lands exactly when that record is not known at
      the asked time or not asked for. */
  lemma PastReadsStable(records: seq<RawRecord>, r: RawRecord, q: AsOfQuery)
    ensures QueryAsOf(records + [r], q) == QueryAsOf(records, q) <==> !Answers(q, r)
  {
    hide QueryAsOf, Answers;
    QueryAppend(records, r, q);
    assert |QueryAsOf(records, q) + [r]| == |QueryAsOf(records, q)| + 1;
  }

  class InMemoryRawStore {
    var records: seq<RawRecord>

    constructor ()
      ensures records == []
    {
      records := [];
    }

    method Append(r: RawRecord)
      modifies this
      ensures records == old(records) + [r]
    {
      records := records + [r];
    }
  }
}
