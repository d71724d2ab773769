/** Assessing and normalizing raw input: duplicates, disorder and gaps. */
module Quality {
  import opened Sequences
  import opened Sorting
  import opened RawStores

  datatype QualityState = COMPLETE | GAP_DETECTED | REST_FILLED | OUT_OF_ORDER | DUPLICATED

  datatype Report = Report(states: set<QualityState>, duplicates: nat, outOfOrder: nat, gaps: int, restFilled: nat)

  // ---- what is counted ----

  predicate SeenBefore(rs: seq<RawRecord>, i: nat)
    requires i < |rs|
  {
    exists j :: 0 <= j < i && rs[j].seq_no == rs[i].seq_no
  }

  predicate Late(rs: seq<RawRecord>, i: nat)
    requires i < |rs|
  {
    exists j :: 0 <= j < i && rs[i].event_time_ms < rs[j].event_time_ms
  }

  function Duplicates(rs: seq<RawRecord>): nat {
    if rs == [] then 0 else Duplicates(rs[..|rs| - 1]) + if SeenBefore(rs, |rs| - 1) then 1 else 0
  }

  function OutOfOrder(rs: seq<RawRecord>): nat {
    if rs == [] then 0 else OutOfOrder(rs[..|rs| - 1]) + if Late(rs, |rs| - 1) then 1 else 0
  }

  function Seqs(rs: seq<RawRecord>): seq<int> {
    Map(rs, (r: RawRecord) => r.seq_no)
  }

  /** What is missing between neighbours of an ordered list. */
  function Missing(sorted: seq<int>): int {
    if |sorted| < 2 then 0
    else
      var prev, cur := sorted[|sorted| - 2], sorted[|sorted| - 1];
      Missing(sorted[..|sorted| - 1]) + if cur - prev > 1 then cur - prev - 1 else 0
  }

  function Gaps(seqs: seq<int>): int {
    Missing(Sort(seqs, AtMost))
  }

  function RestFilled(rs: seq<RawRecord>, filled: set<int>): nat {
    |Filter(rs, (r: RawRecord) => r.seq_no in filled)|
  }

  function States(duplicates: nat, outOfOrder: nat, gaps: int, restFilled: nat): set<QualityState> {
    var s := (if duplicates > 0 then {DUPLICATED} else {}) + (if outOfOrder > 0 then {OUT_OF_ORDER} else {})
             + (if gaps > 0 then {GAP_DETECTED} else {}) + (if restFilled > 0 then {REST_FILLED} else {});
    if s == {} then {COMPLETE} else s
  }

  function Assess(rs: seq<RawRecord>, filled: set<int>): Report {
    var d, o, g, f := Duplicates(rs), OutOfOrder(rs), Gaps(Seqs(rs)), RestFilled(rs, filled);
    Report(States(d, o, g, f), d, o, g, f)
  }

  method DetectGaps(seqs: seq<int>) returns (missing: int)
    ensures missing == Gaps(seqs)
  {
    var sorted := Sort(seqs, AtMost);
    missing := 0;
    var i := 1;
    while i < |sorted|
      invariant 1 <= i && (sorted != [] ==> i <= |sorted|)
      invariant missing == if sorted == [] then 0 else Missing(sorted[..i])
    {
      assert sorted[..i + 1][..i] == sorted[..i];
      if sorted[i] - sorted[i - 1] > 1 {
        missing := missing + (sorted[i] - sorted[i - 1] - 1);
      }
      i := i + 1;
    }
    assert sorted != [] ==> sorted[..|sorted|] == sorted;
  }

  method AssessQuality(rs: seq<RawRecord>, filled: set<int>) returns (r: Report)
    ensures r == Assess(rs, filled)
  {
    var seen: set<int> := {};
    var duplicates, outOfOrder := 0, 0;
    var lastEv := 0;
    for i := 0 to |rs|
      invariant forall s :: s in seen <==> exists j :: 0 <= j < i && rs[j].seq_no == s
      invariant duplicates == Duplicates(rs[..i]) && outOfOrder == OutOfOrder(rs[..i])
      invariant forall j :: 0 <= j < i ==> rs[j].event_time_ms <= lastEv
      invariant i > 0 ==> exists j :: 0 <= j < i && rs[j].event_time_ms == lastEv
    {
      CountNext(rs, i);
      if rs[i].seq_no in seen {
        duplicates := duplicates + 1;
      } else {
        seen := seen + {rs[i].seq_no};
      }
      if i > 0 && rs[i].event_time_ms < lastEv {
        outOfOrder := outOfOrder + 1;
      }
      if i == 0 || lastEv < rs[i].event_time_ms {
        lastEv := rs[i].event_time_ms;
      }
    }
    assert rs[..|rs|] == rs;
    var gaps := DetectGaps(Seqs(rs));
    r := Report(States(duplicates, outOfOrder, gaps, RestFilled(rs, filled)), duplicates, outOfOrder, gaps, RestFilled(rs, filled));
  }

  lemma CountNext(rs: seq<RawRecord>, i: nat)
    requires i < |rs|
    ensures Duplicates(rs[..i + 1]) == Duplicates(rs[..i]) + if SeenBefore(rs, i) then 1 else 0
    ensures OutOfOrder(rs[..i + 1]) == OutOfOrder(rs[..i]) + if Late(rs, i) then 1 else 0
  {
    var front := rs[..i + 1];
    assert front[..i] == rs[..i];
    assert forall j :: 0 <= j <= i ==> front[j] == rs[j];
    assert SeenBefore(front, i) <==> SeenBefore(rs, i);
    assert Late(front, i) <==> Late(rs, i);
  }

  // ---- normalization ----

  predicate InOrder(a: RawRecord, b: RawRecord) {
    a.event_time_ms < b.event_time_ms || (a.event_time_ms == b.event_time_ms && a.seq_no <= b.seq_no)
  }

  function Dedupe(rs: seq<RawRecord>): seq<RawRecord> {
    if rs == [] then []
    else Dedupe(rs[..|rs| - 1]) + if SeenBefore(rs, |rs| - 1) then [] else [rs[|rs| - 1]]
  }

  function Normalize(rs: seq<RawRecord>): seq<RawRecord> {
    Sort(Dedupe(rs), InOrder)
  }

  method NormalizeInput(rs: seq<RawRecord>) returns (records: seq<RawRecord>, report: Report)
    ensures records == Normalize(rs) && report == Assess(rs, {})
  {
    report := AssessQuality(rs, {});
    var seen: set<int> := {};
    var deduped := [];
    for i := 0 to |rs|
      invariant forall s :: s in seen <==> exists j :: 0 <= j < i && rs[j].seq_no == s
      invariant deduped == Dedupe(rs[..i])
    {
      DedupeNext(rs, i);
      if rs[i].seq_no !in seen {
        seen := seen + {rs[i].seq_no};
        deduped := deduped + [rs[i]];
      }
    }
    assert rs[..|rs|] == rs;
    records := Sort(deduped, InOrder);
  }

  lemma DedupeNext(rs: seq<RawRecord>, i: nat)
    requires i < |rs|
    ensures Dedupe(rs[..i + 1]) == Dedupe(rs[..i]) + if SeenBefore(rs, i) then [] else [rs[i]]
  {
    var front := rs[..i + 1];
    assert front[..i] == rs[..i];
    assert SeenBefore(front, i) <==> SeenBefore(rs, i);
  }

  // ---- what normalization and the report promise ----

  /** The first record that carries its sequence number. */
  predicate FirstOfSeq(rs: seq<RawRecord>, r: RawRecord) {
    exists i :: 0 <= i < |rs| && rs[i] == r && !SeenBefore(rs, i)
  }

  lemma {:induction false} DedupeKeepsFirsts(rs: seq<RawRecord>)
    ensures forall r :: r in Dedupe(rs) <==> FirstOfSeq(rs, r)
    ensures forall i, j :: 0 <= i < j < |Dedupe(rs)| ==> Dedupe(rs)[i].seq_no != Dedupe(rs)[j].seq_no
    ensures |Dedupe(rs)| + Duplicates(rs) == |rs|
  {
    if rs != [] {
      var front, n := rs[..|rs| - 1], |rs| - 1;
      DedupeKeepsFirsts(front);
      assert forall i :: 0 <= i < n ==> rs[i] == front[i];
      assert forall i :: 0 <= i < n ==> (SeenBefore(rs, i) <==> SeenBefore(front, i));
      forall r ensures r in Dedupe(rs) <==> FirstOfSeq(rs, r) {
        if FirstOfSeq(front, r) {
          var i :| 0 <= i < |front| && front[i] == r && !SeenBefore(front, i);
          assert rs[i] == r && !SeenBefore(rs, i);
        }
        if FirstOfSeq(rs, r) {
          var i :| 0 <= i < |rs| && rs[i] == r && !SeenBefore(rs, i);
          if i < n {
            assert front[i] == r && !SeenBefore(front, i);
          }
        }
      }
      forall i | 0 <= i < |Dedupe(front)| && !SeenBefore(rs, n) ensures Dedupe(front)[i].seq_no != rs[n].seq_no {
        assert FirstOfSeq(front, Dedupe(front)[i]);
      }
    }
  }

  /** Every record that was dropped repeats a number that is kept. */
  lemma {:induction false} SeqsKept(rs: seq<RawRecord>, i: nat)
    requires i < |rs|
    ensures exists r :: r in Dedupe(rs) && r.seq_no == rs[i].seq_no
    decreases i
  {
    DedupeKeepsFirsts(rs);
    if SeenBefore(rs, i) {
      var j :| 0 <= j < i && rs[j].seq_no == rs[i].seq_no;
      SeqsKept(rs, j);
    } else {
      assert FirstOfSeq(rs, rs[i]);
    }
  }

  lemma InOrderTotal()
    ensures TotalPreorder(InOrder)
  {
  }

  /** Normalized input is ordered by time and number, holds exactly the first record of
      every number, and together with the reported duplicates accounts for all input. */
  lemma NormalizeCorrect(rs: seq<RawRecord>)
    ensures Sorted(Normalize(rs), InOrder)
    ensures forall r :: r in Normalize(rs) <==> FirstOfSeq(rs, r)
    ensures |Normalize(rs)| + Assess(rs, {}).duplicates == |rs|
  {
    hide FirstOfSeq, Duplicates, OutOfOrder, Gaps, States, Dedupe;
    InOrderTotal();
    SortCorrect(Dedupe(rs), InOrder);
    SortMembers(Dedupe(rs), InOrder);
    DedupeKeepsFirsts(rs);
  }

  /** Records whose numbers are all different are normalized alike in any order. */
  lemma ArrivalIrrelevant(a: seq<RawRecord>, b: seq<RawRecord>)
    requires multiset(a) == multiset(b)
    requires forall i, j :: 0 <= i < j < |a| ==> a[i].seq_no != a[j].seq_no
    ensures Normalize(a) == Normalize(b)
  {
    hide Dedupe, InOrder;
    InOrderTotal();
    NoneDropped(a);
    DistinctSeqs(a, b);
    NoneDropped(b);
    TiesBySeq(a);
    SortInvariant(a, b, InOrder);
  }

  lemma TiesBySeq(a: seq<RawRecord>)
    requires forall i, j :: 0 <= i < j < |a| ==> a[i].seq_no != a[j].seq_no
    ensures TiesAreEqual(a, InOrder)
  {
    forall x, y | x in a && y in a && InOrder(x, y) && InOrder(y, x) ensures x == y {
      var i :| 0 <= i < |a| && a[i] == x;
      var j :| 0 <= j < |a| && a[j] == y;
    }
  }

  lemma {:induction false} NoneDropped(rs: seq<RawRecord>)
    requires forall i, j :: 0 <= i < j < |rs| ==> rs[i].seq_no != rs[j].seq_no
    ensures Dedupe(rs) == rs
  {
    if rs != [] {
      var front, n := rs[..|rs| - 1], |rs| - 1;
      NoneDropped(front);
      assert !SeenBefore(rs, n);
      assert rs == front + [rs[n]];
    }
  }

  lemma DistinctSeqs(a: seq<RawRecord>, b: seq<RawRecord>)
    requires multiset(a) == multiset(b)
    requires forall i, j :: 0 <= i < j < |a| ==> a[i].seq_no != a[j].seq_no
    ensures forall i, j :: 0 <= i < j < |b| ==> b[i].seq_no != b[j].seq_no
  {
    DistinctKept(a, b);
    forall i, j | 0 <= i < j < |b| ensures b[i].seq_no != b[j].seq_no {
      assert b[i] in multiset(b) && b[j] in multiset(b);
      assert b[i] in a && b[j] in a;
    }
  }

  // ---- gaps ----

  /** The numbers that occur, up to a position of an ordered list. */
  function Occurring(s: seq<int>): set<int> {
    set x | x in s
  }

  lemma OccurringNext(front: seq<int>, last: int)
    ensures |Occurring(front + [last])| == |Occurring(front)| + if last in front then 0 else 1
  {
    assert Occurring(front + [last]) == Occurring(front) + {last};
    if last in front {
      assert Occurring(front) + {last} == Occurring(front);
    }
  }

  lemma MissingNext(front: seq<int>, last: int)
    requires front != []
    ensures Missing(front + [last])
      == Missing(front) + if last - front[|front| - 1] > 1 then last - front[|front| - 1] - 1 else 0
  {
    assert (front + [last])[..|front|] == front;
  }

  lemma {:induction false} MissingSpan(s: seq<int>)
    requires s != [] && Sorted(s, AtMost)
    ensures Missing(s) + |Occurring(s)| == s[|s| - 1] - s[0] + 1
  {
    hide Occurring, Missing, Sorted;
    var front, last := s[..|s| - 1], s[|s| - 1];
    assert s == front + [last];
    OccurringNext(front, last);
    if |s| == 1 {
      assert front == [];
      NothingOccurs();
      NothingMissing(last);
    } else {
      FrontKeeps(s, AtMost);
      MissingSpan(front);
      MissingNext(front, last);
      LastRepeats(s);
    }
  }

  lemma NothingMissing(x: int)
    ensures Missing([x]) == 0
  {
  }

  lemma NothingOccurs()
    ensures |Occurring([])| == 0
  {
    assert Occurring([]) == {};
  }

  lemma LastRepeats(s: seq<int>)
    requires |s| > 1 && Sorted(s, AtMost)
    ensures s[|s| - 2] <= s[|s| - 1]
    ensures s[|s| - 1] in s[..|s| - 1] <==> s[|s| - 1] == s[|s| - 2]
  {
    var front := s[..|s| - 1];
    assert forall i :: 0 <= i < |front| - 1 ==> AtMost(s[i], s[|s| - 2]);
    assert AtMost(s[|s| - 2], s[|s| - 1]);
    assert front[|front| - 1] == s[|s| - 2];
  }

  /** The first and the last number. */
  ghost predicate Spans(seqs: seq<int>, lo: int, hi: int) {
    lo in seqs && hi in seqs && forall x :: x in seqs ==> lo <= x <= hi
  }

  /** The reported gaps are exactly the numbers between the first and the last that no
      record carries: what is missing and what occurs add up to the whole range. */
  lemma GapsAreWhatIsMissing(seqs: seq<int>)
    requires seqs != []
    ensures exists lo, hi :: Spans(seqs, lo, hi) && Gaps(seqs) + |Occurring(seqs)| == hi - lo + 1
  {
    AtMostTotal();
    SortCorrect(seqs, AtMost);
    SortMembers(seqs, AtMost);
    var s := Sort(seqs, AtMost);
    assert forall i, j :: 0 <= i < j < |s| ==> AtMost(s[i], s[j]);
    MissingSpan(s);
    assert Occurring(s) == Occurring(seqs);
    assert s[0] in seqs && s[|s| - 1] in seqs;
    forall x | x in seqs ensures s[0] <= x <= s[|s| - 1] {
      var i :| 0 <= i < |s| && s[i] == x;
    }
    assert Spans(seqs, s[0], s[|s| - 1]);
  }

  /** Input is complete exactly when no number repeats, no record is older than one
      before it, and no number between the first and the last is missing. */
  lemma CompleteExactly(rs: seq<RawRecord>)
    ensures COMPLETE in Assess(rs, {}).states <==>
      && (forall i :: 0 <= i < |rs| ==> !SeenBefore(rs, i))
      && (forall i :: 0 <= i < |rs| ==> !Late(rs, i))
      && Gaps(Seqs(rs)) <= 0
  {
    hide SeenBefore, Late, Gaps;
    NoneCounted(rs);
    NoneFilled(rs);
  }

  /** Records whose numbers were filled in later are counted, and marked, on top of what the
      report says without them. */
  lemma FilledCounted(rs: seq<RawRecord>, r: RawRecord, filled: set<int>)
    ensures Assess([], filled).restFilled == 0
    ensures Assess(rs + [r], filled).restFilled == Assess(rs, filled).restFilled + if r.seq_no in filled then 1 else 0
    ensures var (with, without) := (Assess(rs, filled), Assess(rs, {}));
      && (with.duplicates, with.outOfOrder, with.gaps) == (without.duplicates, without.outOfOrder, without.gaps)
      && with.states == (if with.restFilled > 0 then without.states - {COMPLETE} + {REST_FILLED} else without.states)
  {
    hide Duplicates, OutOfOrder, Gaps, Filter;
    NoneFilled(rs);
    FilterSnoc(rs, r, (x: RawRecord) => x.seq_no in filled);
    FilledNothing(filled);
    StatesFilled(Duplicates(rs), OutOfOrder(rs), Gaps(Seqs(rs)), RestFilled(rs, filled));
  }

  lemma FilledNothing(filled: set<int>)
    ensures RestFilled([], filled) == 0
  {
  }

  lemma StatesFilled(d: nat, o: nat, g: int, f: nat)
    ensures States(d, o, g, f) == if f > 0 then States(d, o, g, 0) - {COMPLETE} + {REST_FILLED} else States(d, o, g, 0)
  {
  }

  lemma NoneFilled(rs: seq<RawRecord>)
    ensures RestFilled(rs, {}) == 0
  {
    var filled: set<int> := {};
    assert Filter(rs, (r: RawRecord) => r.seq_no in filled) == [] by {
      FilterNone(rs, (r: RawRecord) => r.seq_no in filled);
    }
  }

  lemma {:induction false} NoneCounted(rs: seq<RawRecord>)
    ensures Duplicates(rs) == 0 <==> forall i :: 0 <= i < |rs| ==> !SeenBefore(rs, i)
    ensures OutOfOrder(rs) == 0 <==> forall i :: 0 <= i < |rs| ==> !Late(rs, i)
  {
    if rs != [] {
      var front, n := rs[..|rs| - 1], |rs| - 1;
      NoneCounted(front);
      assert forall i :: 0 <= i < n ==> rs[i] == front[i];
      assert forall i :: 0 <= i < n ==> (SeenBefore(rs, i) <==> SeenBefore(front, i));
      assert forall i :: 0 <= i < n ==> (Late(rs, i) <==> Late(front, i));
    }
  }
}
