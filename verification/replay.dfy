/** Replay sessions: a cursor over a slice of the log, its state hash, and the agreement of
    replays with live runs. */
module Replay {
  import opened Texts
  import opened Options
  import opened Sequences
  import opened CanonicalJson
  import JsonReader
  import Sorting
  import opened EventLog
  import opened Projections

  // ---- the state hash ----

  /** The rolling hash over the hashes of the applied events. */
  function FoldHash(sha: Sha, events: seq<Stored>): Option<Text> {
    if events == [] then None
    else
      Some(ChainHash(sha, FoldHash(sha, events[..|events| - 1]), ContentHash(sha, Str(events[|events| - 1].hash))))
  }

  /** The texts that folding hashes. */
  function Folded(sha: Sha, events: seq<Stored>): set<Text> {
    if events == [] then {}
    else
      var front, text := events[..|events| - 1], Canonical(Str(events[|events| - 1].hash));
      Folded(sha, front) + {text, ChainText(FoldHash(sha, front), sha(text))}
  }

  function Hashes(events: seq<Stored>): seq<Text> {
    Map(events, (e: Stored) => e.hash)
  }

  lemma FoldDigest(sha: Sha, events: seq<Stored>)
    requires IsDigest(sha)
    ensures FoldHash(sha, events).Some? ==> |FoldHash(sha, events).value| == 64
    ensures FoldHash(sha, events).None? <==> events == []
  {
    hide Canonical;
  }

  /** One link of the rolling hash: equal digests come from equal texts behind equal
      predecessors. */
  lemma FoldLink(sha: Sha, p: Option<Text>, x: Text, q: Option<Text>, y: Text)
    requires IsDigest(sha)
    requires p.Some? ==> |p.value| == 64
    requires q.Some? ==> |q.value| == 64
    requires sha(ChainText(p, sha(x))) == sha(ChainText(q, sha(y)))
    ensures
      || (x == y && p == q)
      || (x != y && sha(x) == sha(y))
      || ChainText(p, sha(x)) != ChainText(q, sha(y))
  {
    var s, t := ChainText(p, sha(x)), ChainText(q, sha(y));
    assert |s| == (if p.None? then 64 else 128) && |t| == (if q.None? then 64 else 128);
    if s == t {
      assert sha(x) == s[|s| - 64..] && sha(y) == t[|t| - 64..];
      assert p.Some? ==> p.value == s[..64] && q.value == t[..64];
    }
  }

  lemma LastFold(sha: Sha, a: seq<Stored>, b: seq<Stored>)
    requires IsDigest(sha) && a != [] && b != [] && FoldHash(sha, a) == FoldHash(sha, b)
    ensures
      || Collide(sha, Folded(sha, a), Folded(sha, b))
      || (a[|a| - 1].hash == b[|b| - 1].hash && FoldHash(sha, a[..|a| - 1]) == FoldHash(sha, b[..|b| - 1]))
  {
    hide Canonical, ChainText, IsDigest;
    var p, q := FoldHash(sha, a[..|a| - 1]), FoldHash(sha, b[..|b| - 1]);
    FoldDigest(sha, a[..|a| - 1]);
    FoldDigest(sha, b[..|b| - 1]);
    var x, y := Canonical(Str(a[|a| - 1].hash)), Canonical(Str(b[|b| - 1].hash));
    FoldLink(sha, p, x, q, y);
    assert x in Folded(sha, a) && ChainText(p, sha(x)) in Folded(sha, a);
    assert y in Folded(sha, b) && ChainText(q, sha(y)) in Folded(sha, b);
    if x == y {
      JsonReader.CanonicalExact(Str(a[|a| - 1].hash), Str(b[|b| - 1].hash));
    }
  }

  /** Equal state hashes come from equal sequences of event hashes, or folding them hashed
      two different texts to the same digest. */
  lemma {:induction false} StateHashExact(sha: Sha, a: seq<Stored>, b: seq<Stored>)
    requires IsDigest(sha) && FoldHash(sha, a) == FoldHash(sha, b)
    ensures Hashes(a) == Hashes(b) || Collide(sha, Folded(sha, a), Folded(sha, b))
  {
    hide Canonical, ChainText, ChainHash, ContentHash;
    FoldDigest(sha, a);
    FoldDigest(sha, b);
    if a != [] {
      LastFold(sha, a, b);
      var a', b' := a[..|a| - 1], b[..|b| - 1];
      if FoldHash(sha, a') == FoldHash(sha, b') {
        StateHashExact(sha, a', b');
        LastHashes(a);
        LastHashes(b);
        WiderCollision(sha, a, b);
      }
    }
  }

  lemma LastHashes(a: seq<Stored>)
    requires a != []
    ensures Hashes(a) == Hashes(a[..|a| - 1]) + [a[|a| - 1].hash]
  {
  }

  lemma WiderCollision(sha: Sha, a: seq<Stored>, b: seq<Stored>)
    requires a != [] && b != []
    ensures Collide(sha, Folded(sha, a[..|a| - 1]), Folded(sha, b[..|b| - 1])) ==> Collide(sha, Folded(sha, a), Folded(sha, b))
  {
    hide Canonical, ChainText;
    assert Folded(sha, a[..|a| - 1]) <= Folded(sha, a) && Folded(sha, b[..|b| - 1]) <= Folded(sha, b);
    hide Folded;
  }

  /** Two checked logs whose replays end in the same state are the same log, event by
      event, or some two different texts that were hashed share a digest. */
  lemma ReplayIdentifiesLog(sha: Sha, a: seq<Stored>, b: seq<Stored>)
    requires IsDigest(sha) && Verified(sha, a) && Verified(sha, b) && FoldHash(sha, a) == FoldHash(sha, b)
    ensures SameLog(a, b) || Collide(sha, Hashed(sha, a), Hashed(sha, b)) || Collide(sha, Folded(sha, a), Folded(sha, b))
  {
    hide Verified, Hashed, Folded, FoldHash, SameLog, Collide;
    StateHashExact(sha, a, b);
    if Hashes(a) == Hashes(b) {
      assert |a| == |Hashes(a)| && |b| == |Hashes(b)|;
      assert a != [] ==> Hashes(a)[|a| - 1] == a[|a| - 1].hash && Hashes(b)[|a| - 1] == b[|a| - 1].hash;
      TamperEvidence(sha, a, b);
    }
  }

  // ---- the cursor ----

  datatype Status = Created | Running | Paused | Finished | Failed

  /** `idx` is the last applied position, -1 before the first. */
  datatype Cursor = Cursor(idx: int, status: Status)

  function FindSeq(slice: seq<Stored>, seqNo: int): (i: int)
    ensures -1 <= i < |slice|
    ensures i >= 0 ==> slice[i].seqNo == seqNo && forall j :: 0 <= j < i ==> slice[j].seqNo != seqNo
    ensures i < 0 ==> forall j :: 0 <= j < |slice| ==> slice[j].seqNo != seqNo
  {
    if slice == [] then -1
    else
      var front := FindSeq(slice[..|slice| - 1], seqNo);
      if front >= 0 then front else if slice[|slice| - 1].seqNo == seqNo then |slice| - 1 else -1
  }

  datatype Control = Begin | ApplyNext | SeekTo(seqNo: int) | Pause | Resume | Fail

  function Move(slice: seq<Stored>, c: Cursor, a: Control): Cursor {
    match a
    case Begin => c.(status := Running)
    case ApplyNext => if c.idx + 1 >= |slice| then c.(status := Finished) else c.(idx := c.idx + 1)
    case SeekTo(n) => c.(idx := FindSeq(slice, n))
    case Pause => if c.status == Running then c.(status := Paused) else c
    case Resume => if c.status == Paused then c.(status := Running) else c
    case Fail => c.(status := Failed)
  }

  function Moves(slice: seq<Stored>, controls: seq<Control>): Cursor {
    if controls == [] then Cursor(-1, Created)
    else Move(slice, Moves(slice, controls[..|controls| - 1]), controls[|controls| - 1])
  }

  function Applied(slice: seq<Stored>, c: Cursor): seq<Stored>
    requires -1 <= c.idx < |slice|
  {
    slice[..c.idx + 1]
  }

  lemma {:induction false} CursorInSlice(slice: seq<Stored>, controls: seq<Control>)
    ensures -1 <= Moves(slice, controls).idx < |slice|
  {
    if controls != [] {
      CursorInSlice(slice, controls[..|controls| - 1]);
    }
  }

  /** After any runs of seeking, pausing, resuming and stepping over one slice, two sessions
      have the same state hash when they applied equally many events; and only then, or
      folding hashed two different texts to the same digest. */
  lemma StateIsPosition(sha: Sha, slice: seq<Stored>, x: seq<Control>, y: seq<Control>)
    requires IsDigest(sha)
    ensures -1 <= Moves(slice, x).idx < |slice| && -1 <= Moves(slice, y).idx < |slice|
    ensures var m, n := Moves(slice, x), Moves(slice, y);
      var a, b := Applied(slice, m), Applied(slice, n);
      && (m.idx == n.idx ==> FoldHash(sha, a) == FoldHash(sha, b))
      && (FoldHash(sha, a) == FoldHash(sha, b) ==> m.idx == n.idx || Collide(sha, Folded(sha, a), Folded(sha, b)))
  {
    hide FoldHash, Folded, Collide;
    CursorInSlice(slice, x);
    CursorInSlice(slice, y);
    var a, b := Applied(slice, Moves(slice, x)), Applied(slice, Moves(slice, y));
    if FoldHash(sha, a) == FoldHash(sha, b) {
      StateHashExact(sha, a, b);
      assert |Hashes(a)| == |a| && |Hashes(b)| == |b|;
    }
  }

  /** A pause holds a running session and nothing else, and resuming undoes just that;
      neither moves the cursor. Beginning and failing always set the status. */
  lemma PauseUndone(slice: seq<Stored>, controls: seq<Control>)
    ensures var c := Moves(slice, controls);
      var paused := Moves(slice, controls + [Pause]);
      && paused == (if c.status == Running then Cursor(c.idx, Paused) else c)
      && Moves(slice, controls + [Pause] + [Resume]) == (if c.status == Paused then Cursor(c.idx, Running) else c)
      && Moves(slice, controls + [Begin]) == Cursor(c.idx, Running)
      && Moves(slice, controls + [Fail]) == Cursor(c.idx, Failed)
  {
    hide Moves;
    MovesNext(slice, controls, Pause);
    MovesNext(slice, controls + [Pause], Resume);
    MovesNext(slice, controls, Begin);
    MovesNext(slice, controls, Fail);
  }

  lemma MovesNext(slice: seq<Stored>, controls: seq<Control>, a: Control)
    ensures Moves(slice, controls + [a]) == Move(slice, Moves(slice, controls), a)
  {
    hide Move;
    assert (controls + [a])[..|controls|] == controls;
  }

  // ---- finished sessions ----

  /** Stepping and pausing: what may follow a seek without undoing it. */
  predicate Stepping(controls: seq<Control>) {
    forall i :: 0 <= i < |controls| ==> controls[i].ApplyNext? || controls[i].Pause? || controls[i].Resume?
  }

  function Steps(controls: seq<Control>): nat {
    if controls == [] then 0
    else Steps(controls[..|controls| - 1]) + if controls[|controls| - 1].ApplyNext? then 1 else 0
  }

  /** A seek leaves events to apply exactly when it does not find the last one first. */
  lemma SeekLeavesExactly(slice: seq<Stored>, c: Cursor, n: int)
    ensures Move(slice, c, SeekTo(n)).idx < |slice| - 1
      <==> slice != [] && (slice[|slice| - 1].seqNo != n || exists j :: 0 <= j < |slice| - 1 && slice[j].seqNo == n)
  {
  }

  /** A session that never sought is finished only with nothing left to apply. */
  lemma {:induction false} FinishedIsDone(slice: seq<Stored>, controls: seq<Control>)
    requires forall i :: 0 <= i < |controls| ==> !controls[i].SeekTo?
    ensures Moves(slice, controls).status == Finished ==> Moves(slice, controls).idx == |slice| - 1
  {
    if controls != [] {
      FinishedIsDone(slice, controls[..|controls| - 1]);
      CursorInSlice(slice, controls[..|controls| - 1]);
    }
  }

  /** The i-th control sought in a finished session, and only steps came after it. */
  predicate SoughtLast(slice: seq<Stored>, controls: seq<Control>, i: nat) {
    && i < |controls| && controls[i].SeekTo?
    && Moves(slice, controls[..i]).status == Finished
    && Stepping(controls[i + 1..])
  }

  /** Where a finished session stands that sought and stepped on. */
  lemma {:induction false} SteppedOn(slice: seq<Stored>, controls: seq<Control>, i: nat)
    requires SoughtLast(slice, controls, i)
    ensures var at := FindSeq(slice, controls[i].seqNo) + Steps(controls[i + 1..]);
      Moves(slice, controls) == Cursor(if at < |slice| then at else |slice| - 1, Finished)
    decreases |controls|
  {
    hide FindSeq;
    var front := controls[..|controls| - 1];
    if i == |front| {
      assert controls[..i] == front && controls[i + 1..] == [];
    } else {
      assert front[..i] == controls[..i] && front[i + 1..] == controls[i + 1..][..|controls| - i - 2];
      SteppedOn(slice, front, i);
    }
  }

  lemma SoughtNext(slice: seq<Stored>, controls: seq<Control>, a: Control, i: nat)
    requires SoughtLast(slice, controls, i) && Stepping([a])
    ensures SoughtLast(slice, controls + [a], i)
  {
    assert (controls + [a])[..i] == controls[..i];
    assert (controls + [a])[i + 1..] == controls[i + 1..] + [a];
    assert [a][0] == a;
  }

  /** A finished session with events left to apply has sought since it finished. */
  lemma {:induction false} BehindHasSought(slice: seq<Stored>, controls: seq<Control>) returns (i: nat)
    requires Moves(slice, controls).status == Finished && Moves(slice, controls).idx < |slice| - 1
    ensures SoughtLast(slice, controls, i)
  {
    hide FindSeq, Stepping, SoughtLast;
    var front, a := controls[..|controls| - 1], controls[|controls| - 1];
    assert controls == front + [a];
    if a.SeekTo? {
      i := |front|;
      assert SoughtLast(slice, controls, i) by { JustSought(slice, front, a); }
    } else {
      i := BehindHasSought(slice, front);
      SoughtNext(slice, front, a, i);
    }
  }

  lemma JustSought(slice: seq<Stored>, front: seq<Control>, a: Control)
    requires a.SeekTo? && Moves(slice, front).status == Finished
    ensures SoughtLast(slice, front + [a], |front|)
  {
    assert (front + [a])[..|front|] == front && (front + [a])[|front| + 1..] == [];
  }

  /** A session is finished with events left to apply exactly when, since it finished, it
      sought a number from which the steps made afterwards do not reach the end. */
  lemma FinishedBehindExactly(slice: seq<Stored>, controls: seq<Control>)
    ensures (Moves(slice, controls).status == Finished && Moves(slice, controls).idx < |slice| - 1)
      <==> exists i: nat ::
             SoughtLast(slice, controls, i) && FindSeq(slice, controls[i].seqNo) + Steps(controls[i + 1..]) < |slice| - 1
  {
    hide FindSeq, SoughtLast, Move;
    if Moves(slice, controls).status == Finished && Moves(slice, controls).idx < |slice| - 1 {
      var i := BehindHasSought(slice, controls);
      SoughtIsSeek(slice, controls, i);
      SteppedOn(slice, controls, i);
    }
    forall i: nat | SoughtLast(slice, controls, i)
      ensures i < |controls| && controls[i].SeekTo?
      ensures FindSeq(slice, controls[i].seqNo) + Steps(controls[i + 1..]) < |slice| - 1
        ==> Moves(slice, controls).status == Finished && Moves(slice, controls).idx < |slice| - 1
    {
      SoughtIsSeek(slice, controls, i);
      SteppedOn(slice, controls, i);
    }
  }

  lemma SoughtIsSeek(slice: seq<Stored>, controls: seq<Control>, i: nat)
    requires SoughtLast(slice, controls, i)
    ensures i < |controls| && controls[i].SeekTo?
  {
  }

  /** Seeking back does not reopen a finished session: it stays marked as done although
      events are left to apply. */
  lemma FinishedMayBeBehind(e: Stored)
    requires e.seqNo == 1
    ensures Moves([e], [Begin, ApplyNext, ApplyNext, SeekTo(2)]) == Cursor(-1, Finished)
  {
    var all := [Begin, ApplyNext, ApplyNext, SeekTo(2)];
    assert all[..3] == [Begin, ApplyNext, ApplyNext] && all[..3][..2] == [Begin, ApplyNext];
    assert all[..3][..2][..1] == [Begin] && [Begin][..0] == [];
    assert Moves([e], [Begin]) == Cursor(-1, Running);
    assert Moves([e], [Begin, ApplyNext]) == Cursor(0, Running);
    assert Moves([e], [Begin, ApplyNext, ApplyNext]) == Cursor(0, Finished);
  }

  // ---- the session ----

  class ReplaySession {
    const sha: Sha
    const slice: seq<Stored>
    const fromSeq: int
    var idx: int
    var status: Status

    ghost predicate Valid()
      reads this
    {
      -1 <= idx < |slice|
    }

    function View(): Cursor
      reads this
    {
      Cursor(idx, status)
    }

    constructor (sha: Sha, slice: seq<Stored>, fromSeq: int)
      ensures Valid() && this.sha == sha && this.slice == slice && this.fromSeq == fromSeq
      ensures View() == Cursor(-1, Created)
    {
      this.sha, this.slice, this.fromSeq := sha, slice, fromSeq;
      idx, status := -1, Created;
    }

    method BeginSession()
      requires Valid()
      modifies this
      ensures Valid() && View() == Move(slice, old(View()), Begin)
    {
      status := Running;
    }

    method Next() returns (e: Option<Stored>)
      requires Valid()
      modifies this
      ensures Valid() && View() == Move(slice, old(View()), ApplyNext)
      ensures e == if old(idx) + 1 < |slice| then Some(slice[old(idx) + 1]) else None
    {
      if idx + 1 >= |slice| {
        status := Finished;
        return None;
      }
      idx := idx + 1;
      e := Some(slice[idx]);
    }

    method Seek(toSeq: int)
      requires Valid()
      modifies this
      ensures Valid() && View() == Move(slice, old(View()), SeekTo(toSeq))
    {
      idx := FindSeq(slice, toSeq);
    }

    method PauseSession()
      requires Valid()
      modifies this
      ensures Valid() && View() == Move(slice, old(View()), Pause)
    {
      if status == Running {
        status := Paused;
      }
    }

    method ResumeSession()
      requires Valid()
      modifies this
      ensures Valid() && View() == Move(slice, old(View()), Resume)
    {
      if status == Paused {
        status := Running;
      }
    }

    method CurrentSeq() returns (n: int)
      requires Valid()
      ensures n == if idx >= 0 then slice[idx].seqNo else fromSeq - 1
    {
      n := if idx >= 0 then slice[idx].seqNo else fromSeq - 1;
    }

    /** Folds the hashes of the applied events from the start. */
    method StateHash() returns (h: Option<Text>)
      requires Valid()
      ensures h == FoldHash(sha, Applied(slice, View()))
    {
      hide ContentHash, ChainHash;
      h := None;
      for i := 0 to idx + 1
        invariant h == FoldHash(sha, slice[..i])
      {
        assert slice[..i + 1][..i] == slice[..i];
        h := Some(ChainHash(sha, h, ContentHash(sha, Str(slice[i].hash))));
      }
    }

    /** From any cursor, paused, failed or finished: everything is applied in the end. */
    method RunToEnd()
      requires Valid()
      modifies this
      ensures Valid() && status == Finished && idx == |slice| - 1
      ensures Applied(slice, View()) == slice
    {
      var e := Next();
      while e.Some?
        invariant Valid()
        invariant e.None? ==> status == Finished && idx == |slice| - 1
        decreases e.Some?, |slice| - idx
      {
        e := Next();
      }
    }

    /** The projection over the applied events: what a live run had computed by then. */
    method Project<S>(p: Projection<S>, up: Option<Upcaster>) returns (state: S)
      requires Valid()
      ensures state == Fold(slice[..idx + 1], p, up, p.initial)
    {
      var projected, _ := RunPipeline(slice[..idx + 1], p, up, false);
      state := projected;
    }

    /** One record per correlation id among the applied events, in order of first sight. */
    method Decisions() returns (out: seq<DecisionRecord>)
      requires Valid()
      ensures out == DecisionsOf(slice[..idx + 1])
    {
      hide ProjectDecision;
      var applied := slice[..idx + 1];
      var byCorr, ids := GroupByCorrelation(applied);
      out := [];
      for i := 0 to |ids|
        invariant out == Records(applied, ids[..i])
      {
        assert ids[..i + 1][..i] == ids[..i];
        assert ids[i] in ids;
        ProjectsSome(byCorr[ids[i]]);
        out := out + [ProjectDecision(byCorr[ids[i]]).value];
      }
      assert ids[..|ids|] == ids;
    }
  }

  // ---- the engine ----

  /** The event that a run to the end is recorded by. */
  function FinishedEvent(sessionId: Text, final: Option<Text>, applied: nat): (Text, Value) {
    (Lit("Replay.finished"),
     Obj([(Lit("session_id"), Str(sessionId)),
          (Lit("final_state_hash"), Str(if final.Some? then final.value else [])),
          (Lit("applied"), Num(NatNumber(applied)))]))
  }

  lemma FinishedValid(sessionId: Text, final: Option<Text>, applied: nat)
    ensures Valid(FinishedEvent(sessionId, final, applied).1)
    ensures !DecisionClass(FinishedEvent(sessionId, final, applied).0)
  {
    hide NatNumber;
    assert |Lit("session_id")| == 10 && |Lit("final_state_hash")| == 16 && |Lit("applied")| == 7;
    assert Lit("Replay.finished")[0] == 0x52 && Lit("Decision.stage")[0] == 0x44 && Lit("Decision.outcome")[0] == 0x44;
  }

  /** Drives sessions, and records what it did in a log of its own. */
  class ReplayEngine {
    const replayLog: InMemoryEventStore

    constructor (replayLog: InMemoryEventStore)
      ensures this.replayLog == replayLog
    {
      this.replayLog := replayLog;
    }

    method Emit(sessionId: Text, event: (Text, Value), at: Text)
      requires replayLog.Valid() && Valid(event.1) && !DecisionClass(event.0)
      modifies replayLog`log
      ensures replayLog.Valid() && Appended(old(replayLog.log), replayLog.log, [event])
    {
      hide EventHash, Lit, InMemoryEventStore.Valid;
      var e := EventInput(Lit("re-") + sessionId + Lit("-") + event.0, event.0, at, at,
                          Lit("replay-engine"), 1, Some(Lit("replay")), sessionId, None, event.1);
      var sealed := replayLog.Append(e);
      SealedInput(replayLog.sha, old(replayLog.log), e);
    }

    /** Runs a session to its end and records its final hash. */
    method RunToEnd(s: ReplaySession, sessionId: Text, at: Text)
      requires s.Valid() && replayLog.Valid()
      modifies s, replayLog`log
      ensures s.Valid() && replayLog.Valid()
      ensures s.View() == Cursor(|s.slice| - 1, Finished)
      ensures Appended(old(replayLog.log), replayLog.log, [FinishedEvent(sessionId, FoldHash(s.sha, s.slice), |s.slice|)])
    {
      hide FinishedEvent, Appended, FoldHash, InMemoryEventStore.Valid;
      s.RunToEnd();
      assert s.slice[..s.idx + 1] == s.slice;
      var final := s.StateHash();
      FinishedValid(sessionId, final, |s.slice|);
      Emit(sessionId, FinishedEvent(sessionId, final, |s.slice|), at);
    }
  }

  /** A replay from any cursor of a session ends in the hash and the state that a live run
      over the same events ends in. */
  method ReplayMatchesLive<S>(s: ReplaySession, p: Projection<S>, up: Option<Upcaster>)
    returns (hash: Option<Text>, state: S, live: S)
    requires s.Valid()
    modifies s
    ensures s.Valid() && hash == FoldHash(s.sha, s.slice)
    ensures state == live == Fold(s.slice, p, up, p.initial)
  {
    s.RunToEnd();
    assert s.slice[..s.idx + 1] == s.slice;
    hash := s.StateHash();
    state := s.Project(p, up);
    var ran, _ := RunPipeline(s.slice, p, up, true);
    live := ran;
  }

  // ---- decisions ----

  function ForCorrelation(id: Text): Stored -> bool {
    (e: Stored) => e.input.correlation_id == id
  }

  function Explained(events: seq<Stored>, id: Text): seq<Stored> {
    Filter(events, ForCorrelation(id))
  }

  function Ids(events: seq<Stored>): seq<Text> {
    if events == [] then []
    else
      var front, id := Ids(events[..|events| - 1]), events[|events| - 1].input.correlation_id;
      if id in front then front else front + [id]
  }

  function Records(events: seq<Stored>, ids: seq<Text>): seq<DecisionRecord> {
    if ids == [] then []
    else
      Records(events, ids[..|ids| - 1])
        + match ProjectDecision(Explained(events, ids[|ids| - 1])) case None => [] case Some(d) => [d]
  }

  function DecisionsOf(events: seq<Stored>): seq<DecisionRecord> {
    Records(events, Ids(events))
  }

  lemma {:induction false} IdsAre(events: seq<Stored>, id: Text)
    ensures id in Ids(events) <==> Explained(events, id) != []
    ensures forall i, j :: 0 <= i < j < |Ids(events)| ==> Ids(events)[i] != Ids(events)[j]
  {
    if events != [] {
      var front, e := events[..|events| - 1], events[|events| - 1];
      IdsAre(front, id);
      assert events == front + [e];
      FilterSnoc(front, e, ForCorrelation(id));
    }
  }

  lemma NoGroups()
    ensures Ids([]) == []
  {
  }

  method GroupByCorrelation(events: seq<Stored>) returns (byCorr: map<Text, seq<Stored>>, ids: seq<Text>)
    ensures ids == Ids(events)
    ensures forall id :: id in byCorr <==> id in ids
    ensures forall id :: id in byCorr ==> byCorr[id] == Explained(events, id) && byCorr[id] != []
  {
    hide Explained, Ids;
    byCorr, ids := map[], [];
    NoGroups();
    for i := 0 to |events|
      invariant ids == Ids(events[..i])
      invariant forall id :: id in byCorr <==> id in ids
      invariant forall id :: id in byCorr ==> byCorr[id] == Explained(events[..i], id) && byCorr[id] != []
    {
      var e := events[i];
      var id := e.input.correlation_id;
      assert events[..i + 1] == events[..i] + [e];
      GroupNext(events[..i], e);
      byCorr := byCorr[id := (if id in byCorr then byCorr[id] else []) + [e]];
      if id !in ids {
        ids := ids + [id];
      }
    }
    assert events[..|events|] == events;
  }

  lemma GroupNext(events: seq<Stored>, e: Stored)
    ensures var id := e.input.correlation_id;
      && Ids(events + [e]) == (if id in Ids(events) then Ids(events) else Ids(events) + [id])
      && (id !in Ids(events) ==> Explained(events, id) == [])
      && (forall x :: Explained(events + [e], x) == Explained(events, x) + if x == id then [e] else [])
  {
    assert (events + [e])[..|events + [e]| - 1] == events;
    IdsAre(events, e.input.correlation_id);
    forall x ensures Explained(events + [e], x) == Explained(events, x) + if x == e.input.correlation_id then [e] else [] {
      FilterSnoc(events, e, ForCorrelation(x));
    }
  }

  lemma ProjectsSome(events: seq<Stored>)
    requires events != []
    ensures ProjectDecision(events).Some?
  {
    hide RecordOf;
    BySeqTotal();
    Sorting.SortCorrect(events, BySeq);
  }

  /** Exactly one record per correlation id of the events, in order of first sight, each
      the projection of that id's events. */
  lemma {:induction false} OneRecordPerDecision(events: seq<Stored>, n: nat)
    requires n <= |Ids(events)|
    ensures |Records(events, Ids(events)[..n])| == n
    ensures forall i :: 0 <= i < n ==>
      Some(Records(events, Ids(events)[..n])[i]) == ProjectDecision(Explained(events, Ids(events)[i]))
  {
    hide ProjectDecision, Ids, Explained;
    var ids := Ids(events);
    if n > 0 {
      OneRecordPerDecision(events, n - 1);
      assert ids[..n][..n - 1] == ids[..n - 1];
      assert ids[n - 1] in ids;
      IdsAre(events, ids[n - 1]);
      ProjectsSome(Explained(events, ids[n - 1]));
    }
  }

  /** What a replay decides about an id is what the log's own events of that id decide. */
  lemma DecisionsMatch(events: seq<Stored>)
    ensures |DecisionsOf(events)| == |Ids(events)|
    ensures forall i :: 0 <= i < |Ids(events)| ==>
      Some(DecisionsOf(events)[i]) == ProjectDecision(Explained(events, Ids(events)[i]))
    ensures forall i, j :: 0 <= i < j < |Ids(events)| ==> Ids(events)[i] != Ids(events)[j]
    ensures forall id :: id in Ids(events) <==> Explained(events, id) != []
  {
    hide ProjectDecision, Ids, Explained;
    OneRecordPerDecision(events, |Ids(events)|);
    assert Ids(events)[..|Ids(events)|] == Ids(events);
    IdsAre(events, []);
    forall id ensures id in Ids(events) <==> Explained(events, id) != [] {
      IdsAre(events, id);
    }
  }

  // ---- slices ----

  datatype SessionOpts = SessionOpts(range: Option<(int, int)>, asOfEventMs: Option<int>)

  /** When an event happened by its own timestamp; nothing for a text that is no date. */
  type Clock = Text -> Option<int>

  function KnownBy(clock: Clock, asOf: int): Stored -> bool {
    (e: Stored) => clock(e.input.event_time).Some? && clock(e.input.event_time).value <= asOf
  }

  function InRange(lo: int, hi: int): Stored -> bool {
    (e: Stored) => lo <= e.seqNo <= hi
  }

  function Slice(clock: Clock, log: seq<Stored>, opts: SessionOpts): seq<Stored> {
    var known := if opts.asOfEventMs.Some? then Filter(log, KnownBy(clock, opts.asOfEventMs.value)) else log;
    if opts.range.Some? then Filter(known, InRange(opts.range.value.0, opts.range.value.1)) else known
  }

  /** A session replays the events that were known at its time, as far as the clock reads
      theirs, and lie in its range, in the order of the log; without a time or a range it is
      not narrowed by it. */
  lemma SliceNext(clock: Clock, log: seq<Stored>, e: Stored, opts: SessionOpts)
    ensures Slice(clock, [], opts) == []
    ensures Slice(clock, log + [e], opts) == Slice(clock, log, opts) +
      if && (opts.asOfEventMs.Some? ==>
               clock(e.input.event_time).Some? && clock(e.input.event_time).value <= opts.asOfEventMs.value)
         && (opts.range.Some? ==> opts.range.value.0 <= e.seqNo <= opts.range.value.1)
      then [e] else []
  {
    hide Filter;
    assert forall s: seq<Stored> :: s + [] == s;
    if opts.asOfEventMs.Some? {
      FilterSnoc(log, e, KnownBy(clock, opts.asOfEventMs.value));
    }
    var known := if opts.asOfEventMs.Some? then Filter(log, KnownBy(clock, opts.asOfEventMs.value)) else log;
    if opts.range.Some? {
      FilterSnoc(known, e, InRange(opts.range.value.0, opts.range.value.1));
    }
    NothingSliced(clock, opts);
  }

  lemma NothingSliced(clock: Clock, opts: SessionOpts)
    ensures Slice(clock, [], opts) == []
  {
  }

  function Clip(n: int, most: nat): nat {
    if n < 0 then 0 else if n > most then most else n
  }

  /** The events numbered lo to hi of a log numbered from one; none when lo is behind hi. */
  function Stretch(log: seq<Stored>, lo: int, hi: int): seq<Stored> {
    var from, to := Clip(lo - 1, |log|), Clip(hi, |log|);
    if from <= to then log[from..to] else []
  }

  lemma StretchNext(front: seq<Stored>, e: Stored, lo: int, hi: int)
    ensures Stretch(front + [e], lo, hi) == Stretch(front, lo, hi) + if lo <= |front| + 1 <= hi then [e] else []
  {
  }

  /** Replaying a range of a store's log replays exactly that stretch of it, and replaying
      without a range all of it. */
  lemma {:induction false} RangeIsStretch(clock: Clock, log: seq<Stored>, lo: int, hi: int)
    requires Numbered(log)
    ensures Slice(clock, log, SessionOpts(None, None)) == log
    ensures Slice(clock, log, SessionOpts(Some((lo, hi)), None)) == Stretch(log, lo, hi)
  {
    if log != [] {
      var front, e := log[..|log| - 1], log[|log| - 1];
      RangeIsStretch(clock, front, lo, hi);
      assert log == front + [e];
      FilterSnoc(front, e, InRange(lo, hi));
      hide Filter, Stretch;
      StretchNext(front, e, lo, hi);
    }
  }
}
