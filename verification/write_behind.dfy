/** The write-behind buffer: appends are visible at once and flushed in batches, with the
    flush cut at its await. */
module WriteBehind {
  import opened Options
  import opened RawStores

  type Batch = seq<RawRecord>

  /** `written` is what the backing store took, `inFlight` what was handed to it and has
      not come back. */
  datatype Buffer = Buffer(
    hot: seq<RawRecord>, pending: seq<RawRecord>, flushing: bool, written: seq<RawRecord>, inFlight: seq<Batch>)

  const EMPTY := Buffer([], [], false, [], [])

  /** `flush` up to its await; it does nothing while a flush is under way or nothing waits. */
  function StartFlush(b: Buffer): Buffer {
    if b.flushing || b.pending == [] then b
    else b.(flushing := true, pending := [], inFlight := b.inFlight + [b.pending])
  }

  function Push(b: Buffer, r: RawRecord): Buffer {
    b.(hot := b.hot + [r], pending := b.pending + [r])
  }

  /** An append starts a flush once enough is waiting. */
  function AppendStep(b: Buffer, r: RawRecord, batchSize: int): Buffer {
    var next := Push(b, r);
    if |next.pending| >= batchSize then StartFlush(next) else next
  }

  /** `flush` behind its await: the store took the whole batch, or none of it. */
  function EndFlush(b: Buffer, i: nat, ok: bool): Buffer {
    if i >= |b.inFlight| then b
    else
      var rest := b.inFlight[..i] + b.inFlight[i + 1..];
      if ok then b.(written := b.written + b.inFlight[i], inFlight := rest, flushing := false)
      else b.(pending := b.inFlight[i] + b.pending, inFlight := rest, flushing := false)
  }

  datatype Action = DoAppend(record: RawRecord) | DoFlush | DoEnd(index: nat, ok: bool)

  function Step(b: Buffer, a: Action, batchSize: int): Buffer {
    match a
    case DoAppend(r) => AppendStep(b, r, batchSize)
    case DoFlush => StartFlush(b)
    case DoEnd(i, ok) => EndFlush(b, i, ok)
  }

  function Run(actions: seq<Action>, batchSize: int): Buffer {
    if actions == [] then EMPTY else Step(Run(actions[..|actions| - 1], batchSize), actions[|actions| - 1], batchSize)
  }

  function Flying(b: Buffer): seq<RawRecord> {
    if b.inFlight == [] then [] else b.inFlight[0]
  }

  /** At most one batch is under way, never an empty one, and what is written, under way
      and waiting is in this order exactly what was appended. */
  predicate Conserves(b: Buffer) {
    && |b.inFlight| == (if b.flushing then 1 else 0)
    && (b.flushing ==> b.inFlight[0] != [])
    && b.written + Flying(b) + b.pending == b.hot
  }

  lemma StartConserves(b: Buffer)
    requires Conserves(b)
    ensures Conserves(StartFlush(b)) && StartFlush(b).hot == b.hot
  {
    assert b.written + [] + b.pending == b.written + b.pending + [];
  }

  lemma PushConserves(b: Buffer, r: RawRecord)
    requires Conserves(b)
    ensures Conserves(Push(b, r))
  {
    assert b.written + Flying(b) + (b.pending + [r]) == (b.written + Flying(b) + b.pending) + [r];
  }

  lemma AppendConserves(b: Buffer, r: RawRecord, batchSize: int)
    requires Conserves(b)
    ensures Conserves(AppendStep(b, r, batchSize)) && AppendStep(b, r, batchSize).hot == b.hot + [r]
  {
    hide StartFlush, Conserves;
    PushConserves(b, r);
    StartConserves(Push(b, r));
  }

  lemma EndConserves(b: Buffer, i: nat, ok: bool)
    requires Conserves(b)
    ensures Conserves(EndFlush(b, i, ok)) && EndFlush(b, i, ok).hot == b.hot
  {
    if i < |b.inFlight| {
      assert b.inFlight[..0] + b.inFlight[1..] == [];
      assert (b.written + b.inFlight[0]) + [] + b.pending == b.written + b.inFlight[0] + b.pending;
      assert b.written + [] + (b.inFlight[0] + b.pending) == b.written + b.inFlight[0] + b.pending;
    }
  }

  /** The records that were appended, in order. */
  function Appended(actions: seq<Action>): seq<RawRecord> {
    if actions == [] then []
    else
      Appended(actions[..|actions| - 1])
        + match actions[|actions| - 1] case DoAppend(r) => [r] case _ => []
  }

  /** Under every interleaving of appends, flushes, and batches that succeed or fail,
      nothing is lost, duplicated or reordered, and one batch at most is under way. */
  lemma {:induction false} NothingLost(actions: seq<Action>, batchSize: int)
    ensures Conserves(Run(actions, batchSize))
    ensures Run(actions, batchSize).hot == Appended(actions)
  {
    hide Conserves, AppendStep, StartFlush, EndFlush;
    if actions == [] {
      EmptyConserves();
    } else {
      var b, a := Run(actions[..|actions| - 1], batchSize), actions[|actions| - 1];
      NothingLost(actions[..|actions| - 1], batchSize);
      assert Appended(actions[..|actions| - 1]) + [] == Appended(actions[..|actions| - 1]);
      match a
      case DoAppend(r) => AppendConserves(b, r, batchSize);
      case DoFlush => StartConserves(b);
      case DoEnd(i, ok) => EndConserves(b, i, ok);
    }
  }

  lemma EmptyConserves()
    ensures Conserves(EMPTY)
  {
  }

  /** What each action does in a run: an append hands over all that waits once it is enough
      and no batch is under way, and so does a flush with anything at all; a batch that comes
      back is written behind the others, or waits again in front of what came after it. */
  lemma StepsExactly(actions: seq<Action>, batchSize: int, a: Action)
    ensures var (b, n) := (Run(actions, batchSize), Run(actions + [a], batchSize));
      var (idle, waiting) := (b.inFlight == [], if a.DoAppend? then b.pending + [a.record] else b.pending);
      && (a.DoAppend? ==> n.hot == b.hot + [a.record])
      && (!a.DoAppend? ==> n.hot == b.hot)
      && (a.DoEnd? && a.index == 0 && !idle ==>
            && n.inFlight == []
            && n.written == (if a.ok then b.written + b.inFlight[0] else b.written)
            && n.pending == (if a.ok then b.pending else b.inFlight[0] + b.pending))
      && (a.DoEnd? && (a.index > 0 || idle) ==> n == b)
      && (!a.DoEnd? ==>
            && n.written == b.written
            && if idle && waiting != [] && (a.DoFlush? || |waiting| >= batchSize) then n.inFlight == [waiting] && n.pending == []
               else n.inFlight == b.inFlight && n.pending == waiting)
  {
    NothingLost(actions, batchSize);
    assert (actions + [a])[..|actions + [a]| - 1] == actions;
    OneUnderWay(Run(actions, batchSize));
  }

  lemma OneUnderWay(b: Buffer)
    requires Conserves(b)
    ensures b.flushing <==> b.inFlight != []
    ensures b.inFlight != [] ==> b.inFlight[..0] + b.inFlight[1..] == []
  {
  }

  /** What was durably written is always the oldest part of what was appended, and only
      ever grows. */
  lemma WrittenIsPrefix(actions: seq<Action>, batchSize: int, a: Action)
    ensures Run(actions, batchSize).written <= Appended(actions)
    ensures Run(actions, batchSize).written <= Run(actions + [a], batchSize).written
  {
    NothingLost(actions, batchSize);
    assert (actions + [a])[..|actions + [a]| - 1] == actions;
  }

  /** The pending count is the number of records not confirmed exactly while no batch is
      under way: a batch that is under way is neither pending nor written. */
  lemma PendingCountExactly(actions: seq<Action>, batchSize: int)
    ensures var b := Run(actions, batchSize);
      |b.pending| == |Appended(actions)| - |b.written| <==> !b.flushing
  {
    hide Run;
    NothingLost(actions, batchSize);
  }

  /** After a flush that succeeds with nothing appended in between, all is written. */
  lemma FlushDrains(actions: seq<Action>, batchSize: int)
    requires !Run(actions, batchSize).flushing
    ensures Run(actions + [DoFlush, DoEnd(0, true)], batchSize).written == Appended(actions)
    ensures Run(actions + [DoFlush, DoEnd(0, true)], batchSize).pending == []
  {
    NothingLost(actions, batchSize);
    var b, two := Run(actions, batchSize), actions + [DoFlush, DoEnd(0, true)];
    assert two[..|two| - 1] == actions + [DoFlush];
    assert (actions + [DoFlush])[..|actions|] == actions;
    assert b.written + [] + b.pending == b.written + b.pending;
    if b.pending == [] {
      assert b.written + [] == b.written;
    }
  }

  /** The buffer object. The backing store is outside; `written` and `inFlight` follow it. */
  class BufferedRawStore {
    const batchSize: int
    var hot: seq<RawRecord>
    var pending: seq<RawRecord>
    var flushing: bool
    ghost var written: seq<RawRecord>
    ghost var inFlight: seq<Batch>

    ghost function View(): Buffer
      reads this
    {
      Buffer(hot, pending, flushing, written, inFlight)
    }

    ghost predicate Valid()
      reads this
    {
      Conserves(View())
    }

    constructor (batchSize: int)
      ensures Valid() && View() == EMPTY && this.batchSize == batchSize
    {
      this.batchSize := batchSize;
      hot, pending, flushing, written, inFlight := [], [], false, [], [];
      new;
      EmptyConserves();
    }

    /** Gives the batch that is handed to the backing store, if one is. */
    method BeginFlush() returns (batch: Option<Batch>)
      requires Valid()
      modifies this
      ensures Valid() && View() == StartFlush(old(View()))
      ensures batch == if old(flushing) || old(pending) == [] then None else Some(old(pending))
    {
      StartConserves(View());
      if flushing || pending == [] {
        return None;
      }
      flushing := true;
      batch := Some(pending);
      pending := [];
      inFlight := inFlight + [batch.value];
    }

    method Append(r: RawRecord) returns (batch: Option<Batch>)
      requires Valid()
      modifies this
      ensures Valid() && View() == AppendStep(old(View()), r, batchSize)
      ensures hot == old(hot) + [r]
    {
      PushConserves(View(), r);
      hide Conserves;
      hot := hot + [r];
      pending := pending + [r];
      batch := None;
      if |pending| >= batchSize {
        batch := BeginFlush();
      }
    }

    /** The batch came back. */
    method FinishFlush(batch: Batch, ok: bool)
      requires Valid() && flushing && inFlight == [batch]
      modifies this
      ensures Valid() && View() == EndFlush(old(View()), 0, ok)
    {
      EndConserves(View(), 0, ok);
      if ok {
        written := written + batch;
      } else {
        pending := batch + pending;
      }
      inFlight := inFlight[1..];
      flushing := false;
    }

    /** Reads see every append at once. */
    method AsOf(asOfEventMs: int, asOfIngestMs: Option<int>) returns (r: seq<RawRecord>)
      requires Valid()
      ensures r == RawStores.AsOf(written + Flying(View()) + pending, asOfEventMs, asOfIngestMs)
    {
      r := RawStores.AsOf(hot, asOfEventMs, asOfIngestMs);
    }
  }
}
