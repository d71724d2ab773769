/** The risk states, the allowed transitions, and the machine that keeps them in the log. */
module RiskMachine {
  import opened Texts
  import opened CanonicalJson
  import opened EventLog
  import T = Transitions

  datatype RiskState = INIT | READY | RUN | SAFE_MODE | HALT | RECOVERY | FROZEN

  predicate CanTransition(from: RiskState, to: RiskState) {
    match from
    case INIT => to == READY
    case READY => to == RUN
    case RUN => to == SAFE_MODE || to == HALT
    case SAFE_MODE => to == RUN || to == HALT
    case HALT => to == RECOVERY
    case RECOVERY => to == READY || to == HALT || to == FROZEN
    case FROZEN => false
  }

  function Name(s: RiskState): Text {
    match s
    case INIT => Lit("INIT")
    case READY => Lit("READY")
    case RUN => Lit("RUN")
    case SAFE_MODE => Lit("SAFE_MODE")
    case HALT => Lit("HALT")
    case RECOVERY => Lit("RECOVERY")
    case FROZEN => Lit("FROZEN")
  }

  /** The state a name stands for. */
  function Named(t: Text): RiskState {
    if t == Lit("INIT") then INIT
    else if t == Lit("READY") then READY
    else if t == Lit("RUN") then RUN
    else if t == Lit("SAFE_MODE") then SAFE_MODE
    else if t == Lit("HALT") then HALT
    else if t == Lit("RECOVERY") then RECOVERY
    else FROZEN
  }

  lemma NamedBack(s: RiskState)
    ensures Named(Name(s)) == s
  {
    assert Lit("INIT")[0] != Lit("HALT")[0];
  }

  function Names(path: seq<RiskState>): (r: seq<Text>)
    ensures |r| == |path| && forall i :: 0 <= i < |path| ==> r[i] == Name(path[i])
  {
    seq(|path|, i requires 0 <= i < |path| => Name(path[i]))
  }

  /** The state behind a path; a machine that never moved is in INIT. */
  function Current(path: seq<RiskState>): RiskState {
    if path == [] then INIT else path[|path| - 1]
  }

  /** Every step, from INIT on, is an allowed transition. */
  ghost predicate ValidPath(path: seq<RiskState>) {
    forall i :: 0 <= i < |path| ==> CanTransition(Current(path[..i]), path[i])
  }

  lemma ValidPathExtends(path: seq<RiskState>, to: RiskState)
    requires ValidPath(path) && CanTransition(Current(path), to)
    ensures ValidPath(path + [to])
  {
    var next := path + [to];
    forall i | 0 <= i < |next| ensures CanTransition(Current(next[..i]), next[i]) {
      assert next[..i] == path[..i];
      assert path[..|path|] == path;
    }
  }

  /** A halted machine runs again only behind a recovery and an explicit approval. */
  lemma {:induction false} HaltIsLatching(path: seq<RiskState>, i: nat, j: nat)
    requires ValidPath(path) && i < j < |path| && path[i] == HALT && path[j] == RUN
    ensures exists k :: i < k && k + 1 < j && path[k] == RECOVERY && path[k + 1] == READY
    decreases j
  {
    assert Current(path[..j]) == path[j - 1];
    assert Current(path[..j - 1]) == if j == 1 then INIT else path[j - 2];
    if path[j - 1] == READY {
      assert CanTransition(Current(path[..j - 1]), READY);
      assert path[j - 2] == RECOVERY;
      assert i < j - 2 && path[(j - 2) + 1] == READY;
    } else {
      assert path[j - 1] == SAFE_MODE;
      assert CanTransition(Current(path[..j - 1]), SAFE_MODE);
      HaltIsLatching(path, i, j - 2);
    }
  }

  /** The transitions there are. */
  const EDGES: set<(RiskState, RiskState)> := {
    (INIT, READY), (READY, RUN), (RUN, SAFE_MODE), (SAFE_MODE, RUN), (RUN, HALT), (SAFE_MODE, HALT),
    (HALT, RECOVERY), (RECOVERY, READY), (RECOVERY, HALT), (RECOVERY, FROZEN)}

  lemma EdgesExactly(from: RiskState, to: RiskState)
    ensures CanTransition(from, to) <==> (from, to) in EDGES
  {
  }

  lemma StepAt(path: seq<RiskState>, k: nat)
    requires ValidPath(path) && k < |path|
    ensures CanTransition(if k == 0 then INIT else path[k - 1], path[k])
  {
    assert CanTransition(Current(path[..k]), path[k]);
  }

  /** A machine starts cold: it is READY before anything else, and runs only from READY or
      out of the safe mode. */
  lemma ColdStart(path: seq<RiskState>, j: nat)
    requires ValidPath(path) && j < |path|
    ensures path[0] == READY
    ensures path[j] == RUN ==> j > 0 && path[j - 1] in {READY, SAFE_MODE}
  {
    StepAt(path, 0);
    StepAt(path, j);
  }

  /** Freezing comes out of a recovery, and is the end. */
  lemma FrozenIsLast(path: seq<RiskState>, j: nat)
    requires ValidPath(path) && j < |path| && path[j] == FROZEN
    ensures j == |path| - 1 && j > 0 && path[j - 1] == RECOVERY
  {
    StepAt(path, j);
    if j + 1 < |path| {
      StepAt(path, j + 1);
    }
  }

  /** How many transitions a machine is away from running. */
  function Away(s: RiskState): nat {
    match s
    case RUN => 0
    case READY => 1
    case SAFE_MODE => 1
    case INIT => 2
    case RECOVERY => 2
    case HALT => 3
    case FROZEN => 4
  }

  /** A machine that is not frozen can always run again, within three transitions. */
  lemma {:induction false} CanRunAgain(path: seq<RiskState>) returns (next: seq<RiskState>)
    requires ValidPath(path) && Current(path) != FROZEN
    ensures path <= next && ValidPath(next) && Current(next) == RUN && |next| <= |path| + 3
    ensures |next| == |path| + Away(Current(path))
    decreases Away(Current(path))
  {
    hide ValidPath;
    var s := Current(path);
    next := path;
    if s != RUN {
      var to := if s == READY || s == SAFE_MODE then RUN else if s == HALT then RECOVERY else READY;
      ValidPathExtends(path, to);
      next := CanRunAgain(path + [to]);
    }
  }

  const MACHINE := Lit("risk")

  /** The event a transition is recorded by. */
  function MoveEvent(from: RiskState, to: RiskState): (Text, Value) {
    (Lit("State.transitioned"), T.TransitionPayload(MACHINE, Name(from), Name(to)))
  }

  class RiskStateMachine {
    const store: InMemoryEventStore
    var counter: nat
    /** The states this machine went through. */
    ghost var path: seq<RiskState>

    /** The log knows exactly this path; whatever else it holds does not matter. */
    ghost predicate Valid()
      reads this, store
    {
      store.Valid() && T.Path(store.log, MACHINE) == Names(path) && ValidPath(path)
    }

    /** Over a fresh log, or over one in which earlier machines left a path. */
    constructor (store: InMemoryEventStore, ghost past: seq<RiskState>)
      requires store.Valid() && T.Path(store.log, MACHINE) == Names(past) && ValidPath(past)
      ensures Valid() && path == past && counter == 0 && this.store == store
    {
      this.store := store;
      counter := 0;
      path := past;
    }

    method CurrentState() returns (s: RiskState)
      requires Valid()
      ensures s == Current(path)
    {
      var name := T.CurrentState(store, MACHINE);
      hide Named, Name;
      NamedBack(Current(path));
      s := if name.None? then INIT else Named(name.value);
    }

    /** Throws, changing nothing, when the transition is not allowed. */
    method Transition(to: RiskState, at: Text) returns (ok: bool)
      requires Valid()
      modifies this, store`log
      ensures Valid()
      ensures ok <==> CanTransition(Current(old(path)), to)
      ensures path == if ok then old(path) + [to] else old(path)
      ensures Appended(old(store.log), store.log, if ok then [MoveEvent(Current(old(path)), to)] else [])
    {
      hide Named, Name, Lit, T.Path, Verified, Numbered, EventHash;
      var from := CurrentState();
      ok := CanTransition(from, to);
      if ok {
        counter := counter + 1;
        T.EmitTransition(store, MACHINE, Name(from), Name(to), Lit("risk-transition-") + NatText(counter), at, MACHINE, Lit("risk-engine"));
        path := path + [to];
        ValidPathExtends(old(path), to);
      }
    }
  }

  /** Other events and other machines may share the log between the calls. */
  lemma OthersKeepValid(path: seq<RiskState>, log: seq<Stored>, others: seq<Stored>)
    requires T.Path(log, MACHINE) == Names(path)
    requires forall e | e in others :: !T.Moves(e, MACHINE)
    ensures T.Path(log + others, MACHINE) == Names(path)
  {
    T.OthersKeepPath(log, others, MACHINE);
  }
}
