/** The state of a machine, derived from nothing but the transition events in the log. */
module Transitions {
  import opened Texts
  import opened Options
  import opened CanonicalJson
  import opened EventLog

  /** `payload[key]`; undefined on anything that has no such field. */
  function Get(v: Value, key: Text): Value {
    if v.Obj? then Lookup(v.fields, key) else Undefined
  }

  function Lookup(fields: seq<(Text, Value)>, key: Text): Value {
    if fields == [] then Undefined
    else if fields[0].0 == key then fields[0].1
    else Lookup(fields[1..], key)
  }

  function TransitionPayload(machine: Text, from: Text, to: Text): Value {
    Obj([(Lit("machine"), Str(machine)), (Lit("from"), Str(from)), (Lit("to"), Str(to))])
  }

  function TransitionEvent(machine: Text, from: Text, to: Text, id: Text, at: Text, correlation: Text,
                           engine: Text): Event {
    PayloadValid(machine, from, to);
    EventInput(id, Lit("State.transitioned"), at, at, engine, 1, None, correlation, None, TransitionPayload(machine, from, to))
  }

  lemma PayloadValid(machine: Text, from: Text, to: Text)
    ensures Valid(TransitionPayload(machine, from, to))
  {
  }

  predicate Moves(e: Stored, machine: Text) {
    && e.input.event_type == Lit("State.transitioned")
    && Get(e.input.payload, Lit("machine")) == Str(machine)
  }

  /** Where a transition event leads; a malformed target reads as the empty name. */
  function Target(e: Stored): Text {
    match Get(e.input.payload, Lit("to"))
    case Str(t) => t
    case _ => []
  }

  /** The states one machine went through. */
  function Path(log: seq<Stored>, machine: Text): seq<Text> {
    if log == [] then []
    else
      var front, e := log[..|log| - 1], log[|log| - 1];
      Path(front, machine) + if Moves(e, machine) then [Target(e)] else []
  }

  lemma PathAppend(log: seq<Stored>, e: Stored, machine: Text)
    ensures Path(log + [e], machine) == Path(log, machine) + if Moves(e, machine) then [Target(e)] else []
  {
    hide Moves, Target;
    assert (log + [e])[..|log + [e]| - 1] == log;
  }

  /** Any number of events that do not move the machine leave its path alone. */
  lemma {:induction false} OthersKeepPath(log: seq<Stored>, others: seq<Stored>, machine: Text)
    requires forall e | e in others :: !Moves(e, machine)
    ensures Path(log + others, machine) == Path(log, machine)
  {
    hide Moves;
    if others == [] {
      assert log + others == log;
    } else {
      var front, e := others[..|others| - 1], others[|others| - 1];
      OthersKeepPath(log, front, machine);
      PathAppend(log + front, e, machine);
      assert log + others == (log + front) + [e];
    }
  }

  lemma TransitionMoves(e: Stored, machine: Text, from: Text, to: Text, other: Text)
    requires e.input.event_type == Lit("State.transitioned")
    requires e.input.payload == TransitionPayload(machine, from, to)
    ensures Moves(e, machine) && Target(e) == to && Get(e.input.payload, Lit("from")) == Str(from)
    ensures machine != other ==> !Moves(e, other)
  {
    LookupHere(TransitionPayload(machine, from, to).fields, 0);
    var fs := e.input.payload.fields;
    assert |Lit("machine")| == 7 && |Lit("from")| == 4 && |Lit("to")| == 2;
    LookupHere(fs, 1);
    LookupHere(fs, 2);
  }

  lemma {:induction false} LookupHere(fields: seq<(Text, Value)>, i: nat)
    requires i < |fields| && forall j :: 0 <= j < i ==> fields[j].0 != fields[i].0
    ensures Lookup(fields, fields[i].0) == fields[i].1
  {
    if i > 0 {
      LookupHere(fields[1..], i - 1);
    }
  }

  /** Appends one transition event. */
  method EmitTransition(store: InMemoryEventStore, machine: Text, from: Text, to: Text, id: Text, at: Text,
                        correlation: Text, engine: Text)
    requires store.Valid()
    modifies store`log
    ensures store.Valid()
    ensures store.log == old(store.log)
      + [Seal(store.sha, old(store.log), TransitionEvent(machine, from, to, id, at, correlation, engine))]
    ensures Path(store.log, machine) == Path(old(store.log), machine) + [to]
  {
    var e := TransitionEvent(machine, from, to, id, at, correlation, engine);
    NotDecision(e);
    var sealed := store.Append(e);
    TransitionMoves(sealed.value, machine, from, to, machine);
    PathAppend(old(store.log), sealed.value, machine);
  }

  lemma NotDecision(e: Event)
    requires e.event_type == Lit("State.transitioned")
    ensures DecisionClassValid(e)
  {
  }

  /** The last state the machine moved to, found by walking the whole log. */
  method CurrentState(store: InMemoryEventStore, machine: Text) returns (state: Option<Text>)
    ensures var path := Path(store.log, machine);
      state == if path == [] then None else Some(path[|path| - 1])
  {
    state := None;
    for i := 0 to |store.log|
      invariant var path := Path(store.log[..i], machine);
        state == if path == [] then None else Some(path[|path| - 1])
    {
      var e := store.log[i];
      PathAppend(store.log[..i], e, machine);
      assert store.log[..i + 1] == store.log[..i] + [e];
      if Moves(e, machine) {
        state := Some(Target(e));
      }
    }
    assert store.log[..|store.log|] == store.log;
  }
}
