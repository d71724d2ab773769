/** The execution gateway object: the only way an order reaches an exchange adapter.
    The kill switch and what the adapter does are inputs of each call. */
module ExecutionGateways {
  import opened Texts
  import opened Options
  import opened CanonicalJson
  import opened EventLog
  import opened RiskMachine
  import T = Transitions
  import C = RiskCore
  import G = GatewayCore
  import opened RiskEngines
  import RiskBudgets
  import ApprovalTokens

  datatype Side = Buy | Sell
  datatype Order = Order(client_order_id: Text, symbol: Text, side: Side, notional: real)
  datatype Fill = Fill(client_order_id: Text, filled_notional: real, price: real)
  datatype SubmissionStatus = SUBMITTED | ACKNOWLEDGED | PARTIALLY_FILLED | FILLED | CANCELLED | REJECTED | UNKNOWN
  datatype Submission = Submission(
    client_order_id: Text, exchange_order_id: Option<Text>, status: SubmissionStatus, submitted_at_ms: real, reason: Text)

  /** How a submission ends; what was thrown may carry no message. */
  datatype Arrival = Came(submission: Submission) | Threw(message: Option<Text>)

  datatype Reply =
    | Done(reason: Text)
    | Refused(reason: Text)
    | Filled(fill: Fill)
    | Submitted(submission: Submission)

  /** `ok` of the answer: a rejected submission is not ok. */
  predicate Ok(r: Reply) {
    match r
    case Done(_) => true
    case Refused(_) => false
    case Filled(_) => true
    case Submitted(s) => s.status != REJECTED
  }

  // ---- the events ----

  function RejectedEvent(order: Order, reason: string): (Text, Value) {
    (Lit("Order.rejected"), Obj([(Lit("client_order_id"), Str(order.client_order_id)), (Lit("reason"), Str(Lit(reason)))]))
  }

  function SentEvent(number: real -> C.Printable, o: Order): (Text, Value) {
    (Lit("Order.sent"),
     Obj([(Lit("client_order_id"), Str(o.client_order_id)), (Lit("symbol"), Str(o.symbol)),
          (Lit("side"), Str(if o.side == Buy then Lit("buy") else Lit("sell"))), (Lit("notional"), Num(number(o.notional)))]))
  }

  function FillReceivedEvent(number: real -> C.Printable, f: Fill): (Text, Value) {
    (Lit("Fill.received"),
     Obj([(Lit("client_order_id"), Str(f.client_order_id)), (Lit("filled_notional"), Num(number(f.filled_notional))),
          (Lit("price"), Num(number(f.price)))]))
  }

  function StatusName(s: SubmissionStatus): Text {
    match s
    case SUBMITTED => Lit("SUBMITTED")
    case ACKNOWLEDGED => Lit("ACKNOWLEDGED")
    case PARTIALLY_FILLED => Lit("PARTIALLY_FILLED")
    case FILLED => Lit("FILLED")
    case CANCELLED => Lit("CANCELLED")
    case REJECTED => Lit("REJECTED")
    case UNKNOWN => Lit("UNKNOWN")
  }

  function SubmittedEvent(number: real -> C.Printable, s: Submission): (Text, Value) {
    (Lit("Order.submitted"),
     Obj([(Lit("client_order_id"), Str(s.client_order_id)),
          (Lit("exchange_order_id"), OptionalText(s.exchange_order_id)),
          (Lit("status"), Str(StatusName(s.status))),
          (Lit("submitted_at_ms"), Num(number(s.submitted_at_ms))),
          (Lit("reason"), Str(s.reason))]))
  }

  /** The reason that a failed submission is answered with. */
  function FailedReason(message: Option<Text>): Text {
    Lit("submit failed: ") + if message.Some? then message.value else Lit("unknown")
  }

  predicate Recordable(event: (Text, Value)) {
    RiskEngines.Plain(event) && !DecisionClass(event.0)
  }

  lemma PlainRejected(o: Order, reason: string)
    ensures Recordable(RejectedEvent(o, reason))
  {
    assert |Lit("State.transitioned")| == 18 && |Lit("Order.rejected")| == 14;
    assert |Lit("Decision.outcome")| == 16;
    assert Lit("Order.rejected")[0] != Lit("Decision.stage")[0];
    assert |Lit("client_order_id")| == 15 && |Lit("reason")| == 6;
    assert DistinctKeys(RejectedEvent(o, reason).1.fields);
    assert forall f | f in RejectedEvent(o, reason).1.fields :: Valid(f.1);
    assert RejectedEvent(o, reason).0 != Lit("State.transitioned");
  }

  lemma PlainSent(number: real -> C.Printable, o: Order)
    ensures Recordable(SentEvent(number, o))
  {
    assert |Lit("Order.sent")| == 10 && |Lit("State.transitioned")| == 18;
    assert |Lit("Decision.outcome")| == 16 && |Lit("Decision.stage")| == 14;
    assert |Lit("client_order_id")| == 15 && |Lit("symbol")| == 6 && |Lit("side")| == 4 && |Lit("notional")| == 8;
    assert DistinctKeys(SentEvent(number, o).1.fields);
    assert forall x | x in SentEvent(number, o).1.fields :: Valid(x.1);
    assert SentEvent(number, o).0 != Lit("State.transitioned");
  }

  lemma PlainFilled(number: real -> C.Printable, f: Fill)
    ensures Recordable(FillReceivedEvent(number, f))
  {
    assert |Lit("Fill.received")| == 13 && |Lit("State.transitioned")| == 18;
    assert |Lit("Decision.outcome")| == 16 && |Lit("Decision.stage")| == 14;
    assert |Lit("client_order_id")| == 15 && |Lit("filled_notional")| == 15 && |Lit("price")| == 5;
    assert Lit("client_order_id")[0] != Lit("filled_notional")[0];
    assert DistinctKeys(FillReceivedEvent(number, f).1.fields);
    assert forall x | x in FillReceivedEvent(number, f).1.fields :: Valid(x.1);
    assert FillReceivedEvent(number, f).0 != Lit("State.transitioned");
  }

  lemma PlainSubmitted(number: real -> C.Printable, s: Submission)
    ensures Recordable(SubmittedEvent(number, s))
  {
    hide StatusName;
    assert |Lit("Order.submitted")| == 15 && |Lit("State.transitioned")| == 18;
    assert |Lit("Decision.outcome")| == 16 && |Lit("Decision.stage")| == 14;
    SubmittedValid(number, s);
  }

  lemma SubmittedValid(number: real -> C.Printable, s: Submission)
    ensures Valid(SubmittedEvent(number, s).1)
  {
    hide StatusName;
    assert |Lit("client_order_id")| == 15 && |Lit("exchange_order_id")| == 17 && |Lit("status")| == 6 && |Lit("reason")| == 6;
    assert |Lit("submitted_at_ms")| == 15 && Lit("client_order_id")[0] != Lit("submitted_at_ms")[0];
    assert Lit("status")[0] != Lit("reason")[0];
    assert DistinctKeys(SubmittedEvent(number, s).1.fields);
    assert forall x | x in SubmittedEvent(number, s).1.fields :: Valid(x.1);
  }

  const KILLED := "kill-switch engaged"

  function GateEvents(a: G.Admission, order: Order): seq<(Text, Value)> {
    match a
    case AlreadyDone => []
    case KillSwitch => [RejectedEvent(order, KILLED)]
    case NoToken => [RejectedEvent(order, "no valid token")]
    case Admitted => []
  }

  class ExecutionGateway {
    const risk: RiskEngine
    const log: InMemoryEventStore
    const correlationId: Text
    const snapshotId: Text
    /** Whether an asynchronous adapter was given. */
    const async: bool
    var done: set<Text>
    var n: nat

    /** The gateway may write to the log of the risk engine or to one of its own. */
    ghost predicate Valid()
      reads log, risk.log, risk.sm, risk.budget, risk.tokens,
            risk.budget.reservations.Values, risk.tokens.tokens.Values
    {
      risk.Valid() && log.Valid()
    }

    constructor (risk: RiskEngine, correlationId: Text, snapshotId: Text, log: InMemoryEventStore, async: bool)
      requires risk.Valid() && log.Valid()
      ensures Valid() && done == {} && this.risk == risk && this.log == log && this.async == async
    {
      this.risk := risk;
      this.correlationId := correlationId;
      this.snapshotId := snapshotId;
      this.log := log;
      this.async := async;
      done, n := {}, 0;
    }

    method Emit(event: (Text, Value), at: Text)
      requires Valid() && Recordable(event)
      modifies this`n, log`log
      ensures Valid() && risk.View() == old(risk.View()) && risk.Repr() == old(risk.Repr())
      ensures Appended(old(log.log), log.log, [event])
    {
      hide EventHash, Lit, InMemoryEventStore.Valid, T.Path, ValidPath, Seal, RiskEngine.View;
      hide RiskBudgets.RiskBudget.Valid, ApprovalTokens.TokenRegistry.Valid;
      n := n + 1;
      var e := EventInput(Lit("exec-") + event.0 + Lit("-") + NatText(n), event.0, at, at,
                          Lit("execution-gateway"), 1, Some(snapshotId), correlationId, None, event.1);
      var sealed := log.Append(e);
      assert sealed.value.input == e by { SealedInput(log.sha, old(log.log), e); }
      T.OthersKeepPath(old(log.log), [sealed.value], MACHINE);
    }

    /** Kill switch, then token; what is turned away is recorded. */
    method Admit(order: Order, token_id: Text, killed: bool, at: Text) returns (a: G.Admission)
      requires Valid()
      modifies this`n, log`log, risk.Repr()
      ensures Valid() && risk.Repr() == old(risk.Repr())
      ensures (a, risk.View()) == G.Gate(done, old(risk.View()), order.client_order_id, token_id, killed)
      ensures Appended(old(log.log), log.log, GateEvents(a, order))
      ensures a == G.Admitted ==> log.log == old(log.log)
    {
      hide RiskEngine.Valid, RiskEngine.View, InMemoryEventStore.Valid, Appended, RejectedEvent, Recordable, C.Authorize;
      AppendedNone(log.log);
      if order.client_order_id in done {
        return G.AlreadyDone;
      }
      if killed {
        PlainRejected(order, KILLED);
        Emit(RejectedEvent(order, KILLED), at);
        return G.KillSwitch;
      }
      var ok := risk.AuthorizeExecution(token_id);
      if !ok {
        PlainRejected(order, "no valid token");
        Emit(RejectedEvent(order, "no valid token"), at);
        return G.NoToken;
      }
      a := G.Admitted;
    }

    function TurnedAway(a: G.Admission, asyncPath: bool): Reply {
      match a
      case AlreadyDone => Done(if asyncPath then Lit("already-submitted (idempotent)") else Lit("already-executed (idempotent)"))
      case KillSwitch => Refused(Lit(KILLED))
      case _ => Refused(Lit("no valid Risk token (INV-R1)"))
    }

    /** The synchronous path; `placed` is what the adapter returns, None when it throws. */
    method Execute(order: Order, token_id: Text, killed: bool, placed: Option<Fill>, at: Text)
      returns (r: Option<Reply>)
      requires Valid()
      modifies this, log`log, risk.Repr()
      ensures Valid() && risk.Repr() == old(risk.Repr())
      ensures var (a, after) := G.Gate(old(done), old(risk.View()), order.client_order_id, token_id, killed);
        && risk.View() == after
        && done == (if a == G.Admitted && placed.Some? then old(done) + {order.client_order_id} else old(done))
        && r == (if a != G.Admitted then Some(TurnedAway(a, false)) else if placed.None? then None else Some(Filled(placed.value)))
        && Appended(old(log.log), log.log,
             if a != G.Admitted then GateEvents(a, order)
             else [SentEvent(risk.c.number, order)]
                  + if placed.None? then [] else [FillReceivedEvent(risk.c.number, placed.value)])
    {
      hide Valid, RiskEngine.View, Appended, SentEvent, FillReceivedEvent, RejectedEvent, Recordable, GateEvents, G.Gate, Lit, TurnedAway;
      var a := Admit(order, token_id, killed, at);
      if a != G.Admitted {
        return Some(TurnedAway(a, false));
      }
      PlainSent(risk.c.number, order);
      Emit(SentEvent(risk.c.number, order), at);
      ghost var sent := log.log;
      if placed.None? {
        assert [SentEvent(risk.c.number, order)] + [] == [SentEvent(risk.c.number, order)];
        return None;
      }
      done := done + {order.client_order_id};
      PlainFilled(risk.c.number, placed.value);
      Emit(FillReceivedEvent(risk.c.number, placed.value), at);
      AppendedBoth(old(log.log), sent, log.log, [SentEvent(risk.c.number, order)], [FillReceivedEvent(risk.c.number, placed.value)]);
      r := Some(Filled(placed.value));
    }

    /** The asynchronous path up to its await; no answer means the submission is out. */
    method StartAsync(order: Order, token_id: Text, killed: bool, at: Text) returns (r: Option<Reply>)
      requires Valid()
      modifies this`n, log`log, risk.Repr()
      ensures Valid() && risk.Repr() == old(risk.Repr())
      ensures var (a, after) := G.Gate(done, old(risk.View()), order.client_order_id, token_id, killed);
        && risk.View() == after
        && r == (if a != G.Admitted then Some(TurnedAway(a, true))
                 else if !async then Some(Refused(Lit("no async adapter configured"))) else None)
        && Appended(old(log.log), log.log,
             if a != G.Admitted then GateEvents(a, order) else if async then [SentEvent(risk.c.number, order)] else [])
    {
      hide Valid, RiskEngine.View, Appended, SentEvent, RejectedEvent, Recordable, GateEvents, G.Gate, Lit, TurnedAway;
      var a := Admit(order, token_id, killed, at);
      if a != G.Admitted {
        return Some(TurnedAway(a, true));
      }
      AppendedNone(log.log);
      if !async {
        return Some(Refused(Lit("no async adapter configured")));
      }
      PlainSent(risk.c.number, order);
      Emit(SentEvent(risk.c.number, order), at);
      r := None;
    }

    /** The asynchronous path behind its await: what came back, or was thrown. */
    method FinishAsync(order: Order, arrival: Arrival, at: Text) returns (r: Reply)
      requires Valid()
      modifies this, log`log
      ensures Valid() && risk.View() == old(risk.View()) && risk.Repr() == old(risk.Repr())
      ensures done == if arrival.Came? then old(done) + {order.client_order_id} else old(done)
      ensures r == match arrival case Came(s) => Submitted(s) case Threw(message) => Refused(FailedReason(message))
      ensures Appended(old(log.log), log.log,
        [if arrival.Came? then SubmittedEvent(risk.c.number, arrival.submission) else RejectedEvent(order, "submit failed")])
    {
      hide Valid, RiskEngine.View, Appended, SubmittedEvent, RejectedEvent, Recordable, Lit;
      if arrival.Threw? {
        PlainRejected(order, "submit failed");
        Emit(RejectedEvent(order, "submit failed"), at);
        return Refused(FailedReason(arrival.message));
      }
      done := done + {order.client_order_id};
      PlainSubmitted(risk.c.number, arrival.submission);
      Emit(SubmittedEvent(risk.c.number, arrival.submission), at);
      r := Submitted(arrival.submission);
    }
  }
}
