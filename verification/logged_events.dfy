/** What the events of the risk engine, the gateway and the reconciler say when their
    payloads are read by field. */
module LoggedEvents {
  import opened Texts
  import opened Options
  import opened CanonicalJson
  import opened EventLog
  import T = Transitions
  import opened RiskMachine
  import C = RiskCore
  import K = TokenLedgers
  import R = RiskRuns
  import G = GatewayCore
  import D = Reconciliation
  import opened RiskEngines
  import opened ExecutionGateways
  import E = ExecutionReconcilers
  import Y = Replay

  /** An event of a kind; what its payload holds under a name. */
  predicate Is(event: (Text, Value), kind: string) {
    event.0 == Lit(kind)
  }

  predicate Holds(event: (Text, Value), name: string, v: Value) {
    T.Get(event.1, Lit(name)) == v
  }

  lemma HeldAt(event: (Text, Value), i: nat, name: string)
    requires event.1.Obj? && DistinctKeys(event.1.fields) && i < |event.1.fields| && event.1.fields[i].0 == Lit(name)
    ensures Holds(event, name, event.1.fields[i].1)
  {
    hide Lit;
    T.LookupHere(event.1.fields, i);
  }

  // ---- the risk engine ----

  predicate SaysDecided(event: (Text, Value), d: C.Decision) {
    && Is(event, "Risk.decided")
    && Holds(event, "request_id", Str(d.request_id)) && Holds(event, "approved", Bool(d.approved))
    && Holds(event, "reason", Str(d.reason))
    && (d.ticket.Some? ==>
          Holds(event, "token_id", Str(d.ticket.value.token_id)) && Holds(event, "reservation_id", Str(d.ticket.value.reservation_id)))
  }

  lemma DecidedSays(d: C.Decision)
    ensures SaysDecided(DecidedEvent(d), d)
  {
    hide Valid, Lit, Holds;
    DecidedValid(d);
    DecidedDistinct(d);
    HeldAt(DecidedEvent(d), 0, "request_id");
    HeldAt(DecidedEvent(d), 1, "approved");
    HeldAt(DecidedEvent(d), 2, "reason");
    if d.ticket.Some? {
      HeldAt(DecidedEvent(d), 3, "token_id");
      HeldAt(DecidedEvent(d), 4, "reservation_id");
    }
  }

  lemma DecidedDistinct(d: C.Decision)
    ensures DistinctKeys(DecidedEvent(d).1.fields)
  {
    hide Lit;
    DecidedValid(d);
  }

  predicate SaysReserved(event: (Text, Value), id: Text, amount: C.Printable) {
    && Is(event, "Risk.budgetReserved") && Holds(event, "reservation_id", Str(id)) && Holds(event, "amount", Num(amount))
  }

  lemma ReservedSays(c: C.Config, id: Text, amount: real)
    ensures SaysReserved(ReservedEvent(c, id, amount), id, c.number(amount))
  {
    assert |Lit("reservation_id")| == 14 && |Lit("amount")| == 6;
    hide Lit, Holds;
    HeldAt(ReservedEvent(c, id, amount), 0, "reservation_id");
    HeldAt(ReservedEvent(c, id, amount), 1, "amount");
  }

  predicate SaysMoved(event: (Text, Value), from: RiskState, to: RiskState) {
    && Is(event, "State.transitioned")
    && Holds(event, "machine", Str(MACHINE)) && Holds(event, "from", Str(Name(from))) && Holds(event, "to", Str(Name(to)))
  }

  lemma MovedSays(from: RiskState, to: RiskState)
    ensures SaysMoved(MoveEvent(from, to), from, to)
  {
    assert |Lit("machine")| == 7 && |Lit("from")| == 4 && |Lit("to")| == 2;
    hide Lit, Holds, Name;
    HeldAt(MoveEvent(from, to), 0, "machine");
    HeldAt(MoveEvent(from, to), 1, "from");
    HeldAt(MoveEvent(from, to), 2, "to");
  }

  /** What a first check of a request appends: behind the two events of a halt, where it
      halts, the decision; and behind the decision the reservation of an approval. A
      request that was decided before appends nothing. */
  lemma CheckSays(c: C.Config, s: C.Engine, req: C.TradeRequest, ps: seq<C.Position>, equity: C.Equity)
    ensures var (es, d) := (PreTradeEvents(c, s, req, ps, equity), C.PreTradeCheck(c, s, req, ps, equity).1);
      if req.request_id in s.decisions then es == []
      else if d.approved then
        && |es| == 2 && d.ticket.Some?
        && SaysDecided(es[0], d) && SaysReserved(es[1], d.ticket.value.reservation_id, c.number(req.notional))
      else if C.Phase(s) == RUN && R.LosesMore(equity, c.limits.maxDrawdownPct) then
        && |es| == 3
        && SaysMoved(es[0], RUN, HALT) && Is(es[1], "Risk.halted") && Holds(es[1], "reason", Str(Lit("drawdown breached")))
        && SaysDecided(es[2], d)
      else |es| == 1 && SaysDecided(es[0], d)
  {
    hide Lit, Holds, SaysDecided, SaysReserved, SaysMoved, DecidedEvent, ReservedEvent, C.PreTradeCheck, C.Drawdown, R.LosesMore, MoveEvent;
    var d := C.PreTradeCheck(c, s, req, ps, equity).1;
    if req.request_id !in s.decisions {
      TicketIfApproved(c, s, req, ps, equity);
      R.DrawdownExceeds(equity, c.limits.maxDrawdownPct);
      DecidedSays(d);
      MovedSays(RUN, HALT);
      HaltedSays(Lit("drawdown breached"));
      if d.ticket.Some? {
        ReservedSays(c, d.ticket.value.reservation_id, req.notional);
      }
    }
  }

  lemma HaltedSays(reason: Text)
    ensures Is(HaltedEvent(reason), "Risk.halted") && Holds(HaltedEvent(reason), "reason", Str(reason))
  {
    hide Lit, Holds;
    HeldAt(HaltedEvent(reason), 0, "reason");
  }

  lemma TicketIfApproved(c: C.Config, s: C.Engine, req: C.TradeRequest, ps: seq<C.Position>, equity: C.Equity)
    requires req.request_id !in s.decisions
    ensures var d := C.PreTradeCheck(c, s, req, ps, equity).1; d.ticket.Some? <==> d.approved
  {
    hide C.Exposure, C.Drawdown, Lit, Name, C.Halt, K.Issue;
  }

  /** What a recovery appends: the transitions it makes, and what became of it; nothing
      behind checks that threw, and nothing at all outside a halt. */
  lemma RecoverySays(c: C.Config, s: C.Engine, checks: C.Checks)
    ensures var es := RecoveryEvents(c, s, checks);
      if C.Phase(s) != HALT then es == []
      else
        && |es| >= 1 && SaysMoved(es[0], HALT, RECOVERY)
        && match checks
           case Throw => |es| == 1
           case Pass => |es| == 3 && SaysMoved(es[1], RECOVERY, READY) && Is(es[2], "Risk.recovered")
           case Fail =>
             if s.failures + 1 >= c.maxRecoveryAttempts then
               && |es| == 3 && SaysMoved(es[1], RECOVERY, FROZEN)
               && Is(es[2], "Risk.frozen") && Holds(es[2], "attempts", Num(c.number((s.failures + 1) as real)))
             else |es| == 2 && SaysMoved(es[1], RECOVERY, HALT)
  {
    hide Lit, Holds, SaysMoved, MoveEvent;
    MovedSays(HALT, RECOVERY);
    MovedSays(RECOVERY, READY);
    MovedSays(RECOVERY, FROZEN);
    MovedSays(RECOVERY, HALT);
    HeldAt(FrozenEvent(c, s.failures + 1), 0, "attempts");
  }

  /** What a settlement appends: once, and only for a reservation that it moved, whether the
      budget was consumed or given back. */
  lemma SettlementSays(req: D.ReconcileRequest, o: D.Outcome)
    ensures var es := E.OutcomeEvents(req, o);
      && (o.duplicate || (!o.risk_confirmed && !o.risk_released) ==> es == [])
      && (!o.duplicate && (o.risk_confirmed || o.risk_released) ==>
            && |es| == 1 && Holds(es[0], "reservation_id", Str(req.reservation_id))
            && (o.risk_confirmed ==> Is(es[0], "Risk.budgetConsumed"))
            && (!o.risk_confirmed ==> Is(es[0], "Risk.budgetReleased")))
  {
    hide Lit, Holds;
    HeldAt(ReservationEvent("Risk.budgetConsumed", req.reservation_id), 0, "reservation_id");
    HeldAt(ReservationEvent("Risk.budgetReleased", req.reservation_id), 0, "reservation_id");
  }

  /** Under which name, number, times, engine, correlation and snapshot the engine submits its
      events, and under which a transition is submitted. */
  lemma SubmittedAs(event: (Text, Value), n: nat, at: Text, machine: Text, from: Text, to: Text, id: Text, correlation: Text, engine: Text)
    requires Valid(event.1)
    ensures var e := EngineInput(event, n, at);
      && e.event_id == Lit("risk-") + event.0 + Lit("-") + NatText(n) && (e.event_type, e.payload) == event
      && e.event_time == e.ingest_time == at && e.source_engine == Lit("risk-engine") && e.schema_version == 1
      && e.correlation_id == Lit("risk") && e.snapshot_id == Some(Lit("risk")) && e.causation_id == None
    ensures var e := T.TransitionEvent(machine, from, to, id, at, correlation, engine);
      && e.event_id == id && e.event_time == e.ingest_time == at && e.source_engine == engine && e.schema_version == 1
      && e.correlation_id == correlation && e.snapshot_id == e.causation_id == None
  {
    hide Lit, NatText, Valid;
  }

  // ---- the gateway ----

  /** What the gateway says of an order that it sends. */
  lemma SentSays(number: real -> C.Printable, o: Order)
    ensures var e := SentEvent(number, o);
      && Is(e, "Order.sent") && Holds(e, "client_order_id", Str(o.client_order_id)) && Holds(e, "symbol", Str(o.symbol))
      && Holds(e, "notional", Num(number(o.notional)))
      && (o.side == Side.Buy ==> Holds(e, "side", Str(Lit("buy")))) && (o.side == Side.Sell ==> Holds(e, "side", Str(Lit("sell"))))
  {
    hide Lit, Holds;
    PlainSent(number, o);
    HeldAt(SentEvent(number, o), 0, "client_order_id");
    HeldAt(SentEvent(number, o), 1, "symbol");
    HeldAt(SentEvent(number, o), 2, "side");
    HeldAt(SentEvent(number, o), 3, "notional");
  }

  /** What it says of an order that it turns away: whose it is and why; nothing of one that
      was completed before. */
  lemma TurnedAwaySays(a: G.Admission, o: Order)
    ensures var es := GateEvents(a, o);
      && (a.AlreadyDone? || a.Admitted? ==> es == [])
      && (a.KillSwitch? || a.NoToken? ==>
            && |es| == 1 && Is(es[0], "Order.rejected") && Holds(es[0], "client_order_id", Str(o.client_order_id))
            && Holds(es[0], "reason", Str(if a.KillSwitch? then Lit(KILLED) else Lit("no valid token"))))
  {
    hide Lit, Holds;
    PlainRejected(o, KILLED);
    PlainRejected(o, "no valid token");
    HeldAt(RejectedEvent(o, KILLED), 0, "client_order_id");
    HeldAt(RejectedEvent(o, KILLED), 1, "reason");
    HeldAt(RejectedEvent(o, "no valid token"), 0, "client_order_id");
    HeldAt(RejectedEvent(o, "no valid token"), 1, "reason");
  }

  /** What it says of a fill, and of a submission. */
  lemma FillSays(number: real -> C.Printable, f: Fill)
    ensures var e := FillReceivedEvent(number, f);
      && Is(e, "Fill.received") && Holds(e, "client_order_id", Str(f.client_order_id))
      && Holds(e, "filled_notional", Num(number(f.filled_notional))) && Holds(e, "price", Num(number(f.price)))
  {
    hide Lit, Holds;
    PlainFilled(number, f);
    HeldAt(FillReceivedEvent(number, f), 0, "client_order_id");
    HeldAt(FillReceivedEvent(number, f), 1, "filled_notional");
    HeldAt(FillReceivedEvent(number, f), 2, "price");
  }

  lemma SubmittedSays(number: real -> C.Printable, s: Submission)
    ensures var e := SubmittedEvent(number, s);
      && Is(e, "Order.submitted") && Holds(e, "client_order_id", Str(s.client_order_id))
      && Holds(e, "exchange_order_id", if s.exchange_order_id.Some? then Str(s.exchange_order_id.value) else Null)
      && Holds(e, "status", Str(StatusName(s.status))) && Holds(e, "submitted_at_ms", Num(number(s.submitted_at_ms)))
      && Holds(e, "reason", Str(s.reason))
  {
    hide Lit, Holds, StatusName;
    SubmittedValid(number, s);
    HeldAt(SubmittedEvent(number, s), 0, "client_order_id");
    HeldAt(SubmittedEvent(number, s), 1, "exchange_order_id");
    HeldAt(SubmittedEvent(number, s), 2, "status");
    HeldAt(SubmittedEvent(number, s), 3, "submitted_at_ms");
    HeldAt(SubmittedEvent(number, s), 4, "reason");
  }

  // ---- replays ----

  /** What a finished replay says: its session, the hash of its last state, none as the empty
      text, and how many events it applied. */
  lemma FinishedSays(session: Text, final: Option<Text>, applied: nat)
    ensures var e := Y.FinishedEvent(session, final, applied);
      && Is(e, "Replay.finished") && Holds(e, "session_id", Str(session)) && Holds(e, "applied", Num(NatNumber(applied)))
      && Holds(e, "final_state_hash", match final case None => Str([]) case Some(h) => Str(h))
  {
    hide Lit, Holds, NatNumber;
    Y.FinishedValid(session, final, applied);
    HeldAt(Y.FinishedEvent(session, final, applied), 0, "session_id");
    HeldAt(Y.FinishedEvent(session, final, applied), 1, "final_state_hash");
    HeldAt(Y.FinishedEvent(session, final, applied), 2, "applied");
  }
}
