/** The risk engine object: budget, tokens, decisions and state machine over one event log. */
module RiskEngines {
  import opened Texts
  import opened Options
  import opened CanonicalJson
  import opened EventLog
  import T = Transitions
  import opened RiskMachine
  import C = RiskCore
  import L = Ledgers
  import K = TokenLedgers
  import opened RiskBudgets
  import opened ApprovalTokens

  // ---- the events each call appends ----

  function DecidedEvent(d: C.Decision): (Text, Value) {
    (Lit("Risk.decided"),
     Obj([(Lit("request_id"), Str(d.request_id)), (Lit("approved"), Bool(d.approved)), (Lit("reason"), Str(d.reason))]
         + match d.ticket
           case None => []
           case Some(t) => [(Lit("token_id"), Str(t.token_id)), (Lit("reservation_id"), Str(t.reservation_id))]))
  }

  function ReservedEvent(c: C.Config, id: Text, amount: real): (Text, Value) {
    (Lit("Risk.budgetReserved"), Obj([(Lit("reservation_id"), Str(id)), (Lit("amount"), Num(c.number(amount)))]))
  }

  function ReservationEvent(kind: string, id: Text): (Text, Value) {
    (Lit(kind), Obj([(Lit("reservation_id"), Str(id))]))
  }

  function HaltedEvent(reason: Text): (Text, Value) {
    (Lit("Risk.halted"), Obj([(Lit("reason"), Str(reason))]))
  }

  function HaltEvents(s: C.Engine, reason: Text): seq<(Text, Value)> {
    if CanTransition(C.Phase(s), HALT) then [MoveEvent(C.Phase(s), HALT), HaltedEvent(reason)] else []
  }

  function PreTradeEvents(c: C.Config, s: C.Engine, req: C.TradeRequest, ps: seq<C.Position>,
                          equity: C.Equity): seq<(Text, Value)> {
    var d := C.PreTradeCheck(c, s, req, ps, equity).1;
    if req.request_id in s.decisions then []
    else if d.ticket.Some? then [DecidedEvent(d), ReservedEvent(c, d.ticket.value.reservation_id, req.notional)]
    else if C.Phase(s) == RUN && C.Drawdown(equity) > c.limits.maxDrawdownPct then
      HaltEvents(s, Lit("drawdown breached")) + [DecidedEvent(d)]
    else [DecidedEvent(d)]
  }

  function RecoveryEvents(c: C.Config, s: C.Engine, checks: C.Checks): seq<(Text, Value)> {
    if !CanTransition(C.Phase(s), RECOVERY) then []
    else
      [MoveEvent(C.Phase(s), RECOVERY)] +
      match checks
      case Throw => []
      case Pass => PassEvents()
      case Fail => FailEvents(c, s.failures)
  }

  function PassEvents(): seq<(Text, Value)> {
    [MoveEvent(RECOVERY, READY), (Lit("Risk.recovered"), Obj([]))]
  }

  function FrozenEvent(c: C.Config, attempts: int): (Text, Value) {
    (Lit("Risk.frozen"), Obj([(Lit("attempts"), Num(c.number(attempts as real)))]))
  }

  function FailEvents(c: C.Config, failures: int): seq<(Text, Value)> {
    if failures + 1 >= c.maxRecoveryAttempts then
      [MoveEvent(RECOVERY, FROZEN), FrozenEvent(c, failures + 1)]
    else [MoveEvent(RECOVERY, HALT)]
  }

  /** Events of the engine that are not transitions. */
  predicate Plain(event: (Text, Value)) {
    event.0 != Lit("State.transitioned") && Valid(event.1)
  }

  lemma PlainDecided(d: C.Decision)
    ensures Plain(DecidedEvent(d))
  {
    hide Valid;
    assert |Lit("State.transitioned")| == 18 && |Lit("Risk.decided")| == 12;
    DecidedValid(d);
  }

  lemma PlainReserved(c: C.Config, id: Text, amount: real)
    ensures Plain(ReservedEvent(c, id, amount))
  {
    assert Lit("State.transitioned")[0] != Lit("Risk.budgetReserved")[0];
    assert |Lit("reservation_id")| == 14 && |Lit("amount")| == 6;
  }

  lemma PlainHalted(reason: Text)
    ensures Plain(HaltedEvent(reason))
  {
    assert |Lit("State.transitioned")| == 18 && |Lit("Risk.halted")| == 11;
  }

  lemma PlainReservation(kind: string, id: Text)
    requires kind != [] && kind[0] == 'R'
    ensures Plain(ReservationEvent(kind, id))
  {
    assert Lit("State.transitioned")[0] != Lit(kind)[0];
  }

  lemma PlainRecovered(c: C.Config, attempts: int)
    ensures Plain((Lit("Risk.recovered"), Obj([]))) && Plain(FrozenEvent(c, attempts))
  {
    assert |Lit("State.transitioned")| == 18 && |Lit("Risk.recovered")| == 14 && |Lit("Risk.frozen")| == 11;
  }

  lemma DecidedValid(d: C.Decision)
    ensures Valid(DecidedEvent(d).1)
  {
    assert |Lit("request_id")| == 10 && |Lit("approved")| == 8 && |Lit("reason")| == 6;
    assert |Lit("token_id")| == 8 && |Lit("reservation_id")| == 14;
    assert Lit("approved")[0] != Lit("token_id")[0];
  }

  /** An event of the engine as it is submitted to the log. */
  function EngineInput(event: (Text, Value), n: nat, at: Text): Event
    requires Valid(event.1)
  {
    EventInput(Lit("risk-") + event.0 + Lit("-") + NatText(n), event.0, at, at,
               Lit("risk-engine"), 1, Some(MACHINE), MACHINE, None, event.1)
  }

  lemma EngineInputValid(event: (Text, Value), n: nat, at: Text)
    requires Valid(event.1)
    ensures DecisionClassValid(EngineInput(event, n, at))
  {
    hide Valid, DecisionClass;
    assert |MACHINE| == 4;
  }

  lemma Logged(sha: Sha, log: seq<Stored>, event: (Text, Value), n: nat, at: Text)
    requires Valid(event.1)
    ensures var e := Seal(sha, log, EngineInput(event, n, at));
      e.input.event_type == event.0 && e.input.payload == event.1
  {
    hide EventHash, Lit, Valid, NatText;
    SealedInput(sha, log, EngineInput(event, n, at));
  }

  lemma PlainMovesNothing(e: Stored, event: (Text, Value))
    requires Plain(event) && e.input.event_type == event.0
    ensures !T.Moves(e, MACHINE)
  {
    hide Lit, Valid, T.Get;
  }

  class RiskEngine {
    const c: C.Config
    const log: InMemoryEventStore
    const sm: RiskStateMachine
    const budget: RiskBudget
    const tokens: TokenRegistry
    var decisions: map<Text, C.Decision>
    var recoveryAttempts: int
    var eventSeq: nat

    ghost function Repr(): set<object>
      reads budget, tokens
    {
      {this, log, sm, budget, tokens} + budget.reservations.Values + tokens.tokens.Values
    }

    ghost predicate Valid()
      reads log, sm, budget, tokens, budget.reservations.Values, tokens.tokens.Values
    {
      sm.store == log && sm.Valid() && budget.Valid() && tokens.Valid() && budget.total == c.total
    }

    ghost function View(): C.Engine
      reads this, sm, budget, tokens, budget.reservations.Values, tokens.tokens.Values
    {
      C.Engine(budget.View(), tokens.View(), decisions, recoveryAttempts, sm.path)
    }

    /** Over a fresh log, or over one that earlier engines left. */
    constructor (c: C.Config, log: InMemoryEventStore, ghost past: seq<RiskState>)
      requires log.Valid() && T.Path(log.log, MACHINE) == Names(past) && ValidPath(past)
      ensures Valid() && View() == C.Restarted(c, past) && this.c == c && this.log == log
      ensures fresh(Repr() - {log})
    {
      hide InMemoryEventStore.Valid, RiskStateMachine.Valid, T.Path;
      this.c := c;
      this.log := log;
      sm := new RiskStateMachine(log, past);
      budget := new RiskBudget(c.total);
      tokens := new TokenRegistry();
      decisions, recoveryAttempts, eventSeq := map[], 0, 0;
    }

    method Emit(event: (Text, Value), at: Text)
      requires Valid() && Plain(event)
      modifies this`eventSeq, log`log
      ensures Valid() && View() == old(View())
      ensures Appended(old(log.log), log.log, [event])
    {
      hide EventHash, Lit, T.Path, T.Moves, ValidPath, Seal, RiskBudget.Valid, TokenRegistry.Valid,
           RiskBudget.View, TokenRegistry.View, InMemoryEventStore.Valid, EngineInput, DecisionClassValid;
      eventSeq := eventSeq + 1;
      var e := EngineInput(event, eventSeq, at);
      EngineInputValid(event, eventSeq, at);
      var sealed := log.Append(e);
      Logged(log.sha, old(log.log), event, eventSeq, at);
      PlainMovesNothing(sealed.value, event);
      T.OthersKeepPath(old(log.log), [sealed.value], MACHINE);
    }

    /** Emits behind the event that was just recorded. */
    method EmitAfter(ghost before: seq<Stored>, ghost first: (Text, Value), event: (Text, Value), at: Text)
      requires Valid() && Appended(before, log.log, [first]) && Plain(event)
      modifies this`eventSeq, log`log
      ensures Valid() && View() == old(View())
      ensures Appended(before, log.log, [first, event])
    {
      hide InMemoryEventStore.Valid, RiskStateMachine.Valid, RiskBudget.Valid, TokenRegistry.Valid, Appended, Plain;
      ghost var middle := log.log;
      Emit(event, at);
      AppendedBoth(before, middle, log.log, [first], [event]);
      assert [first] + [event] == [first, event];
    }

    method Transition(to: RiskState, at: Text) returns (ok: bool)
      requires Valid()
      modifies sm, log`log
      ensures Valid()
      ensures View() == C.Move(old(View()), to).0 && ok == C.Move(old(View()), to).1
      ensures Appended(old(log.log), log.log, if ok then [MoveEvent(C.Phase(old(View())), to)] else [])
    {
      hide InMemoryEventStore.Valid, RiskStateMachine.Valid, RiskBudget.Valid, TokenRegistry.Valid, Appended, MoveEvent;
      ok := sm.Transition(to, at);
    }

    method EmergencyHalt(reason: Text, at: Text) returns (ok: bool)
      requires Valid()
      modifies Repr()
      ensures Valid() && Repr() == old(Repr())
      ensures View() == C.Halt(old(View())).0 && ok == C.Halt(old(View())).1
      ensures Appended(old(log.log), log.log, HaltEvents(old(View()), reason))
    {
      hide Valid, View, Appended, MoveEvent, HaltedEvent, Plain, K.InvalidateAll;
      AppendedNone(log.log);
      var st := Phase();
      if st == FROZEN {
        return true;
      }
      VoidTokens();
      ok := Transition(HALT, at);
      if ok {
        PlainHalted(reason);
        EmitAfter(old(log.log), MoveEvent(st, HALT), HaltedEvent(reason), at);
      }
    }

    method Phase() returns (st: RiskState)
      requires Valid()
      ensures st == C.Phase(View())
    {
      st := sm.CurrentState();
    }

    method VoidTokens()
      requires Valid()
      modifies tokens, tokens.tokens.Values
      ensures Valid() && Repr() == old(Repr()) && log.log == old(log.log)
      ensures View() == old(View()).(tokens := K.InvalidateAll(old(View()).tokens))
    {
      hide InMemoryEventStore.Valid, RiskStateMachine.Valid, RiskBudget.Valid, TokenRegistry.View, RiskBudget.View, K.InvalidateAll;
      tokens.InvalidateAll();
    }

    method Init(at: Text) returns (ok: bool)
      requires Valid()
      modifies Repr()
      ensures Valid() && Repr() == old(Repr())
      ensures View() == C.Move(old(View()), READY).0 && ok == C.Move(old(View()), READY).1
      ensures Appended(old(log.log), log.log, if ok then [MoveEvent(C.Phase(old(View())), READY)] else [])
    {
      ok := Transition(READY, at);
    }

    method Start(at: Text) returns (ok: bool)
      requires Valid()
      modifies Repr()
      ensures Valid() && Repr() == old(Repr())
      ensures View() == C.Move(old(View()), RUN).0 && ok == C.Move(old(View()), RUN).1
      ensures Appended(old(log.log), log.log, if ok then [MoveEvent(C.Phase(old(View())), RUN)] else [])
    {
      ok := Transition(RUN, at);
    }

    method EnterSafeMode(at: Text) returns (ok: bool)
      requires Valid()
      modifies Repr()
      ensures Valid() && Repr() == old(Repr())
      ensures View() == C.Move(old(View()), SAFE_MODE).0 && ok == C.Move(old(View()), SAFE_MODE).1
      ensures Appended(old(log.log), log.log, if ok then [MoveEvent(C.Phase(old(View())), SAFE_MODE)] else [])
    {
      ok := Transition(SAFE_MODE, at);
    }

    method ExitSafeMode(at: Text) returns (ok: bool)
      requires Valid()
      modifies Repr()
      ensures Valid() && Repr() == old(Repr())
      ensures View() == C.Move(old(View()), RUN).0 && ok == C.Move(old(View()), RUN).1
      ensures Appended(old(log.log), log.log, if ok then [MoveEvent(C.Phase(old(View())), RUN)] else [])
    {
      ok := Transition(RUN, at);
    }

    method Record(d: C.Decision, at: Text)
      requires Valid()
      modifies this, log`log
      ensures Valid() && Repr() == old(Repr())
      ensures View() == old(View()).(decisions := old(View()).decisions[d.request_id := d])
      ensures Appended(old(log.log), log.log, [DecidedEvent(d)])
    {
      hide InMemoryEventStore.Valid, RiskStateMachine.Valid, RiskBudget.Valid, TokenRegistry.Valid, Appended,
           TokenRegistry.View, RiskBudget.View, DecidedEvent, Plain;
      decisions := decisions[d.request_id := d];
      PlainDecided(d);
      Emit(DecidedEvent(d), at);
    }

    method Reject(request_id: Text, reason: Text, at: Text) returns (d: C.Decision)
      requires Valid()
      modifies this, log`log
      ensures Valid() && Repr() == old(Repr())
      ensures View() == C.Reject(old(View()), request_id, reason).0 && d == C.Reject(old(View()), request_id, reason).1
      ensures Appended(old(log.log), log.log, [DecidedEvent(d)])
    {
      hide Valid, View, Appended, DecidedEvent;
      d := C.Decision(request_id, false, reason, None);
      Record(d, at);
    }

    method ReserveBudget(req: C.TradeRequest) returns (id: Option<Text>)
      requires Valid()
      modifies budget
      ensures Valid() && fresh(Repr() - old(Repr())) && log.log == old(log.log)
      ensures var r := L.Reserve(old(View()).ledger, req.request_id, req.notional);
        View() == old(View()).(ledger := r.0) && id == r.1
    {
      hide InMemoryEventStore.Valid, RiskStateMachine.Valid, TokenRegistry.Valid, TokenRegistry.View, RiskBudget.View, L.Reserve;
      var res := budget.Reserve(req.request_id, req.notional);
      id := if res == null then None else Some(res.reservation_id);
    }

    method IssueToken(request_id: Text, reservation_id: Text) returns (id: Text)
      requires Valid()
      modifies tokens
      ensures Valid() && fresh(Repr() - old(Repr())) && log.log == old(log.log)
      ensures var r := K.Issue(old(View()).tokens, request_id, reservation_id);
        View() == old(View()).(tokens := r.0) && id == r.1
    {
      hide InMemoryEventStore.Valid, RiskStateMachine.Valid, RiskBudget.Valid, TokenRegistry.View, RiskBudget.View, K.Issue;
      var token := tokens.Issue(request_id, reservation_id);
      id := token.token_id;
    }

    /** Files the approval behind a reservation and its token, and records both. */
    method Grant(req: C.TradeRequest, ticket: C.Ticket, at: Text) returns (d: C.Decision)
      requires Valid()
      modifies this, log`log
      ensures Valid() && Repr() == old(Repr())
      ensures d == C.Decision(req.request_id, true, Lit("approved"), Some(ticket))
      ensures View() == old(View()).(decisions := old(View()).decisions[req.request_id := d])
      ensures Appended(old(log.log), log.log, [DecidedEvent(d), ReservedEvent(c, ticket.reservation_id, req.notional)])
    {
      hide Valid, View, Appended, DecidedEvent, ReservedEvent, Plain, Lit;
      d := C.Decision(req.request_id, true, Lit("approved"), Some(ticket));
      Record(d, at);
      PlainReserved(c, ticket.reservation_id, req.notional);
      EmitAfter(old(log.log), DecidedEvent(d), ReservedEvent(c, ticket.reservation_id, req.notional), at);
    }

    /** Reserves budget and, where that succeeds, issues the token. */
    method Allot(req: C.TradeRequest) returns (ticket: Option<C.Ticket>)
      requires Valid()
      modifies budget, tokens
      ensures Valid() && fresh(Repr() - old(Repr())) && log.log == old(log.log)
      ensures var r := L.Reserve(old(View()).ledger, req.request_id, req.notional);
        match r.1
        case None => ticket == None && View() == old(View()).(ledger := r.0)
        case Some(id) =>
          var k := K.Issue(old(View()).tokens, req.request_id, id);
          ticket == Some(C.Ticket(k.1, id)) && View() == old(View()).(ledger := r.0, tokens := k.0)
    {
      hide Valid, View, L.Reserve, K.Issue;
      var id := ReserveBudget(req);
      if id.None? {
        return None;
      }
      var token := IssueToken(req.request_id, id.value);
      ticket := Some(C.Ticket(token, id.value));
    }

    /** The budget is reserved, the token issued and the decision filed, in that order. */
    method Approve(req: C.TradeRequest, at: Text) returns (d: C.Decision)
      requires Valid()
      modifies Repr()
      ensures Valid() && fresh(Repr() - old(Repr()))
      ensures View() == C.Approve(old(View()), req).0 && d == C.Approve(old(View()), req).1
      ensures Appended(old(log.log), log.log,
        if d.ticket.Some? then [DecidedEvent(d), ReservedEvent(c, d.ticket.value.reservation_id, req.notional)] else [DecidedEvent(d)])
    {
      hide Valid, View, Appended, DecidedEvent, ReservedEvent, L.Reserve, K.Issue, Lit;
      var ticket := Allot(req);
      if ticket.None? {
        d := Reject(req.request_id, Lit("insufficient budget"), at);
      } else {
        d := Grant(req, ticket.value, at);
      }
    }

    /** Halts on a breached drawdown, then rejects. */
    method RejectHalted(req: C.TradeRequest, at: Text) returns (d: C.Decision)
      requires Valid()
      modifies Repr()
      ensures Valid() && Repr() == old(Repr())
      ensures var r := C.Reject(C.Halt(old(View())).0, req.request_id, Lit("drawdown breached \U{2192} HALT"));
        View() == r.0 && d == r.1
      ensures Appended(old(log.log), log.log, HaltEvents(old(View()), Lit("drawdown breached")) + [DecidedEvent(d)])
    {
      hide Valid, View, Appended, DecidedEvent, Lit, HaltEvents, C.Halt, C.Reject;
      var _ := EmergencyHalt(Lit("drawdown breached"), at);
      ghost var halted := log.log;
      d := Reject(req.request_id, Lit("drawdown breached \U{2192} HALT"), at);
      AppendedBoth(old(log.log), halted, log.log, HaltEvents(old(View()), Lit("drawdown breached")), [DecidedEvent(d)]);
    }

    method PreTradeCheck(req: C.TradeRequest, positions: seq<C.Position>, equity: C.Equity, at: Text)
      returns (d: C.Decision)
      requires Valid()
      modifies Repr()
      ensures Valid() && fresh(Repr() - old(Repr()))
      ensures View() == C.PreTradeCheck(c, old(View()), req, positions, equity).0
      ensures d == C.PreTradeCheck(c, old(View()), req, positions, equity).1
      ensures Appended(old(log.log), log.log, PreTradeEvents(c, old(View()), req, positions, equity))
    {
      hide InMemoryEventStore.Valid, RiskStateMachine.Valid, RiskBudget.Valid, TokenRegistry.Valid, Appended,
           TokenRegistry.View, RiskBudget.View, DecidedEvent, ReservedEvent, C.Drawdown, C.ExposureProblem, Lit,
           L.Reserve, HaltEvents;
      AppendedNone(log.log);
      if req.request_id in decisions {
        return decisions[req.request_id];
      }
      var st := Phase();
      if st != RUN {
        d := Reject(req.request_id, Lit("not RUN (state=") + Name(st) + Lit(")"), at);
        return;
      }
      if C.Drawdown(equity) > c.limits.maxDrawdownPct {
        d := RejectHalted(req, at);
        return;
      }
      var problem := C.ExposureProblem(positions, req.symbol, req.notional, c.limits);
      if problem.Some? {
        d := Reject(req.request_id, problem.value, at);
        return;
      }
      d := Approve(req, at);
    }

    /** The execution gate: only a valid, unused token passes, and passing uses it. */
    method AuthorizeExecution(token_id: Text) returns (ok: bool)
      requires Valid()
      modifies tokens, tokens.tokens.Values
      ensures Valid() && Repr() == old(Repr()) && log.log == old(log.log)
      ensures View() == C.Authorize(old(View()), token_id).0 && ok == C.Authorize(old(View()), token_id).1
    {
      hide InMemoryEventStore.Valid, RiskStateMachine.Valid, RiskBudget.Valid, TokenRegistry.Valid,
           TokenRegistry.View, RiskBudget.View;
      ok := tokens.Use(token_id);
    }

    method ConfirmFill(reservation_id: Text, at: Text) returns (ok: bool)
      requires Valid()
      modifies Repr()
      ensures Valid() && Repr() == old(Repr())
      ensures View() == C.Confirm(old(View()), reservation_id).0 && ok == C.Confirm(old(View()), reservation_id).1
      ensures Appended(old(log.log), log.log, if ok then [ReservationEvent("Risk.budgetConsumed", reservation_id)] else [])
    {
      hide InMemoryEventStore.Valid, RiskStateMachine.Valid, RiskBudget.Valid, TokenRegistry.Valid, Appended,
           TokenRegistry.View, RiskBudget.View, ReservationEvent, Plain, L.Consume;
      AppendedNone(log.log);
      ok := budget.Consume(reservation_id);
      if ok {
        PlainReservation("Risk.budgetConsumed", reservation_id);
        Emit(ReservationEvent("Risk.budgetConsumed", reservation_id), at);
      }
    }

    method Release(reservation_id: Text, at: Text) returns (ok: bool)
      requires Valid()
      modifies Repr()
      ensures Valid() && Repr() == old(Repr())
      ensures View() == C.Release(old(View()), reservation_id).0 && ok == C.Release(old(View()), reservation_id).1
      ensures Appended(old(log.log), log.log, if ok then [ReservationEvent("Risk.budgetReleased", reservation_id)] else [])
    {
      hide InMemoryEventStore.Valid, RiskStateMachine.Valid, RiskBudget.Valid, TokenRegistry.Valid, Appended,
           TokenRegistry.View, RiskBudget.View, ReservationEvent, Plain, L.Release;
      AppendedNone(log.log);
      ok := budget.Release(reservation_id);
      if ok {
        PlainReservation("Risk.budgetReleased", reservation_id);
        Emit(ReservationEvent("Risk.budgetReleased", reservation_id), at);
      }
    }

    /** Halts on a mismatch; `ok` is false when that halt throws. */
    method Reconcile(ours: seq<C.Position>, theirs: seq<C.Position>, at: Text) returns (ok: bool, agree: bool)
      requires Valid()
      modifies Repr()
      ensures Valid() && Repr() == old(Repr())
      ensures agree == C.PositionsAgree(c, ours, theirs)
      ensures View() == if agree then old(View()) else C.Halt(old(View())).0
      ensures ok == (agree || C.Halt(old(View())).1)
      ensures Appended(old(log.log), log.log,
        if agree then [] else HaltEvents(old(View()), Lit("position reconciliation mismatch")))
    {
      hide C.PositionsAgree;
      AppendedNone(log.log);
      ok, agree := true, C.PositionsAgree(c, ours, theirs);
      if !agree {
        ok := EmergencyHalt(Lit("position reconciliation mismatch"), at);
      }
    }

    /** `checks` is what the automatic checks do when they are called. */
    method StartRecovery(checks: C.Checks, at: Text) returns (ok: bool)
      requires Valid()
      modifies Repr()
      ensures Valid() && Repr() == old(Repr())
      ensures View() == C.Recover(c, old(View()), checks).0 && ok == C.Recover(c, old(View()), checks).1
      ensures Appended(old(log.log), log.log, RecoveryEvents(c, old(View()), checks))
    {
      hide Valid, View, Appended, MoveEvent, C.FailChecks, FailEvents;
      AppendedNone(log.log);
      ok := Transition(RECOVERY, at);
      if !ok || checks == C.Throw {
        assert RecoveryEvents(c, old(View()), checks) == if ok then [MoveEvent(C.Phase(old(View())), RECOVERY)] else [];
        return false;
      }
      ghost var begun := log.log;
      ghost var first := [MoveEvent(C.Phase(old(View())), RECOVERY)];
      if checks == C.Pass {
        PassRecovery(at);
        AppendedBoth(old(log.log), begun, log.log, first, PassEvents());
      } else {
        FailRecovery(at);
        AppendedBoth(old(log.log), begun, log.log, first, FailEvents(c, old(View()).failures));
      }
    }

    method PassRecovery(at: Text)
      requires Valid() && C.Phase(View()) == RECOVERY
      modifies this, sm, log`log
      ensures Valid() && Repr() == old(Repr())
      ensures View() == C.Move(old(View()), READY).0.(failures := 0)
      ensures Appended(old(log.log), log.log, PassEvents())
    {
      hide InMemoryEventStore.Valid, RiskStateMachine.Valid, RiskBudget.Valid, TokenRegistry.Valid, Appended,
           TokenRegistry.View, RiskBudget.View, MoveEvent, Plain, Lit;
      var _ := Transition(READY, at);
      recoveryAttempts := 0;
      PlainRecovered(c, 0);
      EmitAfter(old(log.log), MoveEvent(RECOVERY, READY), (Lit("Risk.recovered"), Obj([])), at);
    }

    /** One more failure: freeze at the limit, else halt again. */
    method FailRecovery(at: Text)
      requires Valid() && C.Phase(View()) == RECOVERY
      modifies this, sm, log`log
      ensures Valid() && Repr() == old(Repr())
      ensures View() == C.FailChecks(c, old(View()))
      ensures Appended(old(log.log), log.log, FailEvents(c, old(View()).failures))
    {
      hide InMemoryEventStore.Valid, RiskStateMachine.Valid, RiskBudget.Valid, TokenRegistry.Valid, Appended,
           TokenRegistry.View, RiskBudget.View, MoveEvent, Plain, Lit;
      recoveryAttempts := recoveryAttempts + 1;
      if recoveryAttempts >= c.maxRecoveryAttempts {
        var _ := Transition(FROZEN, at);
        PlainRecovered(c, recoveryAttempts);
        EmitAfter(old(log.log), MoveEvent(RECOVERY, FROZEN), FrozenEvent(c, recoveryAttempts), at);
      } else {
        var _ := Transition(HALT, at);
      }
    }
  }
}
