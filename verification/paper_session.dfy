/** Paper sessions over the real objects: risk engine, gateway, fill buffer, reconciler
    and portfolio. */
module PaperSessions {
  import opened Texts
  import opened Options
  import opened EventLog
  import opened RiskMachine
  import opened RiskEngines
  import opened ExecutionGateways
  import opened ExecutionReconcilers
  import opened FillBuffers
  import opened PaperPortfolios
  import B = PaperBooks
  import C = RiskCore
  import D = Reconciliation
  import F = FillLedgers
  import G = GatewayCore
  import S = SessionCore

  function SideOf(side: B.FillSide): (r: Side)
    ensures r == Side.Buy <==> side == B.Buy
  {
    if side == B.Buy then Side.Buy else Side.Sell
  }

  /** What the simulated venue answers or throws. */
  function Answer(venue: S.VenueMode, order: Text, at_ms: real): Arrival {
    match venue
    case Accept => Came(Submission(order, Some(S.VenueOrderId(order)), ACKNOWLEDGED, at_ms, Lit("accepted (simulated)")))
    case Reject => Came(Submission(order, None, SubmissionStatus.REJECTED, at_ms, Lit("rejected: simulated venue refusal")))
    case Throw => Threw(Some(Lit("simulated exchange failure for ") + order))
  }

  /** One submission of a gateway that has done nothing yet. */
  method SubmitThrough(gateway: ExecutionGateway, order: Order, token: Text, venue: S.VenueMode, at_ms: real, at: Text)
    returns (admitted: bool, ok: bool)
    requires gateway.Valid() && gateway.done == {} && gateway.async
    modifies gateway, gateway.log`log, gateway.risk.Repr()
    ensures gateway.Valid() && gateway.risk.Repr() == old(gateway.risk.Repr())
    ensures gateway.risk.View() == G.Gate({}, old(gateway.risk.View()), order.client_order_id, token, false).1
    ensures admitted <==> G.Gate({}, old(gateway.risk.View()), order.client_order_id, token, false).0 == G.Admitted
    ensures ok <==> admitted && venue == S.Accept
  {
    hide ExecutionGateway.Valid, RiskEngine.View, Appended, Lit, G.Gate, SentEvent, GateEvents, SubmittedEvent, RejectedEvent;
    var early := gateway.StartAsync(order, token, false, at);
    S.Admitted(old(gateway.risk.View()), order.client_order_id, token);
    if early.Some? {
      return false, Ok(early.value);
    }
    var reply := gateway.FinishAsync(order, Answer(venue, order.client_order_id, at_ms), at);
    admitted, ok := true, Ok(reply);
  }

  /** One submission through a gateway of its own. */
  method SubmitOrder(risk: RiskEngine, order: Order, token: Text, venue: S.VenueMode, at_ms: real, at: Text)
    returns (admitted: bool, ok: bool)
    requires risk.Valid()
    modifies risk.Repr()
    ensures risk.Valid() && risk.Repr() == old(risk.Repr())
    ensures risk.View() == G.Gate({}, old(risk.View()), order.client_order_id, token, false).1
    ensures admitted <==> G.Gate({}, old(risk.View()), order.client_order_id, token, false).0 == G.Admitted
    ensures ok <==> admitted && venue == S.Accept
  {
    hide RiskEngine.Valid, RiskEngine.View, InMemoryEventStore.Valid, Lit, G.Gate;
    var log := new InMemoryEventStore(risk.log.sha);
    var gateway := new ExecutionGateway(risk, Lit("paper-corr"), Lit("paper-snap"), log, true);
    admitted, ok := SubmitThrough(gateway, order, token, venue, at_ms, at);
  }

  method CollectFills(x: S.Cycle, z: S.Sized, order: Text) returns (fills: seq<F.FillEvent>)
    ensures fills == S.FillsOf(x, z, order, true)
  {
    hide F.Ingest, F.Deliver, F.GenerateFillMessages, F.Fills, S.Twice;
    var buffer := new MyOrderFillBuffer();
    var ms := F.GenerateFillMessages(S.FillInput(x, z, order), x.plan);
    StartEmpty(ms);
    for i := 0 to |ms|
      invariant fresh(buffer)
      invariant buffer.byOrder == F.Deliver(Copies(ms[..i], x.duplicateFills))
    {
      NextCopies(ms, i, x.duplicateFills);
      var _ := buffer.Ingest(ms[i]);
      if x.duplicateFills {
        var _ := buffer.Ingest(ms[i]);
      }
    }
    assert ms[..|ms|] == ms;
    fills := buffer.Fills(order);
  }

  function Copies<T>(ms: seq<T>, twice: bool): seq<T> {
    if twice then S.Twice(ms) else ms
  }

  lemma StartEmpty(ms: seq<F.Message>)
    ensures forall twice :: F.Deliver(Copies(ms[..0], twice)) == map[]
  {
  }

  /** One more message delivered, once or twice. */
  lemma NextCopies(ms: seq<F.Message>, i: nat, twice: bool)
    requires i < |ms|
    ensures var once := F.Ingest(F.Deliver(Copies(ms[..i], twice)), ms[i]).0;
      F.Deliver(Copies(ms[..i + 1], twice)) == if twice then F.Ingest(once, ms[i]).0 else once
  {
    hide F.Ingest, F.Deliver;
    assert ms[..i + 1][..i] == ms[..i];
    var before := Copies(ms[..i], twice);
    F.DeliverOne(before, ms[i]);
    F.DeliverOne(before + [ms[i]], ms[i]);
    assert Copies(ms[..i + 1], true) == S.Twice(ms[..i]) + [ms[i]] + [ms[i]];
    assert ms[..i] + [ms[i]] == ms[..i + 1];
  }

  method BookFills(portfolio: PaperPortfolio, symbol: Text, side: B.FillSide, fills: seq<F.FillEvent>)
    modifies portfolio
    ensures portfolio.View() == S.BookFills(old(portfolio.View()), symbol, side, fills)
  {
    for i := 0 to |fills|
      invariant portfolio.View() == S.BookFills(old(portfolio.View()), symbol, side, fills[..i])
    {
      assert fills[..i + 1][..i] == fills[..i];
      portfolio.ApplyFill(symbol, side, fills[i].filled_notional, fills[i].filled_qty, fills[i].fee);
    }
    assert fills[..|fills|] == fills;
  }

  /** The reconciliation of one order by a reconciler of its own. */
  method Settle(risk: RiskEngine, req: D.ReconcileRequest, fills: seq<F.FillEvent>, rejected: bool, at: Text)
    returns (o: D.Outcome)
    requires risk.Valid()
    modifies risk.Repr()
    ensures risk.Valid() && risk.Repr() == old(risk.Repr())
    ensures risk.View() == D.Settle(old(risk.View()), req, fills, rejected).0
    ensures o == D.Settle(old(risk.View()), req, fills, rejected).1
  {
    hide RiskEngine.Valid, RiskEngine.View, Appended, D.Settle;
    var reconciler := new ExecutionReconciler(risk);
    o := reconciler.Reconcile(req, fills, rejected, at);
  }

  /** Everything behind an approval. */
  method Execute(risk: RiskEngine, portfolio: PaperPortfolio, x: S.Cycle, z: S.Sized, order: Text, t: C.Ticket,
                 at: Text)
    returns (trail: S.Trail)
    requires risk.Valid() && portfolio !in risk.Repr()
    modifies risk.Repr(), portfolio
    ensures risk.Valid() && risk.Repr() == old(risk.Repr())
    ensures S.Session(risk.View(), portfolio.View())
      == S.Execute(S.Session(old(risk.View()), old(portfolio.View())), x, z, order, t).0
    ensures trail == S.Execute(S.Session(old(risk.View()), old(portfolio.View())), x, z, order, t).1
  {
    hide RiskEngine.Valid, RiskEngine.View, RiskEngine.Repr, G.Gate, D.Settle, S.BookFills, S.FillsOf, PaperPortfolio.View;
    var admitted, submitted := SubmitOrder(risk, Order(order, z.symbol, SideOf(z.side), z.notional), t.token_id, x.venue, x.at_ms, at);
    var fills := [];
    Unfilled(x, z, order);
    if submitted {
      fills := CollectFills(x, z, order);
    }
    var outcome := Settle(risk, D.ReconcileRequest(order, order, t.reservation_id, z.notional), fills, !submitted, at);
    if outcome.report.filled_notional > 0.0 {
      BookFills(portfolio, x.symbol, z.side, fills);
    }
    trail := S.Ordered(if admitted then 1 else 0, submitted, outcome);
  }

  lemma Unfilled(x: S.Cycle, z: S.Sized, order: Text)
    ensures S.FillsOf(x, z, order, false) == []
  {
  }

  method RunPaperCycle(risk: RiskEngine, portfolio: PaperPortfolio, x: S.Cycle, n: nat, at: Text)
    returns (trail: S.Trail)
    requires risk.Valid() && portfolio !in risk.Repr()
    modifies risk.Repr(), portfolio
    ensures risk.Valid() && fresh(risk.Repr() - old(risk.Repr())) && portfolio !in risk.Repr()
    ensures var (s, r) := S.RunCycle(risk.c, S.Session(old(risk.View()), old(portfolio.View())), x, n);
      S.Session(risk.View(), portfolio.View()) == s && trail == r
  {
    hide RiskEngine.Valid, RiskEngine.View, C.PreTradeCheck, S.Execute, S.SizeDecision, Appended, PreTradeEvents;
    var sized := S.SizeDecision(x.decision, x.price, x.policy);
    if sized.None? {
      return S.NoOrder;
    }
    var d := risk.PreTradeCheck(S.Request(sized.value, n), x.positions, x.equity, at);
    if !d.approved || d.ticket.None? {
      return S.Refused;
    }
    trail := Execute(risk, portfolio, x, sized.value, S.RequestId(sized.value.request_id, n), d.ticket.value, at);
  }

  /** Initialises and starts a risk engine. */
  method Start(risk: RiskEngine, at: Text)
    requires risk.Valid()
    modifies risk.Repr()
    ensures risk.Valid() && risk.Repr() == old(risk.Repr())
    ensures risk.View() == C.Move(C.Move(old(risk.View()), READY).0, RUN).0
  {
    hide RiskEngine.Valid, RiskEngine.View, RiskEngine.Repr, C.Move, Appended, MoveEvent;
    var _ := risk.Init(at);
    var _ := risk.Start(at);
  }

  lemma FreshEngine(c: C.Config)
    ensures C.Restarted(c, []) == C.New(c)
  {
  }

  /** A fresh risk engine in RUN. */
  method PaperRisk(c: C.Config, sha: Sha, at: Text) returns (risk: RiskEngine)
    ensures fresh(risk.Repr()) && risk.Valid() && risk.c == c
    ensures risk.View() == C.Move(C.Move(C.New(c), READY).0, RUN).0
  {
    hide InMemoryEventStore.Valid, RiskEngine.Valid, RiskEngine.View, C.New, C.Restarted, C.Move;
    FreshEngine(c);
    var log := new InMemoryEventStore(sha);
    risk := new RiskEngine(c, log, []);
    Start(risk, at);
  }

  lemma NoRun(c: C.Config)
    ensures S.Run(c, []) == S.Session(C.Move(C.Move(C.New(c), READY).0, RUN).0, B.EMPTY) && S.CountRun(c, []) == S.NO_METRICS
  {
  }

  lemma NextRun(c: C.Config, xs: seq<S.Cycle>, i: nat)
    requires i < |xs|
    ensures S.Run(c, xs[..i + 1]) == S.RunCycle(c, S.Run(c, xs[..i]), xs[i], i).0
    ensures S.CountRun(c, xs[..i + 1])
      == S.Counted(S.CountRun(c, xs[..i]), xs[i], S.RunCycle(c, S.Run(c, xs[..i]), xs[i], i).1)
  {
    hide S.RunCycle, S.Counted;
    assert xs[..i + 1][..i] == xs[..i];
  }

  /** The cycles of a session, one after the other, each under its own number. */
  method RunCycles(risk: RiskEngine, portfolio: PaperPortfolio, xs: seq<S.Cycle>, at: Text) returns (m: S.Metrics)
    requires risk.Valid() && portfolio !in risk.Repr()
    requires S.Session(risk.View(), portfolio.View()) == S.Run(risk.c, [])
    modifies risk.Repr(), portfolio
    ensures risk.Valid()
    ensures S.Session(risk.View(), portfolio.View()) == S.Run(risk.c, xs)
    ensures m == S.CountRun(risk.c, xs)
  {
    hide RiskEngine.Valid, RiskEngine.View, S.RunCycle, S.Counted, S.Run, S.CountRun, PaperPortfolio.View;
    NoRun(risk.c);
    m := S.NO_METRICS;
    for i := 0 to |xs|
      invariant risk.Valid() && portfolio !in risk.Repr() && fresh(risk.Repr() - old(risk.Repr()))
      invariant S.Session(risk.View(), portfolio.View()) == S.Run(risk.c, xs[..i])
      invariant m == S.CountRun(risk.c, xs[..i])
    {
      NextRun(risk.c, xs, i);
      var trail := RunPaperCycle(risk, portfolio, xs[i], i, at);
      m := S.Counted(m, xs[i], trail);
    }
    assert xs[..|xs|] == xs;
  }

  method RunPaperSession(c: C.Config, sha: Sha, xs: seq<S.Cycle>, at: Text)
    returns (m: S.Metrics, risk: RiskEngine, portfolio: PaperPortfolio)
    ensures m == S.Measure(c, xs)
    ensures risk.Valid() && S.Session(risk.View(), portfolio.View()) == S.Run(c, xs)
  {
    hide RiskEngine.Valid, RiskEngine.View, S.Run, S.CountRun, C.Move, C.New;
    risk := PaperRisk(c, sha, at);
    portfolio := new PaperPortfolio();
    NoRun(c);
    m := RunCycles(risk, portfolio, xs, at);
    var ok := Snapshot(risk);
    m := m.(budget_consistent := ok);
  }

  /** Whether the budget adds up. */
  method Snapshot(risk: RiskEngine) returns (ok: bool)
    requires risk.Valid()
    ensures ok == (risk.View().ledger.reserved + risk.View().ledger.consumed <= risk.View().ledger.total)
  {
    ok := risk.budget.reserved + risk.budget.consumed <= risk.budget.total;
  }
}
