/** A paper session on values: each cycle sizes a decision and takes it through risk,
    gateway, simulated venue, fill buffer, reconciliation and portfolio. */
module SessionCore {
  import opened Texts
  import opened Options
  import opened Sequences
  import Sums
  import C = RiskCore
  import L = Ledgers
  import K = TokenLedgers
  import opened RiskMachine
  import R = RiskRuns
  import G = GatewayCore
  import F = FillLedgers
  import D = Reconciliation
  import B = PaperBooks

  // ---- sizing ----

  datatype TradeAction = BUY | SELL | HOLD | WAIT

  /** What the decision engine hands over. */
  datatype TradeDecision = TradeDecision(id: Text, symbol: Text, action: TradeAction, confidence: real)

  datatype Policy = Policy(baseNotional: real, minConfidence: real, maxNotional: real, minNotional: real)

  datatype Sized = Sized(request_id: Text, symbol: Text, side: B.FillSide, notional: real)

  function Ceiling(p: Policy, d: TradeDecision): real {
    var raw := p.baseNotional * d.confidence;
    if raw < p.maxNotional then raw else p.maxNotional
  }

  function SizeDecision(d: TradeDecision, price: real, p: Policy): Option<Sized> {
    if d.action == HOLD || d.action == WAIT then None
    else if d.confidence < p.minConfidence then None
    else if price <= 0.0 then None
    else
      var notional := Ceiling(p, d).Floor as real;
      if notional < p.minNotional then None
      else Some(Sized(Lit("paper-") + d.id, d.symbol, if d.action == BUY then B.Buy else B.Sell, notional))
  }

  // ---- one cycle ----

  datatype VenueMode = Accept | Reject | Throw

  datatype Cycle = Cycle(
    symbol: Text,
    decision: TradeDecision,
    price: real,
    policy: Policy,
    positions: seq<C.Position>,
    equity: C.Equity,
    venue: VenueMode,
    plan: F.Plan,
    duplicateFills: bool,
    at_ms: real)

  datatype Session = Session(risk: C.Engine, book: B.Book)

  function RequestId(base: Text, n: nat): Text {
    base + [0x23] + NatText(n)
  }

  function Request(z: Sized, n: nat): C.TradeRequest {
    C.TradeRequest(RequestId(z.request_id, n), z.symbol, z.notional)
  }

  function VenueOrderId(order: Text): Text {
    Lit("sim-") + order
  }

  function FillInput(x: Cycle, z: Sized, order: Text): F.FillInput {
    F.FillInput(order, VenueOrderId(order), z.notional, x.price, 0.0, x.at_ms)
  }

  function Twice<T>(s: seq<T>): seq<T> {
    if s == [] then [] else Twice(s[..|s| - 1]) + [s[|s| - 1], s[|s| - 1]]
  }

  /** The messages as they are delivered, each twice when duplication is on. */
  function Deliveries(x: Cycle, z: Sized, order: Text): seq<F.Message> {
    var ms := F.GenerateFillMessages(FillInput(x, z, order), x.plan);
    if x.duplicateFills then Twice(ms) else ms
  }

  function FillsOf(x: Cycle, z: Sized, order: Text, submitted: bool): seq<F.FillEvent> {
    if submitted then F.Fills(F.Deliver(Deliveries(x, z, order)), order) else []
  }

  /** Books every fill, in order. */
  function BookFills(b: B.Book, symbol: Text, side: B.FillSide, fills: seq<F.FillEvent>): B.Book {
    if fills == [] then b
    else
      var f := fills[|fills| - 1];
      B.ApplyFill(BookFills(b, symbol, side, fills[..|fills| - 1]), symbol, side, f.filled_notional, f.filled_qty, f.fee)
  }

  datatype Trail =
    | NoOrder
    | Refused
    | Ordered(adapterCalls: nat, submitted: bool, outcome: D.Outcome)

  /** Behind an approval: gateway, venue, buffer, reconciler and portfolio. */
  function Execute(s: Session, x: Cycle, z: Sized, order: Text, t: C.Ticket): (Session, Trail) {
    var (admission, risk) := G.Gate({}, s.risk, order, t.token_id, false);
    var submitted := admission == G.Admitted && x.venue == Accept;
    var fills := FillsOf(x, z, order, submitted);
    var req := D.ReconcileRequest(order, order, t.reservation_id, z.notional);
    var (settled, outcome) := D.Settle(risk, req, fills, !submitted);
    var book := if outcome.report.filled_notional > 0.0 then BookFills(s.book, x.symbol, z.side, fills) else s.book;
    (Session(settled, book), Ordered(if admission == G.Admitted then 1 else 0, submitted, outcome))
  }

  function RunCycle(c: C.Config, s: Session, x: Cycle, n: nat): (Session, Trail) {
    match SizeDecision(x.decision, x.price, x.policy)
    case None => (s, NoOrder)
    case Some(z) =>
      var (risk, d) := C.PreTradeCheck(c, s.risk, Request(z, n), x.positions, x.equity);
      if !d.approved || d.ticket.None? then (s.(risk := risk), Refused)
      else Execute(s.(risk := risk), x, z, RequestId(z.request_id, n), d.ticket.value)
  }

  /** A fresh risk engine, initialised and started, and an empty portfolio. */
  function NewSession(c: C.Config): Session {
    Session(C.Move(C.Move(C.New(c), READY).0, RUN).0, B.EMPTY)
  }

  function Run(c: C.Config, xs: seq<Cycle>): Session {
    if xs == [] then NewSession(c) else RunCycle(c, Run(c, xs[..|xs| - 1]), xs[|xs| - 1], |xs| - 1).0
  }

  // ---- what every session keeps ----

  /** The positive parts of a several-part plan do not exceed the order. */
  predicate WithinRequest(x: Cycle) {
    match SizeDecision(x.decision, x.price, x.policy)
    case None => true
    case Some(z) => x.plan.Multi? ==> Sums.Seq(Filter(x.plan.parts, F.IsPositive)) <= z.notional
  }

  ghost predicate NumberedBelow(s: Session, n: nat) {
    forall r :: r in s.risk.decisions ==> exists base, i: nat :: i < n && r == RequestId(base, i)
  }

  ghost predicate Sound(c: C.Config, s: Session, n: nat) {
    && C.Sound(c, s.risk)
    && s.risk.ledger.reserved == 0.0
    && B.Sound(s.book)
    && NumberedBelow(s, n)
  }

  /** What the positions cost beyond what the budget counts as consumed. */
  ghost function Excess(s: Session): real {
    B.TotalNotional(s.book) - s.risk.ledger.consumed
  }

  lemma RequestIdInjective(a: Text, m: nat, b: Text, n: nat)
    requires RequestId(a, m) == RequestId(b, n)
    ensures a == b && m == n
  {
    assert 0x23 !in NatText(m) && 0x23 !in NatText(n);
    SplitAtLast(a, NatText(m), b, NatText(n), 0x23);
    NatTextInjective(m, n);
  }

  lemma FreshRequest(s: Session, base: Text, n: nat)
    requires NumberedBelow(s, n)
    ensures RequestId(base, n) !in s.risk.decisions
  {
    hide RequestId;
    if RequestId(base, n) in s.risk.decisions {
      var b, i: nat :| i < n && RequestId(base, n) == RequestId(b, i);
      RequestIdInjective(base, n, b, i);
      assert false;
    }
  }

  lemma {:induction false} TwiceMembers<T(!new)>(s: seq<T>)
    ensures forall x :: x in Twice(s) <==> x in s
  {
    if s != [] {
      TwiceMembers(s[..|s| - 1]);
      assert s == s[..|s| - 1] + [s[|s| - 1]];
    }
  }

  lemma DeliveredAll(x: Cycle, z: Sized, order: Text)
    ensures forall m :: m in Deliveries(x, z, order) <==> m in F.GenerateFillMessages(FillInput(x, z, order), x.plan)
  {
    TwiceMembers(F.GenerateFillMessages(FillInput(x, z, order), x.plan));
  }

  lemma SizedPositive(d: TradeDecision, price: real, p: Policy)
    ensures SizeDecision(d, price, p).Some? ==> price > 0.0
  {
  }

  /** Bookings of buys add their funds to the cost, bookings of sells only lower it. */
  lemma {:induction false} BookingKeeps(b: B.Book, symbol: Text, side: B.FillSide, fills: seq<F.FillEvent>)
    requires B.Sound(b)
    requires forall f :: f in fills ==> f.filled_notional > 0.0 && f.filled_qty > 0.0
    ensures var n := BookFills(b, symbol, side, fills);
      && B.Sound(n)
      && (side == B.Buy ==> B.TotalNotional(n) == B.TotalNotional(b) + F.Notional(fills))
      && (side == B.Sell ==> B.TotalNotional(n) <= B.TotalNotional(b))
  {
    hide B.Sound, B.TotalNotional, B.ApplyFill, Sums.Seq, B.HoldingOf, B.SoldCost;
    if fills == [] {
      F.NothingFilled([]);
    } else {
      var front, f := fills[..|fills| - 1], fills[|fills| - 1];
      BookingKeeps(b, symbol, side, front);
      var m := BookFills(b, symbol, side, front);
      assert f in fills;
      F.NotionalMiddle(front, f, []);
      assert front + [f] + [] == fills && front + [] == front;
      if side == B.Buy {
        B.PurchaseKeeps(m, symbol, f.filled_notional, f.filled_qty, f.fee);
      } else {
        B.SaleKeeps(m, symbol, f.filled_notional, f.filled_qty, f.fee);
        B.HoldingSound(m, symbol);
        B.SaleCostNonNegative(B.HoldingOf(m, symbol), f.filled_qty);
      }
    }
  }

  /** The fills of an accepted order: exactly what the plan pays, each with a quantity,
      all of them this order's. */
  lemma OrderFilled(x: Cycle, z: Sized, order: Text)
    requires x.price > 0.0 && order != []
    ensures var fills := FillsOf(x, z, order, true);
      && F.Notional(fills) == F.Paid(FillInput(x, z, order), x.plan) >= 0.0
      && (forall f :: f in fills ==> f.filled_notional > 0.0 && f.filled_qty > 0.0)
      && D.Own(fills, order) == fills
  {
    hide F.Deliver, F.GenerateFillMessages, Deliveries, F.Fills, F.Paid, F.Notional;
    var input, fills := FillInput(x, z, order), FillsOf(x, z, order, true);
    DeliveredAll(x, z, order);
    F.PlanDelivered(input, x.plan, Deliveries(x, z, order));
    forall f | f in fills ensures f.filled_notional > 0.0 && f.filled_qty > 0.0 && f.client_order_id == order {
      F.PlanFills(input, x.plan, Deliveries(x, z, order), f);
    }
    FilterAll(fills, (f: F.FillEvent) => f.client_order_id == order);
    PaidPositive(input, x.plan);
  }

  lemma PaidPositive(input: F.FillInput, plan: F.Plan)
    ensures F.Paid(input, plan) >= 0.0
  {
    if input.client_order_id != [] {
      F.PositiveSum(Filter(F.PlanAmounts(input.requested_notional, plan), F.IsPositive));
    }
  }

  /** An approved request: its token is usable and its reservation holds the notional. */
  lemma ApprovedFresh(c: C.Config, s: C.Engine, req: C.TradeRequest, ps: seq<C.Position>, equity: C.Equity)
    requires C.Sound(c, s) && req.request_id !in s.decisions
    ensures var (t, d) := C.PreTradeCheck(c, s, req, ps, equity);
      && t.decisions.Keys == s.decisions.Keys + {req.request_id}
      && t.ledger.consumed == s.ledger.consumed
      && (d.ticket.None? ==> !d.approved && t.ledger == s.ledger)
      && (d.ticket.Some? ==>
            && d.approved && C.Phase(s) == RUN
            && K.Usable(t.tokens, d.ticket.value.token_id)
            && d.ticket.value.reservation_id in t.ledger.entries
            && t.ledger.entries[d.ticket.value.reservation_id].phase == L.Reserved
            && t.ledger.entries[d.ticket.value.reservation_id].amount == req.notional
            && t.ledger.reserved == s.ledger.reserved + req.notional
            && req.notional > 0.0)
  {
    hide C.Sound, C.Exposure, C.Drawdown, Lit, Name, C.Halt, L.ReservationId, K.TokenId;
    C.HaltKeepsRest(s);
  }

  /** Behind an approval the gateway admits the order, and what is reserved for it is
      settled whole. */
  lemma ExecuteSettles(c: C.Config, s: Session, x: Cycle, z: Sized, order: Text, t: C.Ticket)
    requires C.Sound(c, s.risk) && K.Usable(s.risk.tokens, t.token_id)
    requires t.reservation_id in s.risk.ledger.entries && s.risk.ledger.entries[t.reservation_id].phase == L.Reserved
    ensures var (n, trail) := Execute(s, x, z, order, t);
      var amount := s.risk.ledger.entries[t.reservation_id].amount;
      && C.Sound(c, n.risk)
      && n.risk.decisions == s.risk.decisions
      && n.risk.ledger.reserved == s.risk.ledger.reserved - amount
      && trail.Ordered? && trail.adapterCalls == 1 && (trail.submitted <==> x.venue == Accept)
      && n.risk.ledger.consumed == s.risk.ledger.consumed
           + (if D.Confirms(D.ReconcileRequest(order, order, t.reservation_id, z.notional), FillsOf(x, z, order, trail.submitted), !trail.submitted)
              then amount else 0.0)
  {
    hide C.Sound, D.ReportOf, D.Confirms, FillsOf, BookFills;
    var (admission, risk) := G.Gate({}, s.risk, order, t.token_id, false);
    C.AuthorizeSound(c, s.risk, t.token_id);
    C.LedgerSound(c, risk, t.reservation_id);
    var submitted := x.venue == Accept;
    D.SettlesReservation(risk, D.ReconcileRequest(order, order, t.reservation_id, z.notional), FillsOf(x, z, order, submitted), !submitted);
  }

  /** What a plan pays at most, by the rule on several parts. */
  lemma PaidBounded(x: Cycle, z: Sized, order: Text)
    requires SizeDecision(x.decision, x.price, x.policy) == Some(z) && WithinRequest(x)
    requires z.notional >= 0.0 && order != []
    ensures F.Paid(FillInput(x, z, order), x.plan) <= z.notional
  {
    hide F.Paid, Sums.Seq, SizeDecision;
    F.PaidWithinRequest(FillInput(x, z, order), x.plan);
  }

  /** How one executed order moves the books. */
  lemma ExecuteBooks(s: Session, x: Cycle, z: Sized, order: Text, t: C.Ticket)
    requires B.Sound(s.book) && x.price > 0.0 && order != []
    requires K.Usable(s.risk.tokens, t.token_id)
    ensures var (n, trail) := Execute(s, x, z, order, t);
      var paid := if x.venue == Accept then F.Paid(FillInput(x, z, order), x.plan) else 0.0;
      && B.Sound(n.book)
      && (z.side == B.Buy ==> B.TotalNotional(n.book) == B.TotalNotional(s.book) + paid)
      && (z.side == B.Sell ==> B.TotalNotional(n.book) <= B.TotalNotional(s.book))
      && (D.Confirms(D.ReconcileRequest(order, order, t.reservation_id, z.notional), FillsOf(x, z, order, x.venue == Accept), x.venue != Accept)
          <==> paid > 0.0)
      && (paid == 0.0 ==> n.book == s.book)
      && paid >= 0.0
  {
    hide F.Paid, F.Notional, B.Sound, B.TotalNotional, BookFills, D.Own, C.Authorize, FillsOf;
    OrderFilled(x, z, order);
    var fills := FillsOf(x, z, order, x.venue == Accept);
    NoFills(x, z, order);
    if x.venue == Accept {
      BookingKeeps(s.book, x.symbol, z.side, fills);
    }
    Admitted(s.risk, order, t.token_id);
  }

  lemma NoFills(x: Cycle, z: Sized, order: Text)
    ensures D.Own(FillsOf(x, z, order, false), order) == [] && F.Notional([]) == 0.0
  {
    F.NothingFilled([]);
  }

  lemma Admitted(risk: C.Engine, order: Text, token: Text)
    ensures G.Gate({}, risk, order, token, false).0 == if K.Usable(risk.tokens, token) then G.Admitted else G.NoToken
  {
  }

  /** One approved order: the excess of cost over consumed budget moves by what is paid
      less the order's notional, for a purchase that fills at all, and never upwards for
      anything else. */
  lemma CycleMoves(c: C.Config, s: Session, x: Cycle, n: nat)
    requires Sound(c, s, n)
    ensures var (after, trail) := RunCycle(c, s, x, n);
      && Sound(c, after, n + 1)
      && (trail.Ordered? ==>
            var z := SizeDecision(x.decision, x.price, x.policy).value;
            var paid := if x.venue == Accept then F.Paid(FillInput(x, z, RequestId(z.request_id, n)), x.plan) else 0.0;
            && trail.adapterCalls == 1
            && z.notional > 0.0 && paid >= 0.0
            && after.risk.ledger.consumed == s.risk.ledger.consumed + (if paid > 0.0 then z.notional else 0.0)
            && (z.side == B.Buy ==> B.TotalNotional(after.book) == B.TotalNotional(s.book) + paid)
            && (z.side == B.Sell ==> B.TotalNotional(after.book) <= B.TotalNotional(s.book)))
      && (!trail.Ordered? ==> after.book == s.book && after.risk.ledger == s.risk.ledger)
  {
    hide C.Sound, B.Sound, B.TotalNotional, F.Paid, SizeDecision, RequestId, Execute, C.PreTradeCheck, D.Confirms, FillsOf, NumberedBelow;
    match SizeDecision(x.decision, x.price, x.policy)
    case None => StillNumbered(s, s, n, []);
    case Some(z) =>
      var req := Request(z, n);
      SizedPositive(x.decision, x.price, x.policy);
      FreshRequest(s, z.request_id, n);
      NotEmptyRequest(z.request_id, n);
      ApprovedFresh(c, s.risk, req, x.positions, x.equity);
      C.PreTradeSound(c, s.risk, req, x.positions, x.equity);
      var (risk, d) := C.PreTradeCheck(c, s.risk, req, x.positions, x.equity);
      if d.ticket.Some? {
        ExecuteSettles(c, s.(risk := risk), x, z, req.request_id, d.ticket.value);
        ExecuteBooks(s.(risk := risk), x, z, req.request_id, d.ticket.value);
      }
      StillNumbered(s, RunCycle(c, s, x, n).0, n, z.request_id);
  }

  lemma NotEmptyRequest(base: Text, n: nat)
    ensures RequestId(base, n) != []
  {
  }

  lemma StillNumbered(s: Session, t: Session, n: nat, base: Text)
    requires NumberedBelow(s, n)
    requires forall r :: r in t.risk.decisions ==> r in s.risk.decisions || r == RequestId(base, n)
    ensures NumberedBelow(t, n + 1)
  {
    hide RequestId;
    forall r | r in t.risk.decisions ensures exists b, i: nat :: i < n + 1 && r == RequestId(b, i) {
      if r in s.risk.decisions {
        var b, i: nat :| i < n && r == RequestId(b, i);
      }
    }
  }

  lemma NewSound(c: C.Config)
    ensures Sound(c, NewSession(c), 0) && Excess(NewSession(c)) == 0.0
  {
    hide C.Sound;
    C.NewSound(c);
    C.MoveSound(c, C.New(c), READY);
    C.MoveSound(c, C.Move(C.New(c), READY).0, RUN);
    B.EmptyTotal();
  }

  lemma {:induction false} RunSound(c: C.Config, xs: seq<Cycle>)
    ensures Sound(c, Run(c, xs), |xs|)
    ensures (forall x :: x in xs ==> WithinRequest(x)) ==> Excess(Run(c, xs)) <= 0.0
  {
    hide Sound, RunCycle, F.Paid, SizeDecision, WithinRequest, B.TotalNotional;
    if xs == [] {
      NewSound(c);
    } else {
      var front, x := xs[..|xs| - 1], xs[|xs| - 1];
      RunSound(c, front);
      CycleMoves(c, Run(c, front), x, |front|);
      if forall y :: y in xs ==> WithinRequest(y) {
        assert forall y :: y in front ==> y in xs;
        assert x in xs;
        CycleExcess(c, Run(c, front), x, |front|);
      }
    }
  }

  lemma CycleExcess(c: C.Config, s: Session, x: Cycle, n: nat)
    requires Sound(c, s, n) && WithinRequest(x)
    ensures Excess(RunCycle(c, s, x, n).0) <= Excess(s)
  {
    hide Sound, F.Paid, WithinRequest, B.TotalNotional, Execute, C.PreTradeCheck;
    CycleMoves(c, s, x, n);
    match SizeDecision(x.decision, x.price, x.policy)
    case None =>
    case Some(z) =>
      hide SizeDecision;
      NotEmptyRequest(z.request_id, n);
      if RunCycle(c, s, x, n).1.Ordered? {
        PaidBounded(x, z, RequestId(z.request_id, n));
      }
  }

  /** After every cycle of every session, for any decisions, venue modes, duplicated
      deliveries and plans whose parts stay within the order: nothing is left reserved,
      and the positions cost at most what the budget counts as consumed, which stays
      within the total. */
  lemma BudgetCoversPositions(c: C.Config, xs: seq<Cycle>)
    requires c.total >= 0.0
    requires forall x :: x in xs ==> WithinRequest(x)
    ensures var s := Run(c, xs);
      && s.risk.ledger.reserved == 0.0
      && 0.0 <= B.TotalNotional(s.book) <= s.risk.ledger.consumed <= s.risk.ledger.total == c.total
  {
    hide L.Held, B.TotalNotional, WithinRequest;
    RunSound(c, xs);
    B.TotalNonNegative(Run(c, xs).book);
  }

  // ---- how an order ends ----

  /** What the venue's mode and the plan leave of an order: its status, and what was filled. */
  lemma OrderEnds(c: C.Config, s: Session, x: Cycle, n: nat)
    requires Sound(c, s, n) && RunCycle(c, s, x, n).1.Ordered?
    ensures var r := RunCycle(c, s, x, n).1.outcome.report;
      var (requested, filled) := (r.requested_notional, r.filled_notional);
      && (x.venue != Accept ==> r.final_status == D.REJECTED && filled == 0.0)
      && (x.venue == Accept ==>
            && (x.plan.Full? ==> r.final_status == D.FILLED && filled == requested)
            && (x.plan.Nothing? ==> r.final_status == D.CANCELLED && filled == 0.0)
            && (x.plan.Partial? && x.plan.filled <= 0.0 ==> r.final_status == D.CANCELLED && filled == 0.0)
            && (x.plan.Partial? && 0.0 < x.plan.filled < requested ==> r.final_status == D.PARTIALLY_FILLED && filled == x.plan.filled)
            && (x.plan.Partial? && requested <= x.plan.filled ==> r.final_status == D.FILLED && filled == requested)
            && (x.plan.Multi? ==> filled == Sums.Seq(Filter(x.plan.parts, F.IsPositive))))
  {
    hide Sound, SizeDecision, RequestId, Execute, F.Paid;
    CycleReport(c, s, x, n);
    var z := SizeDecision(x.decision, x.price, x.policy).value;
    var input := FillInput(x, z, RequestId(z.request_id, n));
    NotEmptyRequest(z.request_id, n);
    CycleMoves(c, s, x, n);
    F.PlanPays(input, x.plan, F.GenerateFillMessages(input, x.plan));
    F.PaidWithinRequest(input, x.plan);
  }

  /** A cycle leads to an order exactly when its decision is sized and, in a session that
      still runs, not too much is lost, the sized amount keeps within both limits on top of
      the positions it was given, and fits the budget. */
  lemma OrderedExactly(c: C.Config, s: Session, x: Cycle, n: nat)
    requires Sound(c, s, n)
    ensures RunCycle(c, s, x, n).1.NoOrder? <==> SizeDecision(x.decision, x.price, x.policy).None?
    ensures RunCycle(c, s, x, n).1.Ordered? <==>
      match SizeDecision(x.decision, x.price, x.policy)
      case None => false
      case Some(z) =>
        && C.Phase(s.risk) == RUN
        && !R.LosesMore(x.equity, c.limits.maxDrawdownPct)
        && R.Amount(x.positions, None) + z.notional <= c.limits.maxTotalExposure
        && R.Amount(x.positions, Some(z.symbol)) + z.notional <= c.limits.maxSymbolExposure
        && 0.0 < z.notional <= c.total - s.risk.ledger.consumed
  {
    hide C.Sound, SizeDecision, RequestId, Execute, C.PreTradeCheck, NumberedBelow, R.LosesMore, R.Amount, C.Phase;
    match SizeDecision(x.decision, x.price, x.policy)
    case None =>
    case Some(z) =>
      var req := Request(z, n);
      FreshRequest(s, z.request_id, n);
      CheckCounts(s.risk, c, req, x.positions, x.equity);
      R.ApprovedExactly(c, s.risk, req, x.positions, x.equity);
      BudgetIs(c, s, n);
      var (risk, d) := C.PreTradeCheck(c, s.risk, req, x.positions, x.equity);
      if d.ticket.Some? {
        AlwaysOrdered(s, x, z, req.request_id);
      }
  }

  lemma BudgetIs(c: C.Config, s: Session, n: nat)
    requires Sound(c, s, n)
    ensures s.risk.ledger.total == c.total && s.risk.ledger.reserved == 0.0
  {
  }

  /** A cycle halts its session exactly when its sized decision is asked while too much is
      lost; a halted session orders nothing any more. */
  lemma {:induction false} HaltedSession(c: C.Config, xs: seq<Cycle>)
    ensures var s := Run(c, xs);
      && C.Phase(s.risk) in {RUN, HALT}
      && (C.Phase(s.risk) == HALT <==>
            exists i :: 0 <= i < |xs| && SizeDecision(xs[i].decision, xs[i].price, xs[i].policy).Some?
              && R.LosesMore(xs[i].equity, c.limits.maxDrawdownPct))
  {
    hide Sound, RunCycle, SizeDecision, R.LosesMore, C.Phase;
    if xs == [] {
      StartsRunning(c);
    } else {
      var front, x := xs[..|xs| - 1], xs[|xs| - 1];
      HaltedSession(c, front);
      RunSound(c, front);
      CyclePhase(c, Run(c, front), x, |front|);
      assert forall i :: 0 <= i < |front| ==> xs[i] == front[i];
    }
  }

  lemma StartsRunning(c: C.Config)
    ensures C.Phase(NewSession(c).risk) == RUN
  {
    G.StartedPath(c);
  }

  lemma CyclePhase(c: C.Config, s: Session, x: Cycle, n: nat)
    requires Sound(c, s, n)
    ensures C.Phase(RunCycle(c, s, x, n).0.risk)
      == if C.Phase(s.risk) == RUN && SizeDecision(x.decision, x.price, x.policy).Some?
           && R.LosesMore(x.equity, c.limits.maxDrawdownPct) then HALT
         else C.Phase(s.risk)
  {
    hide C.Sound, SizeDecision, RequestId, C.PreTradeCheck, NumberedBelow, R.LosesMore, Execute;
    match SizeDecision(x.decision, x.price, x.policy)
    case None =>
    case Some(z) =>
      var req := Request(z, n);
      FreshRequest(s, z.request_id, n);
      R.HaltsExactly(c, s.risk, req, x.positions, x.equity);
      var (risk, d) := C.PreTradeCheck(c, s.risk, req, x.positions, x.equity);
      if d.ticket.Some? {
        ExecuteKeepsPath(s.(risk := risk), x, z, req.request_id, d.ticket.value);
      }
  }

  lemma ExecuteKeepsPath(s: Session, x: Cycle, z: Sized, order: Text, t: C.Ticket)
    ensures Execute(s, x, z, order, t).0.risk.path == s.risk.path
  {
    hide D.ReportOf, D.Confirms, FillsOf, BookFills;
  }

  /** The order asked for the sized amount and its report counts what the plan pays. */
  lemma CycleReport(c: C.Config, s: Session, x: Cycle, n: nat)
    requires Sound(c, s, n) && RunCycle(c, s, x, n).1.Ordered?
    ensures SizeDecision(x.decision, x.price, x.policy).Some?
    ensures var z := SizeDecision(x.decision, x.price, x.policy).value;
      var r := RunCycle(c, s, x, n).1.outcome.report;
      && r.requested_notional == z.notional
      && r.filled_notional == (if x.venue == Accept then F.Paid(FillInput(x, z, RequestId(z.request_id, n)), x.plan) else 0.0)
      && (r.final_status == D.REJECTED <==> x.venue != Accept)
      && (r.final_status == D.CANCELLED <==> x.venue == Accept && r.filled_notional <= 0.0)
      && (r.final_status == D.FILLED <==> x.venue == Accept && 0.0 < r.filled_notional && z.notional <= r.filled_notional)
      && (r.final_status == D.PARTIALLY_FILLED <==> x.venue == Accept && 0.0 < r.filled_notional < z.notional)
  {
    hide C.Sound, SizeDecision, RequestId, Execute, C.PreTradeCheck, F.Paid, NumberedBelow;
    var z := SizeDecision(x.decision, x.price, x.policy).value;
    var req := Request(z, n);
    SizedPositive(x.decision, x.price, x.policy);
    FreshRequest(s, z.request_id, n);
    NotEmptyRequest(z.request_id, n);
    ApprovedFresh(c, s.risk, req, x.positions, x.equity);
    var (risk, d) := C.PreTradeCheck(c, s.risk, req, x.positions, x.equity);
    ExecuteReports(s.(risk := risk), x, z, req.request_id, d.ticket.value);
  }

  lemma ExecuteReports(s: Session, x: Cycle, z: Sized, order: Text, t: C.Ticket)
    requires x.price > 0.0 && order != [] && K.Usable(s.risk.tokens, t.token_id)
    ensures var (_, trail) := Execute(s, x, z, order, t);
      var r := trail.outcome.report;
      && trail.Ordered?
      && r.requested_notional == z.notional
      && r.filled_notional == (if x.venue == Accept then F.Paid(FillInput(x, z, order), x.plan) else 0.0)
      && (r.final_status == D.REJECTED <==> x.venue != Accept)
      && (r.final_status == D.CANCELLED <==> x.venue == Accept && r.filled_notional <= 0.0)
      && (r.final_status == D.FILLED <==> x.venue == Accept && 0.0 < r.filled_notional && z.notional <= r.filled_notional)
      && (r.final_status == D.PARTIALLY_FILLED <==> x.venue == Accept && 0.0 < r.filled_notional < z.notional)
  {
    hide F.Paid, F.Notional, BookFills, D.Own, C.Authorize, FillsOf, D.DeriveStatus, D.Confirms;
    OrderFilled(x, z, order);
    NoFills(x, z, order);
    Admitted(s.risk, order, t.token_id);
    D.ReportMeaning(D.ReconcileRequest(order, order, t.reservation_id, z.notional), FillsOf(x, z, order, x.venue == Accept), x.venue != Accept);
  }

  /** So much moves in the books: the venue takes the order of a part and the plan pays f
      of it, and a purchase costs f more, while the whole order counts as consumed. */
  lemma PlanMovesBooks(c: C.Config, s: Session, x: Cycle, n: nat)
    requires Sound(c, s, n) && RunCycle(c, s, x, n).1.Ordered?
    ensures var (after, trail) := RunCycle(c, s, x, n);
      var requested := trail.outcome.report.requested_notional;
      var (cost, was) := (B.TotalNotional(after.book), B.TotalNotional(s.book));
      var (used, before) := (after.risk.ledger.consumed, s.risk.ledger.consumed);
      && (x.venue != Accept || x.plan.Nothing? ==> used == before && (x.decision.action == BUY ==> cost == was))
      && (x.venue == Accept && x.plan.Full? ==> used == before + requested && (x.decision.action == BUY ==> cost == was + requested))
      && (x.venue == Accept && x.plan.Partial? && 0.0 < x.plan.filled < requested ==>
            used == before + requested && (x.decision.action == BUY ==> cost == was + x.plan.filled))
  {
    hide Sound, F.Paid, RequestId, Execute, C.PreTradeCheck, B.TotalNotional;
    OrderEnds(c, s, x, n);
    CycleReport(c, s, x, n);
    CycleMoves(c, s, x, n);
  }

  /** Booking fills at one price: the quantity is the funds over the price. */
  lemma {:induction false} BookingMoves(b: B.Book, symbol: Text, side: B.FillSide, fills: seq<F.FillEvent>, price: real, other: Text)
    requires B.Sound(b) && price > 0.0 && other != symbol
    requires forall f :: f in fills ==>
      f.filled_notional > 0.0 && f.filled_qty == f.filled_notional / price > 0.0 && f.fee == 0.0
    ensures var n := BookFills(b, symbol, side, fills);
      && B.Sound(n) && n.fees == b.fees
      && B.HoldingOf(n, other) == B.HoldingOf(b, other)
      && HoldingMoved(side, B.HoldingOf(b, symbol), B.HoldingOf(n, symbol), F.Notional(fills), price)
  {
    hide B.Sound, B.ApplyFill, Sums.Seq, B.HoldingOf, HoldingMoved;
    if fills == [] {
      F.NothingFilled([]);
      B.HoldingSound(b, symbol);
      NothingMoved(side, B.HoldingOf(b, symbol), price);
    } else {
      var front, f := fills[..|fills| - 1], fills[|fills| - 1];
      BookingMoves(b, symbol, side, front, price, other);
      BookingKeeps(b, symbol, side, front);
      assert f in fills;
      var m := BookFills(b, symbol, side, front);
      BookingKeeps(b, symbol, side, fills);
      B.OthersUntouched(m, symbol, side, f.filled_notional, f.filled_qty, f.fee, other);
      B.FillMoves(m, symbol, side, f.filled_notional, f.filled_qty, f.fee);
      NoFee(m, symbol, side, f);
      F.NotionalMiddle(front, f, []);
      assert front + [f] + [] == fills && front + [] == front;
      F.NothingFilled([]);
      FillsPositive(front);
      MovedOn(side, B.HoldingOf(b, symbol), B.HoldingOf(m, symbol), B.HoldingOf(BookFills(b, symbol, side, fills), symbol),
              F.Notional(front), f, price, F.Notional(fills));
    }
  }

  lemma {:induction false} FillsPositive(fills: seq<F.FillEvent>)
    requires forall f :: f in fills ==> f.filled_notional > 0.0
    ensures F.Notional(fills) >= 0.0
  {
    F.PositiveSum(F.Notionals(fills));
  }

  lemma NoFee(b: B.Book, symbol: Text, side: B.FillSide, f: F.FillEvent)
    requires f.fee == 0.0
    ensures B.ApplyFill(b, symbol, side, f.filled_notional, f.filled_qty, f.fee).fees == b.fees
  {
    hide B.Bought, B.Sold;
  }

  /** What an amount filled at a price does to a holding. */
  predicate HoldingMoved(side: B.FillSide, h: B.Holding, after: B.Holding, filled: real, price: real)
    requires price > 0.0
  {
    var qty := filled / price;
    match side
    case Buy => after == B.Holding(h.qty + qty, h.notional + filled)
    case Sell => after.qty == if qty < h.qty then h.qty - qty else 0.0
  }

  lemma NothingMoved(side: B.FillSide, h: B.Holding, price: real)
    requires price > 0.0 && h.qty >= 0.0
    ensures HoldingMoved(side, h, h, 0.0, price)
  {
  }

  lemma MovedOn(side: B.FillSide, h: B.Holding, m: B.Holding, after: B.Holding, before: real, f: F.FillEvent, price: real, filled: real)
    requires price > 0.0 && before >= 0.0 && filled == before + f.filled_notional
    requires f.filled_notional > 0.0 && f.filled_qty == f.filled_notional / price > 0.0
    requires HoldingMoved(side, h, m, before, price)
    requires side == B.Buy ==> after == B.Holding(m.qty + f.filled_qty, m.notional + f.filled_notional)
    requires side == B.Sell ==> after.qty == if f.filled_qty < m.qty then m.qty - f.filled_qty else 0.0
    ensures HoldingMoved(side, h, after, filled, price)
  {
    assert filled / price == before / price + f.filled_notional / price;
    Quotient(before, price);
  }

  lemma Quotient(x: real, d: real)
    requires x >= 0.0 && d > 0.0
    ensures x / d >= 0.0
  {
  }

  /** How a cycle moves what is held: its own symbol by what was filled over the price,
      bought or sold, without fees, and no other symbol. */
  lemma CycleHolds(c: C.Config, s: Session, x: Cycle, n: nat, other: Text)
    requires Sound(c, s, n) && RunCycle(c, s, x, n).1.Ordered? && other != x.symbol
    ensures x.price > 0.0
    ensures var (after, trail) := RunCycle(c, s, x, n);
      var side := if x.decision.action == BUY then B.Buy else B.Sell;
      && HoldingMoved(side, B.HoldingOf(s.book, x.symbol), B.HoldingOf(after.book, x.symbol), trail.outcome.report.filled_notional, x.price)
      && B.HoldingOf(after.book, other) == B.HoldingOf(s.book, other)
      && after.book.fees == s.book.fees
  {
    hide C.Sound, SizeDecision, RequestId, Execute, C.PreTradeCheck, NumberedBelow, HoldingMoved, B.HoldingOf;
    var z := SizeDecision(x.decision, x.price, x.policy).value;
    var req := Request(z, n);
    SizedPositive(x.decision, x.price, x.policy);
    SizedExactly(x.decision, x.price, x.policy, 0);
    FreshRequest(s, z.request_id, n);
    NotEmptyRequest(z.request_id, n);
    ApprovedFresh(c, s.risk, req, x.positions, x.equity);
    var (risk, d) := C.PreTradeCheck(c, s.risk, req, x.positions, x.equity);
    ExecuteHolds(s.(risk := risk), x, z, req.request_id, d.ticket.value, other);
  }

  lemma ExecuteHolds(s: Session, x: Cycle, z: Sized, order: Text, t: C.Ticket, other: Text)
    requires B.Sound(s.book) && x.price > 0.0 && order != [] && K.Usable(s.risk.tokens, t.token_id) && other != x.symbol
    ensures var (after, trail) := Execute(s, x, z, order, t);
      && trail.Ordered?
      && HoldingMoved(z.side, B.HoldingOf(s.book, x.symbol), B.HoldingOf(after.book, x.symbol), trail.outcome.report.filled_notional, x.price)
      && B.HoldingOf(after.book, other) == B.HoldingOf(s.book, other)
      && after.book.fees == s.book.fees
  {
    hide F.Paid, F.Notional, BookFills, D.Own, C.Authorize, FillsOf, D.DeriveStatus, D.Confirms, HoldingMoved, B.HoldingOf, B.Sound;
    OrderFilled(x, z, order);
    NoFills(x, z, order);
    Admitted(s.risk, order, t.token_id);
    B.HoldingSound(s.book, x.symbol);
    NothingMoved(z.side, B.HoldingOf(s.book, x.symbol), x.price);
    if x.venue == Accept {
      FillsPriced(x, z, order);
      BookingMoves(s.book, x.symbol, z.side, FillsOf(x, z, order, true), x.price, other);
    }
  }

  lemma FillsPriced(x: Cycle, z: Sized, order: Text)
    requires x.price > 0.0
    ensures forall f :: f in FillsOf(x, z, order, true) ==>
      f.filled_notional > 0.0 && f.filled_qty == f.filled_notional / x.price > 0.0 && f.fee == 0.0
  {
    hide F.Deliver, F.GenerateFillMessages, Deliveries, F.Fills;
    DeliveredAll(x, z, order);
    forall f | f in FillsOf(x, z, order, true)
      ensures f.filled_notional > 0.0 && f.filled_qty == f.filled_notional / x.price > 0.0 && f.fee == 0.0
    {
      F.PlanFills(FillInput(x, z, order), x.plan, Deliveries(x, z, order), f);
    }
  }

  /** A decision is sized exactly when it trades, its confidence and the price suffice and
      some whole amount from the floor up stays within the ceiling and the product of base
      and confidence. The order is for the largest such amount, and buys or sells as decided. */
  lemma SizedExactly(d: TradeDecision, price: real, p: Policy, whole: int)
    ensures var z := SizeDecision(d, price, p);
      && (z.Some? ==>
            && z.value.side == (match d.action case BUY => B.Buy case _ => B.Sell)
            && d.action in {BUY, SELL} && p.minConfidence <= d.confidence && 0.0 < price
            && z.value.symbol == d.symbol && z.value.request_id == Lit("paper-") + d.id
            && z.value.notional == z.value.notional.Floor as real
            && p.minNotional <= z.value.notional && Within(p, d, z.value.notional)
            && (Within(p, d, whole as real) ==> whole as real <= z.value.notional))
      && (d.action in {BUY, SELL} && p.minConfidence <= d.confidence && 0.0 < price && z.None? && Within(p, d, whole as real) ==>
            whole as real < p.minNotional)
  {
    hide Lit, Within;
    Floored(Ceiling(p, d), whole);
    WithinCeiling(p, d, whole as real);
    WithinCeiling(p, d, Ceiling(p, d).Floor as real);
    hide Ceiling;
  }

  /** An amount under the ceiling and the product of base and confidence. */
  predicate Within(p: Policy, d: TradeDecision, amount: real) {
    amount <= p.maxNotional && amount <= p.baseNotional * d.confidence
  }

  lemma WithinCeiling(p: Policy, d: TradeDecision, amount: real)
    ensures Within(p, d, amount) <==> amount <= Ceiling(p, d)
  {
  }

  lemma Floored(x: real, whole: int)
    ensures x.Floor as real <= x < x.Floor as real + 1.0
    ensures (x.Floor as real).Floor == x.Floor
    ensures whole as real <= x ==> whole <= x.Floor
  {
  }

  // ---- the metrics ----

  datatype Metrics = Metrics(
    cycles: nat, decisions: nat, approvals: nat, rejections: nat, orders_submitted: nat, fills_full: nat, fills_partial: nat,
    fills_duplicate: nat, reconciliations: nat, risk_confirmed: nat, risk_released: nat, real_orders: nat, exceptions: nat,
    budget_consistent: bool, gateway_bypassed: bool, adapter_calls: nat)

  const NO_METRICS := Metrics(0, 0, 0, 0, 0, 0, 0, 0, 0, 0, 0, 0, 0, true, false, 0)

  function Counted(m: Metrics, x: Cycle, t: Trail): Metrics {
    var n := m.(cycles := m.cycles + 1, decisions := m.decisions + 1);
    match t
    case NoOrder => n
    case Refused => n.(rejections := m.rejections + 1)
    case Ordered(calls, _, o) =>
      n.(approvals := m.approvals + 1,
         orders_submitted := m.orders_submitted + 1,
         adapter_calls := m.adapter_calls + calls,
         reconciliations := m.reconciliations + 1,
         fills_full := m.fills_full + (if o.report.final_status == D.FILLED then 1 else 0),
         fills_partial := m.fills_partial + (if o.report.final_status == D.PARTIALLY_FILLED then 1 else 0),
         fills_duplicate := m.fills_duplicate + (if x.duplicateFills then 1 else 0))
  }

  function CountRun(c: C.Config, xs: seq<Cycle>): Metrics {
    if xs == [] then NO_METRICS
    else
      var front, x := xs[..|xs| - 1], xs[|xs| - 1];
      Counted(CountRun(c, front), x, RunCycle(c, Run(c, front), x, |front|).1)
  }

  function Consistent(s: Session): bool {
    s.risk.ledger.reserved + s.risk.ledger.consumed <= s.risk.ledger.total
  }

  function Measure(c: C.Config, xs: seq<Cycle>): Metrics {
    CountRun(c, xs).(budget_consistent := Consistent(Run(c, xs)))
  }

  /** Each order was submitted, reached the venue, was reconciled and filled in at most
      one way; nothing counts confirmations, releases, real orders or exceptions. */
  predicate Tallies(m: Metrics) {
    && m.decisions == m.cycles
    && m.risk_confirmed == m.risk_released == m.real_orders == m.exceptions == 0 && !m.gateway_bypassed
    && m.approvals + m.rejections <= m.cycles
    && m.approvals == m.orders_submitted == m.reconciliations == m.adapter_calls
    && m.fills_full + m.fills_partial <= m.approvals
  }

  /** Every approved order of a session reaches the venue exactly once and is reconciled,
      holds a reservation of its own, and is filled in at most one way; the budget is
      consistent at the end. */
  lemma EveryApprovalSubmitted(c: C.Config, xs: seq<Cycle>)
    requires c.total >= 0.0
    ensures var m := Measure(c, xs);
      Tallies(m) && m.cycles == |xs| && m.approvals == Run(c, xs).risk.ledger.counter && m.budget_consistent
  {
    hide Sound, CountRun, Run;
    RunSound(c, xs);
    RunTallies(c, xs);
    BudgetConsistent(c, Run(c, xs), |xs|);
  }

  lemma {:induction false} RunTallies(c: C.Config, xs: seq<Cycle>)
    ensures var m := CountRun(c, xs);
      Tallies(m) && m.cycles == |xs| && m.approvals == Run(c, xs).risk.ledger.counter
  {
    hide Sound, RunCycle, Tallies, Counted;
    if xs == [] {
      FreshCounter(c);
      NoTallies();
    } else {
      var front, x := xs[..|xs| - 1], xs[|xs| - 1];
      RunTallies(c, front);
      RunSound(c, front);
      NextTallies(c, Run(c, front), x, |front|, CountRun(c, front));
    }
  }

  lemma NoTallies()
    ensures Tallies(NO_METRICS)
  {
  }

  lemma NextTallies(c: C.Config, s: Session, x: Cycle, n: nat, m: Metrics)
    requires Sound(c, s, n) && Tallies(m) && m.cycles == n && m.approvals == s.risk.ledger.counter
    ensures var (after, trail) := RunCycle(c, s, x, n);
      var next := Counted(m, x, trail);
      Tallies(next) && next.cycles == n + 1 && next.approvals == after.risk.ledger.counter
  {
    hide Sound, RunCycle, SizeDecision, F.Paid, B.TotalNotional, C.Phase;
    CycleMoves(c, s, x, n);
    CounterMoves(c, s, x, n);
    var trail := RunCycle(c, s, x, n).1;
    assert trail.Ordered? ==> trail.adapterCalls == 1;
    assert Tallies(Counted(m, x, trail));
  }

  /** What a cycle adds to the counts: one order for an order, which counts as full or as
      partial by what it was filled, and as duplicated if its messages came twice. */
  lemma CycleCounted(c: C.Config, s: Session, x: Cycle, n: nat, m: Metrics)
    requires Sound(c, s, n)
    ensures var trail := RunCycle(c, s, x, n).1;
      var next := Counted(m, x, trail);
      && next.cycles == m.cycles + 1
      && next.rejections == m.rejections + (if trail.Refused? then 1 else 0)
      && next.approvals == m.approvals + (if trail.Ordered? then 1 else 0)
      && next.fills_duplicate == m.fills_duplicate + (if trail.Ordered? && x.duplicateFills then 1 else 0)
      && (!trail.Ordered? || x.venue != Accept ==> next.fills_full == m.fills_full && next.fills_partial == m.fills_partial)
      && (trail.Ordered? && x.venue == Accept ==>
            var (requested, filled) := (trail.outcome.report.requested_notional, trail.outcome.report.filled_notional);
            && next.fills_full == m.fills_full + (if 0.0 < filled && requested <= filled then 1 else 0)
            && next.fills_partial == m.fills_partial + (if 0.0 < filled < requested then 1 else 0))
  {
    hide Sound, RunCycle, SizeDecision, RequestId, F.Paid;
    if RunCycle(c, s, x, n).1.Ordered? {
      CycleReport(c, s, x, n);
    }
  }

  lemma FreshCounter(c: C.Config)
    ensures NewSession(c).risk.ledger.counter == 0
  {
  }

  lemma BudgetConsistent(c: C.Config, s: Session, n: nat)
    requires Sound(c, s, n) && c.total >= 0.0
    ensures Consistent(s)
  {
  }

  /** A reservation is made exactly when a cycle leads to an order. */
  lemma CounterMoves(c: C.Config, s: Session, x: Cycle, n: nat)
    requires Sound(c, s, n)
    ensures var (after, trail) := RunCycle(c, s, x, n);
      after.risk.ledger.counter == s.risk.ledger.counter + if trail.Ordered? then 1 else 0
  {
    hide C.Sound, B.Sound, SizeDecision, RequestId, FillsOf, BookFills, D.ReportOf, D.Confirms, C.PreTradeCheck, K.Use, NumberedBelow;
    match SizeDecision(x.decision, x.price, x.policy)
    case None =>
    case Some(z) =>
      FreshRequest(s, z.request_id, n);
      CheckCounts(s.risk, c, Request(z, n), x.positions, x.equity);
  }

  lemma CheckCounts(s: C.Engine, c: C.Config, req: C.TradeRequest, ps: seq<C.Position>, equity: C.Equity)
    requires req.request_id !in s.decisions
    ensures var (t, d) := C.PreTradeCheck(c, s, req, ps, equity);
      && t.ledger.counter == s.ledger.counter + (if d.ticket.Some? then 1 else 0)
      && (d.approved <==> d.ticket.Some?)
  {
    hide C.Exposure, C.Drawdown, Lit, Name, C.Halt;
    C.HaltKeepsRest(s);
  }

  // ---- where the bound ends ----

  /** For an order that was bought and accepted, the cost outgrows the consumed budget by
      this cycle exactly when the plan's parts exceed the order. */
  lemma OutgrowsExactly(c: C.Config, s: Session, x: Cycle, n: nat)
    requires Sound(c, s, n) && RunCycle(c, s, x, n).1.Ordered? && x.venue == Accept && x.decision.action == BUY
    ensures Excess(RunCycle(c, s, x, n).0) > Excess(s) <==> !WithinRequest(x)
  {
    hide Sound, F.Paid, B.TotalNotional, Execute, C.PreTradeCheck, Sums.Seq, Filter;
    CycleMoves(c, s, x, n);
    var z := SizeDecision(x.decision, x.price, x.policy).value;
    NotEmptyRequest(z.request_id, n);
    F.PaidWithinRequest(FillInput(x, z, RequestId(z.request_id, n)), x.plan);
  }

  const OVERSIZED := Cycle(
    Lit("KRW-BTC"), TradeDecision([], Lit("KRW-BTC"), BUY, 1.0), 1.0, Policy(1.0, 0.0, 1.0, 0.0),
    [], C.Equity(0.0, 0.0), Accept, F.Multi([2.0]), false, 0.0)

  /** A plan of one part twice the order: the position costs 2 against 1 consumed. */
  lemma OversizedOverspends(number: real -> C.Printable)
    ensures var s := Run(C.Config(10.0, G.ROOMY, 3, number), [OVERSIZED]);
      s.risk.ledger.consumed == 1.0 && B.TotalNotional(s.book) == 2.0
  {
    hide Sound, F.Paid, B.TotalNotional, RequestId, Execute, Run, RunCycle, Lit, NewSession;
    var c := C.Config(10.0, G.ROOMY, 3, number);
    var s := NewSession(c);
    NewSound(c);
    RunOne(c, OVERSIZED);
    var z := SizeDecision(OVERSIZED.decision, OVERSIZED.price, OVERSIZED.policy).value;
    hide SizeDecision;
    OversizedOrdered(c);
    CycleMoves(c, s, OVERSIZED, 0);
    NotEmptyRequest(z.request_id, 0);
    F.PaidWithinRequest(FillInput(OVERSIZED, z, RequestId(z.request_id, 0)), OVERSIZED.plan);
    TwoPaid();
    StartsEmpty(c);
  }

  lemma RunOne(c: C.Config, x: Cycle)
    ensures Run(c, [x]) == RunCycle(c, NewSession(c), x, 0).0
  {
    hide RunCycle;
    assert [x][..|[x]| - 1] == [];
    assert Run(c, []) == NewSession(c);
  }

  lemma StartsEmpty(c: C.Config)
    ensures NewSession(c).risk.ledger.consumed == 0.0 && B.TotalNotional(NewSession(c).book) == 0.0
  {
    B.EmptyTotal();
  }

  lemma OversizedOrdered(c: C.Config)
    requires c.limits == G.ROOMY && c.total == 10.0
    ensures SizeDecision(OVERSIZED.decision, OVERSIZED.price, OVERSIZED.policy).Some?
    ensures SizeDecision(OVERSIZED.decision, OVERSIZED.price, OVERSIZED.policy).value.notional == 1.0
    ensures SizeDecision(OVERSIZED.decision, OVERSIZED.price, OVERSIZED.policy).value.side == B.Buy
    ensures RunCycle(c, NewSession(c), OVERSIZED, 0).1.Ordered?
  {
    hide Execute, RequestId, Lit;
    G.StartedPath(c);
    var z := SizeDecision(OVERSIZED.decision, OVERSIZED.price, OVERSIZED.policy).value;
    RoomyApproves(c, NewSession(c).risk, Request(z, 0));
    AlwaysOrdered(NewSession(c), OVERSIZED, z, RequestId(z.request_id, 0));
  }

  lemma AlwaysOrdered(s: Session, x: Cycle, z: Sized, order: Text)
    ensures forall risk, t :: Execute(s.(risk := risk), x, z, order, t).1.Ordered?
  {
    hide D.Settle, FillsOf, BookFills, G.Gate;
  }

  lemma TwoPaid()
    ensures Sums.Seq(Filter([2.0], F.IsPositive)) == 2.0
  {
    F.FilterLast([], 2.0);
    F.NothingFilled([]);
    assert [] + [2.0] == [2.0];
  }

  lemma RoomyApproves(c: C.Config, s: C.Engine, req: C.TradeRequest)
    requires c.limits == G.ROOMY && C.Phase(s) == RUN && req.request_id !in s.decisions && req.notional == 1.0
    requires s.ledger.total == 10.0 && s.ledger.reserved + s.ledger.consumed == 0.0
    ensures C.PreTradeCheck(c, s, req, [], C.Equity(0.0, 0.0)).1.ticket.Some?
    ensures C.PreTradeCheck(c, s, req, [], C.Equity(0.0, 0.0)).1.approved
  {
    hide Lit, K.Issue;
    assert C.Exposure([]) == 0.0;
  }

  /** The venue takes an order behind this ticket, and the plan pays something for it. */
  predicate Fills(risk: C.Engine, x: Cycle, z: Sized, order: Text, t: C.Ticket) {
    K.Usable(risk.tokens, t.token_id) && x.venue == Accept && F.Paid(FillInput(x, z, order), x.plan) > 0.0
  }

  lemma ExecuteDropsExactly(c: C.Config, s: Session, x: Cycle, z: Sized, order: Text, t: C.Ticket)
    requires C.Sound(c, s.risk) && x.price > 0.0 && order != []
    ensures Execute(s, x, z, order, t).0.risk.ledger.consumed < s.risk.ledger.consumed
      <==> && t.reservation_id in s.risk.ledger.entries
           && s.risk.ledger.entries[t.reservation_id].phase == L.Consumed
           && !Fills(s.risk, x, z, order, t)
  {
    hide C.Sound, F.Paid, F.Notional, D.Own, D.ReportOf, FillsOf, BookFills, L.Consume, L.Release;
    var risk := G.Gate({}, s.risk, order, t.token_id, false).1;
    var submitted := K.Usable(s.risk.tokens, t.token_id) && x.venue == Accept;
    C.AuthorizeSound(c, s.risk, t.token_id);
    Admitted(s.risk, order, t.token_id);
    OrderFilled(x, z, order);
    D.ConsumedDropsExactly(c, D.Desk(risk, map[]), D.ReconcileRequest(order, order, t.reservation_id, z.notional),
                           FillsOf(x, z, order, submitted), !submitted);
  }

  /** A cycle takes back budget that was consumed exactly when its number was approved
      before, the reservation of that approval is consumed, and nothing fills this time:
      the token is spent, the venue does not accept, or the plan pays nothing. */
  lemma CycleDropsExactly(c: C.Config, s: Session, x: Cycle, n: nat)
    requires C.Sound(c, s.risk)
    ensures RunCycle(c, s, x, n).0.risk.ledger.consumed < s.risk.ledger.consumed
      <==> match SizeDecision(x.decision, x.price, x.policy)
           case None => false
           case Some(z) =>
             var order := RequestId(z.request_id, n);
             && order in s.risk.decisions && s.risk.decisions[order].approved
             && s.risk.decisions[order].ticket.Some?
             && var t := s.risk.decisions[order].ticket.value;
             && t.reservation_id in s.risk.ledger.entries
             && s.risk.ledger.entries[t.reservation_id].phase == L.Consumed
             && !Fills(s.risk, x, z, order, t)
  {
    hide C.Sound, SizeDecision, RequestId, Execute, C.PreTradeCheck, Fills;
    match SizeDecision(x.decision, x.price, x.policy)
    case None =>
    case Some(z) =>
      var req := Request(z, n);
      SizedPositive(x.decision, x.price, x.policy);
      NotEmptyRequest(z.request_id, n);
      Filed(c, s.risk, req, x.positions, x.equity);
      C.PreTradeSound(c, s.risk, req, x.positions, x.equity);
      var (risk, d) := C.PreTradeCheck(c, s.risk, req, x.positions, x.equity);
      if req.request_id !in s.risk.decisions {
        ApprovedFresh(c, s.risk, req, x.positions, x.equity);
      }
      if d.ticket.Some? {
        ExecuteDropsExactly(c, s.(risk := risk), x, z, req.request_id, d.ticket.value);
      }
  }

  /** An order that filled, taken again under its number: the token is spent, so the
      second round counts as refused by the venue and gives back budget that is consumed,
      while the position stays. Numbering the cycles keeps sessions clear of this. */
  lemma SameNumberReleases(c: C.Config, s: Session, x: Cycle, again: Cycle, n: nat)
    requires Sound(c, s, n) && RunCycle(c, s, x, n).1.Ordered?
    requires RunCycle(c, s, x, n).1.outcome.risk_confirmed
    requires SizeDecision(again.decision, again.price, again.policy).Some?
    requires again.decision.id == x.decision.id
    ensures var first := RunCycle(c, s, x, n).0;
      var second := RunCycle(c, first, again, n).0;
      && second.book == first.book
      && second.risk.ledger.consumed == first.risk.ledger.consumed - SizeDecision(x.decision, x.price, x.policy).value.notional
  {
    hide C.Sound, B.Sound, RequestId, C.PreTradeCheck, Execute, NumberedBelow, BookFills, Lit;
    var z, w := SizeDecision(x.decision, x.price, x.policy).value, SizeDecision(again.decision, again.price, again.policy).value;
    var order := RequestId(z.request_id, n);
    hide SizeDecision;
    FreshRequest(s, z.request_id, n);
    ApprovedFresh(c, s.risk, Request(z, n), x.positions, x.equity);
    var (risk, d) := C.PreTradeCheck(c, s.risk, Request(z, n), x.positions, x.equity);
    Filed(c, s.risk, Request(z, n), x.positions, x.equity);
    var first := RunCycle(c, s, x, n).0;
    Exhausted(s.(risk := risk), x, z, order, d.ticket.value);
    Filed(c, first.risk, Request(w, n), again.positions, again.equity);
    RefusedReleases(first, again, w, order, d.ticket.value);
  }

  /** A decision is filed under its request, and asking again returns it. */
  lemma Filed(c: C.Config, s: C.Engine, req: C.TradeRequest, ps: seq<C.Position>, equity: C.Equity)
    ensures var (t, d) := C.PreTradeCheck(c, s, req, ps, equity);
      && req.request_id in t.decisions && t.decisions[req.request_id] == d
      && (req.request_id in s.decisions ==> t == s && d == s.decisions[req.request_id])
  {
    hide C.Exposure, C.Drawdown, Lit, Name, C.Halt, L.Reserve, K.Issue;
  }

  lemma Exhausted(s: Session, x: Cycle, z: Sized, order: Text, t: C.Ticket)
    requires K.Usable(s.risk.tokens, t.token_id)
    requires Execute(s, x, z, order, t).1.outcome.risk_confirmed
    ensures var n := Execute(s, x, z, order, t).0;
      && n.risk.decisions == s.risk.decisions
      && !K.Usable(n.risk.tokens, t.token_id)
      && t.reservation_id in n.risk.ledger.entries && t.reservation_id in s.risk.ledger.entries
      && n.risk.ledger.entries[t.reservation_id].phase == L.Consumed
      && n.risk.ledger.entries[t.reservation_id].amount == s.risk.ledger.entries[t.reservation_id].amount
  {
    hide D.ReportOf, D.Confirms, FillsOf, BookFills;
  }

  lemma RefusedReleases(s: Session, x: Cycle, z: Sized, order: Text, t: C.Ticket)
    requires !K.Usable(s.risk.tokens, t.token_id)
    requires t.reservation_id in s.risk.ledger.entries && s.risk.ledger.entries[t.reservation_id].phase == L.Consumed
    ensures var n := Execute(s, x, z, order, t).0;
      && n.book == s.book
      && n.risk.ledger.consumed == s.risk.ledger.consumed - s.risk.ledger.entries[t.reservation_id].amount
  {
    hide F.Notional, BookFills, D.Own;
    NoFills(x, z, order);
  }
}
