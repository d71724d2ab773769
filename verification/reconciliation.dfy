/** Reconciliation on values: what was filled against what was requested, and how that
    settles the budget reservation behind the order. */
module Reconciliation {
  import opened Texts
  import opened Options
  import opened Sequences
  import Sums
  import opened FillLedgers
  import M = RiskMachine
  import C = RiskCore
  import L = Ledgers

  datatype OrderStatus = FILLED | PARTIALLY_FILLED | CANCELLED | REJECTED

  datatype ReconcileRequest = ReconcileRequest(
    request_id: Text, client_order_id: Text, reservation_id: Text, requested_notional: real)

  datatype Report = Report(
    request_id: Text,
    client_order_id: Text,
    exchange_order_id: Option<Text>,
    requested_notional: real,
    filled_notional: real,
    remaining_notional: real,
    fill_count: nat,
    fee_total: real,
    final_status: OrderStatus)

  datatype Outcome = Outcome(report: Report, risk_confirmed: bool, risk_released: bool, duplicate: bool)

  datatype Desk = Desk(risk: C.Engine, settled: map<Text, Outcome>)

  function DeriveStatus(requested: real, filled: real, rejected: bool): OrderStatus {
    if rejected then REJECTED
    else if filled <= 0.0 then CANCELLED
    else if filled >= requested then FILLED
    else PARTIALLY_FILLED
  }

  function Own(fills: seq<FillEvent>, order: Text): seq<FillEvent> {
    Filter(fills, (f: FillEvent) => f.client_order_id == order)
  }

  function Fees(fills: seq<FillEvent>): real {
    Sums.Seq(Map(fills, (f: FillEvent) => f.fee))
  }

  /** The first venue id any fill carries. */
  function VenueId(fills: seq<FillEvent>): Option<Text> {
    if fills == [] then None
    else if fills[0].exchange_order_id.Some? then fills[0].exchange_order_id
    else VenueId(fills[1..])
  }

  function ReportOf(req: ReconcileRequest, fills: seq<FillEvent>, rejected: bool): Report {
    var own := Own(fills, req.client_order_id);
    var filled := Notional(own);
    Report(req.request_id, req.client_order_id, VenueId(own), req.requested_notional, filled,
           if req.requested_notional - filled < 0.0 then 0.0 else req.requested_notional - filled,
           |own|, Fees(own), DeriveStatus(req.requested_notional, filled, rejected))
  }

  /** Whether the order keeps its reservation: something was filled and it was not rejected. */
  predicate Confirms(req: ReconcileRequest, fills: seq<FillEvent>, rejected: bool) {
    !rejected && Notional(Own(fills, req.client_order_id)) > 0.0
  }

  function Settle(risk: C.Engine, req: ReconcileRequest, fills: seq<FillEvent>, rejected: bool): (C.Engine, Outcome) {
    var report := ReportOf(req, fills, rejected);
    if Confirms(req, fills, rejected) then
      var (after, ok) := C.Confirm(risk, req.reservation_id);
      (after, Outcome(report, ok, false, false))
    else
      var (after, ok) := C.Release(risk, req.reservation_id);
      (after, Outcome(report, false, ok, false))
  }

  function Reconcile(d: Desk, req: ReconcileRequest, fills: seq<FillEvent>, rejected: bool): (Desk, Outcome) {
    if req.client_order_id in d.settled then (d, d.settled[req.client_order_id].(duplicate := true))
    else
      var (risk, outcome) := Settle(d.risk, req, fills, rejected);
      (Desk(risk, d.settled[req.client_order_id := outcome]), outcome)
  }

  // ---- the books of one order ----

  /** The status says how the filled amount stands to the requested one, and filled plus
      remaining is the request unless more was filled than requested. */
  lemma ReportMeaning(req: ReconcileRequest, fills: seq<FillEvent>, rejected: bool)
    ensures var r := ReportOf(req, fills, rejected);
      && (r.final_status == REJECTED <==> rejected)
      && (r.final_status == CANCELLED <==> !rejected && r.filled_notional <= 0.0)
      && (r.final_status == FILLED <==> !rejected && 0.0 < r.filled_notional && req.requested_notional <= r.filled_notional)
      && (r.final_status == PARTIALLY_FILLED <==> !rejected && 0.0 < r.filled_notional < req.requested_notional)
      && (r.final_status in {FILLED, PARTIALLY_FILLED} <==> Confirms(req, fills, rejected))
      && r.remaining_notional >= 0.0
      && (r.filled_notional + r.remaining_notional == req.requested_notional <==> r.filled_notional <= req.requested_notional)
      && (r.filled_notional > req.requested_notional ==> r.remaining_notional == 0.0)
      && (r.request_id, r.client_order_id, r.requested_notional) == (req.request_id, req.client_order_id, req.requested_notional)
  {
    hide Notional, Own;
  }

  /** What one more fill does to a report: nothing unless it is of this order; otherwise it
      adds its funds and its fee and counts as one, and gives the venue id if none did. */
  lemma ReportGrows(req: ReconcileRequest, fills: seq<FillEvent>, f: FillEvent, rejected: bool)
    ensures var r, next := ReportOf(req, fills, rejected), ReportOf(req, fills + [f], rejected);
      if f.client_order_id != req.client_order_id then next == r
      else
        && next.filled_notional == r.filled_notional + f.filled_notional
        && next.fee_total == r.fee_total + f.fee
        && next.fill_count == r.fill_count + 1
        && next.exchange_order_id == (if r.exchange_order_id.Some? then r.exchange_order_id else f.exchange_order_id)
  {
    hide Notional, DeriveStatus, Own, Fees, VenueId;
    if f.client_order_id != req.client_order_id {
      OthersIgnored(req, fills, [f], rejected);
    } else {
      var own := Own(fills, req.client_order_id);
      OwnNext(fills, f, req.client_order_id);
      NotionalMiddle(own, f, []);
      assert own + [f] + [] == own + [f] && own + [] == own;
      FeesNext(own, f);
      VenueNext(own, f);
    }
  }

  /** Nothing is filled, paid or named before the first fill. */
  lemma ReportEmpty(req: ReconcileRequest, rejected: bool)
    ensures var r := ReportOf(req, [], rejected);
      r.filled_notional == r.fee_total == 0.0 && r.fill_count == 0 && r.exchange_order_id == None
  {
    NothingFilled([]);
  }

  lemma OwnNext(fills: seq<FillEvent>, f: FillEvent, order: Text)
    ensures Own(fills + [f], order) == Own(fills, order) + if f.client_order_id == order then [f] else []
  {
    FilterSnoc(fills, f, (g: FillEvent) => g.client_order_id == order);
  }

  lemma FeesNext(fills: seq<FillEvent>, f: FillEvent)
    ensures Fees(fills + [f]) == Fees(fills) + f.fee
  {
    var fee := (g: FillEvent) => g.fee;
    assert Map(fills + [f], fee) == Map(fills, fee) + [f.fee];
    Sums.SeqConcat(Map(fills, fee), [f.fee]);
    SingleSum(f.fee);
  }

  lemma {:induction false} VenueNext(fills: seq<FillEvent>, f: FillEvent)
    ensures VenueId(fills + [f]) == if VenueId(fills).Some? then VenueId(fills) else f.exchange_order_id
  {
    if fills != [] {
      VenueNext(fills[1..], f);
      assert (fills + [f])[1..] == fills[1..] + [f];
    } else {
      assert [f][1..] == [];
    }
  }

  /** Fills of other orders are not counted. */
  lemma OthersIgnored(req: ReconcileRequest, fills: seq<FillEvent>, others: seq<FillEvent>, rejected: bool)
    requires forall f :: f in others ==> f.client_order_id != req.client_order_id
    ensures ReportOf(req, fills + others, rejected) == ReportOf(req, fills, rejected)
    ensures ReportOf(req, others + fills, rejected) == ReportOf(req, fills, rejected)
  {
    var own := (f: FillEvent) => f.client_order_id == req.client_order_id;
    FilterConcat(fills, others, own);
    FilterConcat(others, fills, own);
    FilterNone(others, own);
    assert Own(fills, req.client_order_id) + [] == Own(fills, req.client_order_id);
    assert [] + Own(fills, req.client_order_id) == Own(fills, req.client_order_id);
  }

  /** A held reservation leaves the reserved amount whole: as consumed when something was
      filled, back to the budget otherwise. */
  lemma SettlesReservation(risk: C.Engine, req: ReconcileRequest, fills: seq<FillEvent>, rejected: bool)
    requires req.reservation_id in risk.ledger.entries && risk.ledger.entries[req.reservation_id].phase == L.Reserved
    ensures var (after, o) := Settle(risk, req, fills, rejected);
      var amount := risk.ledger.entries[req.reservation_id].amount;
      && after.ledger.reserved == risk.ledger.reserved - amount
      && after.ledger.consumed == risk.ledger.consumed + (if Confirms(req, fills, rejected) then amount else 0.0)
      && after.ledger.entries[req.reservation_id].phase == (if Confirms(req, fills, rejected) then L.Consumed else L.Released)
      && o.risk_confirmed == Confirms(req, fills, rejected) && o.risk_released == !Confirms(req, fills, rejected)
  {
    hide Confirms;
  }

  /** Exactly when a reconciliation takes back budget that was consumed: the order is new,
      nothing counts as filled, and its reservation was consumed before. */
  lemma ConsumedDropsExactly(c: C.Config, d: Desk, req: ReconcileRequest, fills: seq<FillEvent>, rejected: bool)
    requires C.Sound(c, d.risk)
    ensures Reconcile(d, req, fills, rejected).0.risk.ledger.consumed < d.risk.ledger.consumed
      <==> && req.client_order_id !in d.settled
           && !Confirms(req, fills, rejected)
           && req.reservation_id in d.risk.ledger.entries
           && d.risk.ledger.entries[req.reservation_id].phase == L.Consumed
  {
    hide Confirms, L.Held, ReportOf;
    if req.reservation_id in d.risk.ledger.entries {
      assert d.risk.ledger.entries[req.reservation_id].amount > 0.0;
    }
  }

  // ---- whole runs ----

  datatype Action =
    | Settlement(req: ReconcileRequest, fills: seq<FillEvent>, rejected: bool)
    | Risk(call: C.Call)

  function Step(c: C.Config, d: Desk, a: Action): Desk {
    match a
    case Settlement(req, fills, rejected) => Reconcile(d, req, fills, rejected).0
    case Risk(call) => d.(risk := C.Step(c, d.risk, call))
  }

  /** A mixed run, behind the states that the log of the risk engine already holds. */
  function Run(c: C.Config, past: seq<M.RiskState>, actions: seq<Action>): Desk {
    if actions == [] then Desk(C.Restarted(c, past), map[])
    else Step(c, Run(c, past, actions[..|actions| - 1]), actions[|actions| - 1])
  }

  /** The risk engine stays sound whatever is settled. */
  lemma {:induction false} RunSound(c: C.Config, past: seq<M.RiskState>, actions: seq<Action>)
    requires C.Resumable(past)
    ensures C.Sound(c, Run(c, past, actions).risk)
  {
    hide C.Sound, C.Resumable, C.Restarted, C.Step, Confirms, ReportOf, C.Confirm, C.Release;
    if actions == [] {
      C.RestartSound(c, past);
    } else {
      var d, a := Run(c, past, actions[..|actions| - 1]), actions[|actions| - 1];
      RunSound(c, past, actions[..|actions| - 1]);
      match a
      case Settlement(req, _, _) => C.LedgerSound(c, d.risk, req.reservation_id);
      case Risk(call) => C.StepSound(c, d.risk, call);
    }
  }

  lemma {:induction false} SettledStays(c: C.Config, past: seq<M.RiskState>, actions: seq<Action>, more: seq<Action>, order: Text)
    requires order in Run(c, past, actions).settled
    ensures order in Run(c, past, actions + more).settled
    ensures Run(c, past, actions + more).settled[order] == Run(c, past, actions).settled[order]
  {
    hide C.Step, Settle;
    if more == [] {
      assert actions + more == actions;
    } else {
      SettledStays(c, past, actions, more[..|more| - 1], order);
      assert (actions + more)[..|actions + more| - 1] == actions + more[..|more| - 1];
    }
  }

  /** An order drives the risk engine at most once in a whole run: settling it again,
      with whatever fills, replays the first outcome and changes nothing. */
  lemma SettledOnce(c: C.Config, past: seq<M.RiskState>, actions: seq<Action>, first: Action, more: seq<Action>, again: ReconcileRequest,
                    fills: seq<FillEvent>, rejected: bool)
    requires first.Settlement? && again.client_order_id == first.req.client_order_id
    ensures var outcome := Reconcile(Run(c, past, actions), first.req, first.fills, first.rejected).1;
      var d := Run(c, past, actions + [first] + more);
      Reconcile(d, again, fills, rejected) == (d, outcome.(duplicate := true))
  {
    hide C.Step, Settle;
    var done := actions + [first];
    assert done[..|done| - 1] == actions;
    assert Run(c, past, done) == Step(c, Run(c, past, actions), first);
    SettledStays(c, past, done, more, again.client_order_id);
  }
}
