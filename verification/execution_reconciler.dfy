/** The reconciler object, driving a risk engine. */
module ExecutionReconcilers {
  import opened Texts
  import opened Sequences
  import Sums
  import opened CanonicalJson
  import opened EventLog
  import opened RiskEngines
  import C = RiskCore
  import F = FillLedgers
  import D = Reconciliation

  function DriveEvent(reservation: Text, keeps: bool): (Text, Value) {
    ReservationEvent(if keeps then "Risk.budgetConsumed" else "Risk.budgetReleased", reservation)
  }

  function OutcomeEvents(req: D.ReconcileRequest, o: D.Outcome): seq<(Text, Value)> {
    if !o.duplicate && (o.risk_confirmed || o.risk_released) then [DriveEvent(req.reservation_id, o.risk_confirmed)] else []
  }

  class ExecutionReconciler {
    const risk: RiskEngine
    var settled: map<Text, D.Outcome>

    constructor (risk: RiskEngine)
      ensures this.risk == risk && settled == map[]
    {
      this.risk := risk;
      settled := map[];
    }

    ghost function View(): D.Desk
      reads this, risk, risk.sm, risk.budget, risk.tokens,
            risk.budget.reservations.Values, risk.tokens.tokens.Values
    {
      D.Desk(risk.View(), settled)
    }

    /** The sums over the fills of one order. */
    method Total(own: seq<F.FillEvent>) returns (filled: real, fees: real)
      ensures filled == F.Notional(own) && fees == D.Fees(own)
    {
      ghost var amounts, costs := F.Notionals(own), Map(own, (f: F.FillEvent) => f.fee);
      filled, fees := 0.0, 0.0;
      for i := 0 to |own|
        invariant filled == Sums.Seq(amounts[..i]) && fees == Sums.Seq(costs[..i])
      {
        assert amounts[..i + 1][..i] == amounts[..i] && costs[..i + 1][..i] == costs[..i];
        filled, fees := filled + own[i].filled_notional, fees + own[i].fee;
      }
      assert amounts[..|own|] == amounts && costs[..|own|] == costs;
    }

    method MakeReport(req: D.ReconcileRequest, fills: seq<F.FillEvent>, rejected: bool) returns (report: D.Report)
      ensures report == D.ReportOf(req, fills, rejected)
      ensures D.Confirms(req, fills, rejected) <==> !rejected && report.filled_notional > 0.0
    {
      hide F.Notional, D.Fees, D.Own, D.VenueId;
      var own := D.Own(fills, req.client_order_id);
      var filled, fees := Total(own);
      var left := req.requested_notional - filled;
      report := D.Report(req.request_id, req.client_order_id, D.VenueId(own), req.requested_notional, filled,
                         if left < 0.0 then 0.0 else left, |own|, fees, D.DeriveStatus(req.requested_notional, filled, rejected));
    }

    /** Keeps the reservation as consumed, or gives it back. */
    method Drive(reservation: Text, keeps: bool, at: Text) returns (ok: bool)
      requires risk.Valid()
      modifies risk.Repr()
      ensures risk.Valid() && risk.Repr() == old(risk.Repr())
      ensures risk.View() == (if keeps then C.Confirm(old(risk.View()), reservation) else C.Release(old(risk.View()), reservation)).0
      ensures ok == (if keeps then C.Confirm(old(risk.View()), reservation) else C.Release(old(risk.View()), reservation)).1
      ensures Appended(old(risk.log.log), risk.log.log, if ok then [DriveEvent(reservation, keeps)] else [])
    {
      hide RiskEngine.Valid, RiskEngine.View, Appended, C.Confirm, C.Release;
      if keeps {
        ok := risk.ConfirmFill(reservation, at);
      } else {
        ok := risk.Release(reservation, at);
      }
    }

    /** Drives the risk engine for an order that is not settled yet. */
    method SettleOrder(req: D.ReconcileRequest, fills: seq<F.FillEvent>, rejected: bool, at: Text)
      returns (o: D.Outcome)
      requires risk.Valid()
      modifies risk.Repr()
      ensures risk.Valid() && risk.Repr() == old(risk.Repr())
      ensures risk.View() == D.Settle(old(risk.View()), req, fills, rejected).0
      ensures o == D.Settle(old(risk.View()), req, fills, rejected).1
      ensures Appended(old(risk.log.log), risk.log.log, OutcomeEvents(req, o))
    {
      hide RiskEngine.Valid, RiskEngine.View, Appended, DriveEvent, C.Confirm, C.Release, D.ReportOf, D.Confirms;
      var report := MakeReport(req, fills, rejected);
      var keeps := !rejected && report.filled_notional > 0.0;
      var ok := Drive(req.reservation_id, keeps, at);
      o := D.Outcome(report, keeps && ok, !keeps && ok, false);
    }

    /** Settles an order at most once; what is filled keeps its reservation consumed, and
        exactly one budget event is recorded when the reservation changed. */
    method Reconcile(req: D.ReconcileRequest, fills: seq<F.FillEvent>, rejected: bool, at: Text) returns (o: D.Outcome)
      requires risk.Valid()
      modifies this, risk.Repr()
      ensures risk.Valid() && risk.Repr() == old(risk.Repr())
      ensures View() == D.Reconcile(old(View()), req, fills, rejected).0
      ensures o == D.Reconcile(old(View()), req, fills, rejected).1
      ensures Appended(old(risk.log.log), risk.log.log, OutcomeEvents(req, o))
    {
      hide RiskEngine.Valid, RiskEngine.View, Appended, DriveEvent, D.Settle;
      if req.client_order_id in settled {
        AppendedNone(risk.log.log);
        return settled[req.client_order_id].(duplicate := true);
      }
      o := SettleOrder(req, fills, rejected, at);
      settled := settled[req.client_order_id := o];
    }
  }
}
