/** The risk budget object, which updates its reservations in place. */
module RiskBudgets {
  import opened Texts
  import opened Options
  import L = Ledgers

  class Reservation {
    const reservation_id: Text
    const request_id: Text
    const amount: real
    var phase: L.Phase

    constructor (reservation_id: Text, request_id: Text, amount: real)
      ensures this.reservation_id == reservation_id && this.request_id == request_id
      ensures this.amount == amount && phase == L.Reserved
    {
      this.reservation_id := reservation_id;
      this.request_id := request_id;
      this.amount := amount;
      phase := L.Reserved;
    }
  }

  class RiskBudget {
    const total: real
    var reserved: real
    var consumed: real
    var reservations: map<Text, Reservation>
    var counter: nat

    /** Every reservation is filed under its own id. */
    ghost predicate Valid()
      reads this, reservations.Values
    {
      forall id :: id in reservations ==> reservations[id].reservation_id == id
    }

    ghost function View(): L.Ledger
      reads this, reservations.Values
    {
      L.Ledger(total, reserved, consumed, counter,
             map id | id in reservations ::
               L.Entry(reservations[id].request_id, reservations[id].amount, reservations[id].phase))
    }

    constructor (total: real)
      ensures Valid() && View() == L.Empty(total) && reservations == map[]
    {
      this.total := total;
      reserved, consumed, reservations, counter := 0.0, 0.0, map[], 0;
    }

    method Reserve(request_id: Text, amount: real) returns (r: Reservation?)
      requires Valid()
      modifies this
      ensures Valid()
      ensures View() == L.Reserve(old(View()), request_id, amount).0
      ensures L.Reserve(old(View()), request_id, amount).1 == if r == null then None else Some(r.reservation_id)
      ensures fresh(reservations.Values - old(reservations.Values))
    {
      if amount <= 0.0 || reserved + consumed + amount > total {
        return null;
      }
      counter := counter + 1;
      r := new Reservation(L.ReservationId(counter), request_id, amount);
      reservations := reservations[r.reservation_id := r];
      reserved := reserved + amount;
    }

    method Consume(id: Text) returns (ok: bool)
      requires Valid()
      modifies this, reservations.Values
      ensures Valid() && reservations == old(reservations)
      ensures View() == L.Consume(old(View()), id).0 && ok == L.Consume(old(View()), id).1
    {
      if id !in reservations || reservations[id].phase != L.Reserved {
        return false;
      }
      var r := reservations[id];
      r.phase := L.Consumed;
      reserved := reserved - r.amount;
      consumed := consumed + r.amount;
      ok := true;
    }

    method Release(id: Text) returns (ok: bool)
      requires Valid()
      modifies this, reservations.Values
      ensures Valid() && reservations == old(reservations)
      ensures View() == L.Release(old(View()), id).0 && ok == L.Release(old(View()), id).1
    {
      if id !in reservations {
        return false;
      }
      var r := reservations[id];
      if r.phase == L.Reserved {
        reserved := reserved - r.amount;
      } else if r.phase == L.Consumed {
        consumed := consumed - r.amount;
      } else {
        return false;
      }
      r.phase := L.Released;
      ok := true;
    }
  }
}
