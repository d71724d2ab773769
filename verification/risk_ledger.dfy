/** The risk budget as a ledger of reservations, and what every ledger keeps. */
module Ledgers {
  import opened Texts
  import opened Options
  import opened Sums

  datatype Phase = Reserved | Consumed | Released

  datatype Entry = Entry(request_id: Text, amount: real, phase: Phase)

  datatype Ledger = Ledger(total: real, reserved: real, consumed: real, counter: nat, entries: map<Text, Entry>)

  function ReservationId(n: nat): Text {
    Lit("res-") + NatText(n)
  }

  lemma ReservationIdInjective(m: nat, n: nat)
    requires ReservationId(m) == ReservationId(n)
    ensures m == n
  {
    assert NatText(m) == ReservationId(m)[4..] == ReservationId(n)[4..] == NatText(n);
    NatTextInjective(m, n);
  }

  function Empty(total: real): Ledger {
    Ledger(total, 0.0, 0.0, 0, map[])
  }

  // ---- the operations on values ----

  function Reserve(l: Ledger, request_id: Text, amount: real): (r: (Ledger, Option<Text>))
    ensures r.1.None? ==> r.0 == l
  {
    if amount <= 0.0 || l.reserved + l.consumed + amount > l.total then (l, None)
    else
      var id := ReservationId(l.counter + 1);
      (l.(reserved := l.reserved + amount,
          counter := l.counter + 1,
          entries := l.entries[id := Entry(request_id, amount, Reserved)]), Some(id))
  }

  function Consume(l: Ledger, id: Text): (Ledger, bool) {
    if id !in l.entries || l.entries[id].phase != Reserved then (l, false)
    else
      var e := l.entries[id];
      (l.(reserved := l.reserved - e.amount,
          consumed := l.consumed + e.amount,
          entries := l.entries[id := e.(phase := Consumed)]), true)
  }

  function Release(l: Ledger, id: Text): (Ledger, bool) {
    if id !in l.entries || l.entries[id].phase == Released then (l, false)
    else
      var e := l.entries[id];
      var gone := l.entries[id := e.(phase := Released)];
      if e.phase == Reserved then (l.(reserved := l.reserved - e.amount, entries := gone), true)
      else (l.(consumed := l.consumed - e.amount, entries := gone), true)
  }

  // ---- what every ledger keeps ----

  function Share(entries: map<Text, Entry>, phase: Phase): Text -> real {
    id => if id in entries && entries[id].phase == phase then entries[id].amount else 0.0
  }

  /** The sum of the amounts of the reservations in one phase. */
  ghost function Held(entries: map<Text, Entry>, phase: Phase): real {
    Over(entries.Keys, Share(entries, phase))
  }

  /** The two counters are the sums of the reservations they stand for, every amount is
      positive, ids are the numbered ones, and the budget is never overdrawn. */
  ghost predicate Sound(l: Ledger) {
    && (forall id :: id in l.entries <==> exists n :: 1 <= n <= l.counter && id == ReservationId(n))
    && (forall id :: id in l.entries ==> l.entries[id].amount > 0.0)
    && l.reserved == Held(l.entries, Reserved)
    && l.consumed == Held(l.entries, Consumed)
    && (l.reserved + l.consumed <= l.total || l.reserved + l.consumed == 0.0)
  }

  lemma EmptySound(total: real)
    ensures Sound(Empty(total))
  {
  }

  lemma HeldNonNegative(l: Ledger)
    requires Sound(l)
    ensures l.reserved >= 0.0 && l.consumed >= 0.0
  {
    NonNegative(l.entries.Keys, Share(l.entries, Reserved));
    NonNegative(l.entries.Keys, Share(l.entries, Consumed));
  }

  lemma HeldInsert(entries: map<Text, Entry>, id: Text, e: Entry, phase: Phase)
    requires id !in entries
    ensures Held(entries[id := e], phase) == Held(entries, phase) + if e.phase == phase then e.amount else 0.0
  {
    hide Over;
    var next := entries[id := e];
    assert next.Keys == entries.Keys + {id};
    Add(entries.Keys, Share(next, phase), id);
    Same(entries.Keys, Share(entries, phase), Share(next, phase));
  }

  lemma HeldChange(entries: map<Text, Entry>, id: Text, to: Phase, phase: Phase)
    requires id in entries
    ensures Held(entries[id := entries[id].(phase := to)], phase)
         == Held(entries, phase)
            - (if entries[id].phase == phase then entries[id].amount else 0.0)
            + (if to == phase then entries[id].amount else 0.0)
  {
    hide Over;
    var next := entries[id := entries[id].(phase := to)];
    assert next.Keys == entries.Keys;
    Split(entries.Keys, Share(entries, phase), id);
    Split(entries.Keys, Share(next, phase), id);
    Same(entries.Keys - {id}, Share(entries, phase), Share(next, phase));
  }

  lemma ReserveKeeps(l: Ledger, request_id: Text, amount: real)
    requires Sound(l)
    ensures Sound(Reserve(l, request_id, amount).0)
    ensures ReservationId(l.counter + 1) !in l.entries
  {
    hide Held, ReservationId;
    var id := ReservationId(l.counter + 1);
    if id in l.entries {
      var n :| 1 <= n <= l.counter && id == ReservationId(n);
      ReservationIdInjective(n, l.counter + 1);
      assert false;
    }
    HeldInsert(l.entries, id, Entry(request_id, amount, Reserved), Reserved);
    HeldInsert(l.entries, id, Entry(request_id, amount, Reserved), Consumed);
    var next := Reserve(l, request_id, amount).0;
    if next != l {
      forall x | x in next.entries ensures exists n :: 1 <= n <= next.counter && x == ReservationId(n) {
        if x != id {
          var n :| 1 <= n <= l.counter && x == ReservationId(n);
        }
      }
      forall n | 1 <= n <= next.counter ensures ReservationId(n) in next.entries {
        if n <= l.counter {
          assert ReservationId(n) in l.entries;
        }
      }
    }
  }

  lemma ConsumeKeeps(l: Ledger, id: Text)
    requires Sound(l)
    ensures Sound(Consume(l, id).0)
  {
    hide Held, ReservationId;
    if id in l.entries {
      HeldChange(l.entries, id, Consumed, Reserved);
      HeldChange(l.entries, id, Consumed, Consumed);
      assert Consume(l, id).0.entries.Keys == l.entries.Keys;
    }
  }

  lemma ReleaseKeeps(l: Ledger, id: Text)
    requires Sound(l)
    ensures Sound(Release(l, id).0)
  {
    hide Held, ReservationId;
    HeldNonNegative(l);
    if id in l.entries {
      HeldChange(l.entries, id, Released, Reserved);
      HeldChange(l.entries, id, Released, Consumed);
      assert Release(l, id).0.entries.Keys == l.entries.Keys;
      ReleasedBound(l, id);
    }
  }

  lemma ReleasedBound(l: Ledger, id: Text)
    requires Sound(l)
    ensures var n := Release(l, id).0; n.reserved + n.consumed <= n.total || n.reserved + n.consumed == 0.0
  {
    hide ReservationId, Over;
    if id in l.entries && l.reserved + l.consumed == 0.0 {
      HeldNonNegative(l);
      var phase := l.entries[id].phase;
      Split(l.entries.Keys, Share(l.entries, phase), id);
      NonNegative(l.entries.Keys - {id}, Share(l.entries, phase));
    }
  }
}
