/** Execution messages of the venue on values: normalization into fills, the per-order
    buffer that drops redelivered trades, and what every delivery adds up to. */
module FillLedgers {
  import opened Texts
  import opened Options
  import opened Sequences
  import opened Sorting
  import Sums

  /** The fields that are read; every one may be missing. */
  datatype Message = Message(
    kind: Option<Text>,
    uuid: Option<Text>,
    identifier: Option<Text>,
    trade_uuid: Option<Text>,
    executed_funds: Option<real>,
    executed_volume: Option<real>,
    avg_price: Option<real>,
    price: Option<real>,
    paid_fee: Option<real>,
    trades_count: Option<real>,
    trade_timestamp: Option<real>,
    timestamp: Option<real>)

  datatype FillEvent = FillEvent(
    client_order_id: Text,
    exchange_order_id: Option<Text>,
    fill_seq: real,
    filled_notional: real,
    filled_qty: real,
    price: real,
    fee: real,
    observed_at_ms: real)

  function Else<T>(o: Option<T>, other: T): T {
    if o.Some? then o.value else other
  }

  function First<T>(a: Option<T>, b: Option<T>): Option<T> {
    if a.Some? then a else b
  }

  predicate IsExecution(m: Message) {
    Else(m.trade_uuid, []) != [] && Else(m.executed_funds, 0.0) > 0.0
  }

  /** The empty identifier does not fall back to the order id of the venue. */
  function ParseMyOrder(m: Message): Option<FillEvent> {
    var order := Else(First(m.identifier, m.uuid), []);
    if Else(m.kind, []) != [] && m.kind != Some(Lit("myOrder")) then None
    else if !IsExecution(m) || order == [] then None
    else
      Some(FillEvent(order, m.uuid, Else(m.trades_count, 0.0), Else(m.executed_funds, 0.0), Else(m.executed_volume, 0.0),
                     Else(First(m.avg_price, m.price), 0.0), Else(m.paid_fee, 0.0),
                     Else(First(m.trade_timestamp, m.timestamp), 0.0)))
  }

  /** An execution of an order the venue names is dropped exactly when its own identifier
      is there and empty. */
  lemma EmptyIdentifierDropped(m: Message)
    requires m.kind.None? || m.kind == Some([]) || m.kind == Some(Lit("myOrder"))
    requires IsExecution(m) && m.uuid.Some? && m.uuid.value != []
    ensures ParseMyOrder(m).None? <==> m.identifier == Some([])
  {
  }

  /** A message is an execution exactly when it is of the kind, or of none, names a trade,
      reports funds, and names an order: by its own identifier or, when it has none, by the
      venue's. Amounts that are missing count as zero; the average price goes before the
      price and the time of the trade before the time of the message. */
  lemma ParsesExactly(m: Message)
    ensures var f := ParseMyOrder(m);
      var named := if m.identifier == None then m.uuid else m.identifier;
      && (f.Some? <==>
            && m.kind in {None, Some([]), Some(Lit("myOrder"))}
            && m.trade_uuid !in {None, Some([])}
            && m.executed_funds.Some? && m.executed_funds.value > 0.0
            && named !in {None, Some([])})
      && (f.Some? ==>
            && named == Some(f.value.client_order_id) && f.value.exchange_order_id == m.uuid
            && m.executed_funds == Some(f.value.filled_notional)
            && m.executed_volume in {Some(f.value.filled_qty), None} && (m.executed_volume == None ==> f.value.filled_qty == 0.0)
            && m.paid_fee in {Some(f.value.fee), None} && (m.paid_fee == None ==> f.value.fee == 0.0)
            && m.trades_count in {Some(f.value.fill_seq), None} && (m.trades_count == None ==> f.value.fill_seq == 0.0)
            && f.value.price == (if m.avg_price.Some? then m.avg_price.value else if m.price.Some? then m.price.value else 0.0)
            && f.value.observed_at_ms
               == (if m.trade_timestamp.Some? then m.trade_timestamp.value
                   else if m.timestamp.Some? then m.timestamp.value else 0.0))
  {
    hide Lit;
  }

  function TradeKey(m: Message): Text { Else(m.trade_uuid, []) }

  // ---- the buffer ----

  /** One order's trades, in the order they arrived. */
  type Trades = seq<(Text, FillEvent)>

  type Buffer = map<Text, Trades>

  function TradesOf(b: Buffer, order: Text): Trades {
    if order in b then b[order] else []
  }

  predicate Has(ts: Trades, key: Text) {
    exists i :: 0 <= i < |ts| && ts[i].0 == key
  }

  function Ingest(b: Buffer, m: Message): (Buffer, Option<FillEvent>) {
    match ParseMyOrder(m)
    case None => (b, None)
    case Some(fill) =>
      var ts := TradesOf(b, fill.client_order_id);
      if Has(ts, TradeKey(m)) then (b, None)
      else (b[fill.client_order_id := ts + [(TradeKey(m), fill)]], Some(fill))
  }

  predicate Before(a: FillEvent, b: FillEvent) {
    a.fill_seq < b.fill_seq || (a.fill_seq == b.fill_seq && a.observed_at_ms <= b.observed_at_ms)
  }

  function FillsIn(ts: Trades): seq<FillEvent> {
    Map(ts, (t: (Text, FillEvent)) => t.1)
  }

  function Fills(b: Buffer, order: Text): seq<FillEvent> {
    Sort(FillsIn(TradesOf(b, order)), Before)
  }

  function Notionals(fs: seq<FillEvent>): seq<real> {
    Map(fs, (f: FillEvent) => f.filled_notional)
  }

  function Notional(fs: seq<FillEvent>): real {
    Sums.Seq(Notionals(fs))
  }

  function FilledNotional(b: Buffer, order: Text): real {
    Notional(Fills(b, order))
  }

  function Deliver(ms: seq<Message>): Buffer {
    if ms == [] then map[] else Ingest(Deliver(ms[..|ms| - 1]), ms[|ms| - 1]).0
  }

  // ---- what was delivered ----

  /** The message is an execution of this order. */
  predicate Accepts(m: Message, order: Text) {
    ParseMyOrder(m).Some? && ParseMyOrder(m).value.client_order_id == order
  }

  /** The trades of an order that any message reported. */
  function TradeKeys(ms: seq<Message>, order: Text): set<Text> {
    set m | m in ms && Accepts(m, order) :: TradeKey(m)
  }

  /** What the first message about a trade said. */
  function FirstReport(ms: seq<Message>, order: Text, key: Text): Option<FillEvent> {
    if ms == [] then None
    else
      var earlier, m := FirstReport(ms[..|ms| - 1], order, key), ms[|ms| - 1];
      if earlier.Some? then earlier
      else if Accepts(m, order) && TradeKey(m) == key then ParseMyOrder(m)
      else None
  }

  function FirstFunds(ms: seq<Message>, order: Text): Text -> real {
    key => match FirstReport(ms, order, key) case None => 0.0 case Some(f) => f.filled_notional
  }

  /** The buffer holds each reported trade once, as first reported. */
  ghost predicate Mirrors(ts: Trades, ms: seq<Message>, order: Text) {
    && (forall i, j :: 0 <= i < j < |ts| ==> ts[i].0 != ts[j].0)
    && (forall i :: 0 <= i < |ts| ==> ts[i].0 in TradeKeys(ms, order) && FirstReport(ms, order, ts[i].0) == Some(ts[i].1))
    && (forall key :: key in TradeKeys(ms, order) ==> Has(ts, key))
  }

  lemma KeysAppend(ms: seq<Message>, m: Message, order: Text)
    ensures TradeKeys(ms + [m], order) == TradeKeys(ms, order) + if Accepts(m, order) then {TradeKey(m)} else {}
  {
    hide ParseMyOrder;
    assert forall x :: x in ms + [m] <==> x in ms || x == m;
  }

  lemma ReportAppend(ms: seq<Message>, m: Message, order: Text, key: Text)
    ensures FirstReport(ms + [m], order, key) ==
      if FirstReport(ms, order, key).Some? then FirstReport(ms, order, key)
      else if Accepts(m, order) && TradeKey(m) == key then ParseMyOrder(m)
      else None
  {
    hide ParseMyOrder;
    assert (ms + [m])[..|ms + [m]| - 1] == ms;
  }

  lemma {:induction false} ReportedExactly(ms: seq<Message>, order: Text, key: Text)
    ensures FirstReport(ms, order, key).Some? <==> key in TradeKeys(ms, order)
    ensures FirstReport(ms, order, key).Some? ==>
      exists m :: m in ms && Accepts(m, order) && TradeKey(m) == key && ParseMyOrder(m) == FirstReport(ms, order, key)
  {
    hide ParseMyOrder;
    if ms != [] {
      var front, m := ms[..|ms| - 1], ms[|ms| - 1];
      ReportedExactly(front, order, key);
      KeysAppend(front, m, order);
      assert ms == front + [m];
    }
  }

  lemma IngestMirrors(b: Buffer, ms: seq<Message>, m: Message, order: Text)
    requires Mirrors(TradesOf(b, order), ms, order)
    ensures Mirrors(TradesOf(Ingest(b, m).0, order), ms + [m], order)
  {
    hide ParseMyOrder, TradeKeys, FirstReport;
    var ts, next := TradesOf(b, order), TradesOf(Ingest(b, m).0, order);
    KeysAppend(ms, m, order);
    assert next == ts || next == ts + [(TradeKey(m), ParseMyOrder(m).value)];
    forall key | Has(ts, key) ensures Has(next, key) {
      var i :| 0 <= i < |ts| && ts[i].0 == key;
      assert next[i].0 == key;
    }
    if Accepts(m, order) && !Has(ts, TradeKey(m)) {
      assert next[|ts|].0 == TradeKey(m);
    }
    forall i | 0 <= i < |next| ensures FirstReport(ms + [m], order, next[i].0) == Some(next[i].1) {
      ReportAppend(ms, m, order, next[i].0);
      ReportedExactly(ms, order, next[i].0);
    }
  }

  lemma {:induction false} DeliverMirrors(ms: seq<Message>, order: Text)
    ensures Mirrors(TradesOf(Deliver(ms), order), ms, order)
  {
    hide Ingest, TradeKeys, FirstReport;
    if ms == [] {
      KeysEmpty(order);
    } else {
      hide Mirrors;
      var front, m := ms[..|ms| - 1], ms[|ms| - 1];
      DeliverMirrors(front, order);
      IngestMirrors(Deliver(front), front, m, order);
      assert ms == front + [m];
    }
  }

  lemma KeysEmpty(order: Text)
    ensures TradeKeys([], order) == {}
  {
  }

  // ---- sums ----

  lemma BeforeTotal()
    ensures TotalPreorder(Before)
  {
  }

  lemma {:induction false} NotionalsMultiset(a: seq<FillEvent>, b: seq<FillEvent>)
    requires multiset(a) == multiset(b)
    ensures Notional(a) == Notional(b)
  {
    hide Notional;
    assert |multiset(a)| == |a| && |multiset(b)| == |b|;
    if a == [] {
      assert b == [];
    } else {
      var front, x := a[..|a| - 1], a[|a| - 1];
      assert a == front + [x];
      assert x in multiset(a) && x in b;
      var i := TakeOut(b, x);
      NotionalsMultiset(front, b[..i] + b[i + 1..]);
      NotionalMiddle(b[..i], x, b[i + 1..]);
      NotionalMiddle(front, x, []);
      assert front + [x] + [] == a && front + [] == front;
    }
  }

  lemma NotionalMiddle(front: seq<FillEvent>, x: FillEvent, back: seq<FillEvent>)
    ensures Notional(front + [x] + back) == Notional(front + back) + x.filled_notional
  {
    hide Sums.Seq;
    assert Notionals(front + [x] + back) == Notionals(front) + [x.filled_notional] + Notionals(back);
    assert Notionals(front + back) == Notionals(front) + Notionals(back);
    Sums.SeqConcat(Notionals(front), [x.filled_notional]);
    Sums.SeqConcat(Notionals(front) + [x.filled_notional], Notionals(back));
    Sums.SeqConcat(Notionals(front), Notionals(back));
    SingleSum(x.filled_notional);
  }

  lemma SingleSum(x: real)
    ensures Sums.Seq([x]) == x
  {
    assert [x][..0] == [];
  }

  /** Fills are listed by number, then by time. */
  lemma FillsOrdered(b: Buffer, order: Text)
    ensures var fs := Fills(b, order);
      forall i, j :: 0 <= i < j < |fs| ==>
        fs[i].fill_seq <= fs[j].fill_seq && (fs[i].fill_seq == fs[j].fill_seq ==> fs[i].observed_at_ms <= fs[j].observed_at_ms)
  {
    BeforeTotal();
    SortCorrect(FillsIn(TradesOf(b, order)), Before);
    var fs := Fills(b, order);
    assert forall i, j :: 0 <= i < j < |fs| ==> Before(fs[i], fs[j]);
  }

  /** Sorting the fills of an order keeps them and their sum. */
  lemma FillsKept(b: Buffer, order: Text)
    ensures multiset(Fills(b, order)) == multiset(FillsIn(TradesOf(b, order)))
    ensures |Fills(b, order)| == |TradesOf(b, order)|
    ensures FilledNotional(b, order) == Notional(FillsIn(TradesOf(b, order)))
  {
    hide Before;
    BeforeTotal();
    SortCorrect(FillsIn(TradesOf(b, order)), Before);
    NotionalsMultiset(Fills(b, order), FillsIn(TradesOf(b, order)));
  }

  function KeysOf(ts: Trades): set<Text> {
    if ts == [] then {} else KeysOf(ts[..|ts| - 1]) + {ts[|ts| - 1].0}
  }

  lemma {:induction false} KeysHeld(ts: Trades, key: Text)
    ensures key in KeysOf(ts) <==> Has(ts, key)
  {
    if ts != [] {
      var front := ts[..|ts| - 1];
      KeysHeld(front, key);
      if key in KeysOf(ts) && key != ts[|ts| - 1].0 {
        var i :| 0 <= i < |front| && front[i].0 == key;
        assert ts[i].0 == key;
      }
    }
  }

  lemma {:induction false} SumByKeys(ts: Trades, f: Text -> real)
    requires forall i, j :: 0 <= i < j < |ts| ==> ts[i].0 != ts[j].0
    requires forall i :: 0 <= i < |ts| ==> f(ts[i].0) == ts[i].1.filled_notional
    ensures Notional(FillsIn(ts)) == Sums.Over(KeysOf(ts), f)
    ensures |KeysOf(ts)| == |ts|
  {
    hide Sums.Over;
    if ts == [] {
      SumEmpty(f);
    } else {
      var front, t := ts[..|ts| - 1], ts[|ts| - 1];
      SumByKeys(front, f);
      KeysHeld(front, t.0);
      Sums.Add(KeysOf(front), f, t.0);
      assert FillsIn(ts) == FillsIn(front) + [t.1] + [];
      assert FillsIn(front) == FillsIn(front) + [];
      NotionalMiddle(FillsIn(front), t.1, []);
    }
  }

  lemma SumEmpty(f: Text -> real)
    ensures Sums.Over({}, f) == 0.0
  {
  }

  /** After any messages an order's filled amount is the sum, over the distinct trades
      that were reported for it, of the funds first reported. */
  lemma FilledIsSumOfTrades(ms: seq<Message>, order: Text)
    ensures FilledNotional(Deliver(ms), order) == Sums.Over(TradeKeys(ms, order), FirstFunds(ms, order))
    ensures |Fills(Deliver(ms), order)| == |TradeKeys(ms, order)|
  {
    hide Deliver, TradeKeys, FirstReport, Sums.Over;
    DeliverMirrors(ms, order);
    FillsKept(Deliver(ms), order);
    var ts := TradesOf(Deliver(ms), order);
    forall key ensures key in KeysOf(ts) <==> key in TradeKeys(ms, order) {
      KeysHeld(ts, key);
    }
    assert KeysOf(ts) == TradeKeys(ms, order);
    SumByKeys(ts, FirstFunds(ms, order));
  }

  // ---- redelivery and reordering ----

  lemma {:induction false} DeliverAppend(a: seq<Message>, b: seq<Message>, c: seq<Message>)
    requires Deliver(a) == Deliver(b)
    ensures Deliver(a + c) == Deliver(b + c)
  {
    hide Ingest;
    if c == [] {
      assert a + c == a && b + c == b;
    } else {
      DeliverAppend(a, b, c[..|c| - 1]);
      assert (a + c)[..|a + c| - 1] == a + c[..|c| - 1];
      assert (b + c)[..|b + c| - 1] == b + c[..|c| - 1];
    }
  }

  /** Delivering a trade again, at any later point and in whatever wording, changes
      nothing then or afterwards. */
  lemma RedeliveryIsNoOp(ms: seq<Message>, m: Message, again: Message, later: seq<Message>)
    requires m in ms && ParseMyOrder(m).Some? && TradeKey(again) == TradeKey(m)
    requires Accepts(again, ParseMyOrder(m).value.client_order_id)
    ensures Ingest(Deliver(ms), again) == (Deliver(ms), None)
    ensures Deliver(ms + [again] + later) == Deliver(ms + later)
  {
    hide ParseMyOrder, FirstReport, Deliver;
    var order := ParseMyOrder(m).value.client_order_id;
    DeliverMirrors(ms, order);
    assert TradeKey(m) in TradeKeys(ms, order);
    assert Deliver(ms + [again]) == Deliver(ms) by { DeliverOne(ms, again); }
    DeliverAppend(ms + [again], ms, later);
  }

  lemma DeliverOne(ms: seq<Message>, m: Message)
    ensures Deliver(ms + [m]) == Ingest(Deliver(ms), m).0
  {
    assert (ms + [m])[..|ms + [m]| - 1] == ms;
  }

  /** All reports of one trade say the same. */
  ghost predicate CopiesAgree(ms: seq<Message>) {
    forall x, y :: x in ms && y in ms && ParseMyOrder(x).Some? && ParseMyOrder(y).Some?
      && ParseMyOrder(x).value.client_order_id == ParseMyOrder(y).value.client_order_id
      && TradeKey(x) == TradeKey(y)
      ==> ParseMyOrder(x) == ParseMyOrder(y)
  }

  /** Any reordering and any duplication of deliveries gives the same amount and the same
      number of fills, and the same list of fills unless different fills tie. */
  lemma OrderAndCopiesIrrelevant(a: seq<Message>, b: seq<Message>, order: Text)
    requires forall m :: m in a <==> m in b
    requires CopiesAgree(a)
    ensures FilledNotional(Deliver(a), order) == FilledNotional(Deliver(b), order)
    ensures multiset(Fills(Deliver(a), order)) == multiset(Fills(Deliver(b), order))
    ensures TiesAreEqual(Fills(Deliver(a), order), Before) ==> Fills(Deliver(a), order) == Fills(Deliver(b), order)
  {
    hide Deliver, TradeKeys, FirstReport, Before, ParseMyOrder, Fills;
    DeliverMirrors(a, order);
    DeliverMirrors(b, order);
    SameReports(a, b, order);
    FillsKept(Deliver(a), order);
    FillsKept(Deliver(b), order);
    SameTrades(TradesOf(Deliver(a), order), TradesOf(Deliver(b), order), a, b, order);
    NotionalsMultiset(Fills(Deliver(a), order), Fills(Deliver(b), order));
    SameSorted(Deliver(a), Deliver(b), order);
  }

  lemma SameSorted(a: Buffer, b: Buffer, order: Text)
    requires multiset(Fills(a, order)) == multiset(Fills(b, order))
    ensures TiesAreEqual(Fills(a, order), Before) ==> Fills(a, order) == Fills(b, order)
  {
    hide Before, Sorted, TotalPreorder, TiesAreEqual;
    BeforeTotal();
    SortCorrect(FillsIn(TradesOf(a, order)), Before);
    SortCorrect(FillsIn(TradesOf(b, order)), Before);
    if TiesAreEqual(Fills(a, order), Before) {
      SortedUnique(Fills(a, order), Fills(b, order), Before);
    }
  }

  lemma SameReports(a: seq<Message>, b: seq<Message>, order: Text)
    requires forall m :: m in a <==> m in b
    requires CopiesAgree(a)
    ensures TradeKeys(a, order) == TradeKeys(b, order)
    ensures forall key :: FirstReport(a, order, key) == FirstReport(b, order, key)
  {
    hide FirstReport, ParseMyOrder;
    forall key ensures FirstReport(a, order, key) == FirstReport(b, order, key) {
      ReportedExactly(a, order, key);
      ReportedExactly(b, order, key);
    }
  }

  lemma {:induction false} SameTrades(s: Trades, t: Trades, a: seq<Message>, b: seq<Message>, order: Text)
    requires Mirrors(s, a, order) && Mirrors(t, b, order)
    requires TradeKeys(a, order) == TradeKeys(b, order)
    requires forall key :: FirstReport(a, order, key) == FirstReport(b, order, key)
    ensures multiset(FillsIn(s)) == multiset(FillsIn(t))
  {
    hide TradeKeys, FirstReport;
    forall i | 0 <= i < |s| ensures s[i] in t {
      assert Has(t, s[i].0);
    }
    forall i | 0 <= i < |t| ensures t[i] in s {
      assert Has(s, t[i].0);
    }
    assert forall i, j :: 0 <= i < j < |s| ==> s[i] != s[j];
    assert forall i, j :: 0 <= i < j < |t| ==> t[i] != t[j];
    SameMembers(s, t);
    MapReorder(s, t, (p: (Text, FillEvent)) => p.1);
  }

  // ---- clearing ----

  datatype Action = Receive(message: Message) | Clear(order: Text)

  function Apply(b: Buffer, a: Action): Buffer {
    match a
    case Receive(m) => Ingest(b, m).0
    case Clear(order) => b - {order}
  }

  function Run(actions: seq<Action>): Buffer {
    if actions == [] then map[] else Apply(Run(actions[..|actions| - 1]), actions[|actions| - 1])
  }

  /** The messages since an order was last cleared. */
  function SinceCleared(actions: seq<Action>, order: Text): seq<Message> {
    if actions == [] then []
    else
      var front, a := actions[..|actions| - 1], actions[|actions| - 1];
      match a
      case Receive(m) => SinceCleared(front, order) + [m]
      case Clear(o) => if o == order then [] else SinceCleared(front, order)
  }

  /** Clearing forgets an order's trades, and only that order's: what it holds is what was
      delivered since, so a trade redelivered behind a clear counts again. */
  lemma {:induction false} ClearedExactly(actions: seq<Action>, order: Text)
    ensures TradesOf(Run(actions), order) == TradesOf(Deliver(SinceCleared(actions, order)), order)
  {
    hide ParseMyOrder, Has;
    if actions != [] {
      var front, a := actions[..|actions| - 1], actions[|actions| - 1];
      ClearedExactly(front, order);
      if a.Receive? {
        DeliverOne(SinceCleared(front, order), a.message);
      }
    }
  }

  // ---- the simulated venue ----

  datatype Plan = Full | Partial(filled: real) | Multi(parts: seq<real>) | Nothing

  datatype FillInput = FillInput(
    client_order_id: Text, exchange_order_id: Text, requested_notional: real, price: real, feeRate: real, at_ms: real)

  function PlanAmounts(requested: real, plan: Plan): seq<real> {
    match plan
    case Full => [requested]
    case Partial(filled) => if filled > 0.0 then [if filled < requested then filled else requested] else []
    case Multi(parts) => Filter(parts, (p: real) => p > 0.0)
    case Nothing => []
  }

  function TradeId(exchange: Text, n: nat): Text {
    exchange + Lit("-t") + NatText(n)
  }

  function FillMessage(input: FillInput, funds: real, i: nat): Message {
    Message(Some(Lit("myOrder")), Some(input.exchange_order_id), Some(input.client_order_id),
            Some(TradeId(input.exchange_order_id, i + 1)), Some(funds),
            Some(if input.price > 0.0 then funds / input.price else 0.0), Some(input.price), None,
            Some(funds * input.feeRate), Some((i + 1) as real),
            Some(input.at_ms + (i + 1) as real), Some(input.at_ms + (i + 1) as real))
  }

  function GenerateFillMessages(input: FillInput, plan: Plan): (ms: seq<Message>)
    ensures |ms| == |PlanAmounts(input.requested_notional, plan)|
  {
    var amounts := PlanAmounts(input.requested_notional, plan);
    seq(|amounts|, i requires 0 <= i < |amounts| => FillMessage(input, amounts[i], i))
  }

  lemma TradeIdInjective(exchange: Text, m: nat, n: nat)
    requires TradeId(exchange, m) == TradeId(exchange, n)
    ensures m == n
  {
    var k := |exchange + Lit("-t")|;
    assert NatText(m) == TradeId(exchange, m)[k..] == TradeId(exchange, n)[k..] == NatText(n);
    NatTextInjective(m, n);
  }

  /** A generated message is an execution exactly when it has funds and a client order; its
      trade is numbered within the order of the venue. */
  lemma GeneratedParses(input: FillInput, funds: real, i: nat)
    ensures FillMessage(input, funds, i).trade_uuid == Some(input.exchange_order_id + Lit("-t") + NatText(i + 1))
    ensures var f := ParseMyOrder(FillMessage(input, funds, i));
      && (f.Some? <==> funds > 0.0 && input.client_order_id != [])
      && (f.Some? ==>
          && f.value.client_order_id == input.client_order_id
          && f.value.filled_notional == funds
          && f.value.fee == funds * input.feeRate
          && f.value.fill_seq == (i + 1) as real && f.value.observed_at_ms == input.at_ms + (i + 1) as real
          && f.value.price == input.price && f.value.exchange_order_id == Some(input.exchange_order_id)
          && (input.price > 0.0 ==> f.value.filled_qty == funds / input.price > 0.0))
  {
    assert TradeId(input.exchange_order_id, i + 1) == input.exchange_order_id + Lit("-t") + NatText(i + 1);
    hide TradeId;
    assert |TradeId(input.exchange_order_id, i + 1)| > 0 by { IdNotEmpty(input.exchange_order_id, i + 1); }
    assert |Lit("myOrder")| == 7;
    if funds > 0.0 && input.price > 0.0 {
      Positive(funds, input.price);
    }
  }

  lemma Positive(a: real, b: real)
    requires a > 0.0 && b > 0.0
    ensures a / b > 0.0
  {
  }

  lemma IdNotEmpty(exchange: Text, n: nat)
    ensures |TradeId(exchange, n)| > 0
  {
  }

  predicate IsPositive(x: real) { x > 0.0 }

  /** The amounts of a plan that reach the buffer. */
  function Paid(input: FillInput, plan: Plan): real {
    if input.client_order_id == [] then 0.0
    else Sums.Seq(Filter(PlanAmounts(input.requested_notional, plan), IsPositive))
  }

  /** Every trade carries one of the first n generated ids, and the fills are numbered
      upwards within n. */
  ghost predicate Numbered(ts: Trades, exchange: Text, n: nat) {
    && (forall j :: 0 <= j < |ts| ==> exists k :: 1 <= k <= n && ts[j].0 == TradeId(exchange, k))
    && (forall j :: 0 <= j < |ts| ==> ts[j].1.fill_seq <= n as real)
    && (forall j, k :: 0 <= j < k < |ts| ==> ts[j].1.fill_seq < ts[k].1.fill_seq)
  }

  lemma {:induction false} PrefixFilled(input: FillInput, plan: Plan, n: nat)
    requires n <= |GenerateFillMessages(input, plan)|
    requires input.client_order_id != []
    ensures var ts := TradesOf(Deliver(GenerateFillMessages(input, plan)[..n]), input.client_order_id);
      && Notionals(FillsIn(ts)) == Filter(PlanAmounts(input.requested_notional, plan)[..n], IsPositive)
      && Numbered(ts, input.exchange_order_id, n)
  {
    hide ParseMyOrder, TradeId, PlanAmounts, FillMessage, Deliver, Ingest;
    if n == 0 {
      NothingFilled(input.client_order_id);
      assert PlanAmounts(input.requested_notional, plan)[..0] == [];
    } else {
      var all, amounts := GenerateFillMessages(input, plan), PlanAmounts(input.requested_notional, plan);
      hide Numbered;
      PrefixFilled(input, plan, n - 1);
      DeliverOne(all[..n - 1], all[n - 1]);
      assert all[..n - 1] + [all[n - 1]] == all[..n];
      assert amounts[..n - 1] + [amounts[n - 1]] == amounts[..n];
      NextFilled(input, amounts[..n - 1], amounts[n - 1], n - 1, Deliver(all[..n - 1]));
    }
  }

  lemma NothingFilled(order: Text)
    ensures TradesOf(Deliver([]), order) == []
    ensures Notional(FillsIn([])) == 0.0 == Sums.Seq(Filter([], IsPositive))
  {
  }

  lemma NextFilled(input: FillInput, before: seq<real>, funds: real, i: nat, b: Buffer)
    requires input.client_order_id != []
    requires var ts := TradesOf(b, input.client_order_id);
      Notionals(FillsIn(ts)) == Filter(before, IsPositive) && Numbered(ts, input.exchange_order_id, i)
    ensures var ts := TradesOf(Ingest(b, FillMessage(input, funds, i)).0, input.client_order_id);
      Notionals(FillsIn(ts)) == Filter(before + [funds], IsPositive) && Numbered(ts, input.exchange_order_id, i + 1)
  {
    hide ParseMyOrder, TradeId, Filter;
    var m := FillMessage(input, funds, i);
    var ts := TradesOf(b, input.client_order_id);
    GeneratedParses(input, funds, i);
    NewTrade(ts, input.exchange_order_id, i);
    FilterSnoc(before, funds, IsPositive);
    var next := TradesOf(Ingest(b, m).0, input.client_order_id);
    if funds > 0.0 {
      var fill := ParseMyOrder(m).value;
      assert next == ts + [(TradeKey(m), fill)];
      assert FillsIn(next) == FillsIn(ts) + [fill];
      NumberedNext(ts, (TradeKey(m), fill), input.exchange_order_id, i);
    } else {
      assert Filter(before, IsPositive) + [] == Filter(before, IsPositive);
    }
  }

  lemma NewTrade(ts: Trades, exchange: Text, i: nat)
    requires Numbered(ts, exchange, i)
    ensures !Has(ts, TradeId(exchange, i + 1))
  {
    hide TradeId;
    if Has(ts, TradeId(exchange, i + 1)) {
      var j :| 0 <= j < |ts| && ts[j].0 == TradeId(exchange, i + 1);
      var k :| 1 <= k <= i && ts[j].0 == TradeId(exchange, k);
      TradeIdInjective(exchange, k, i + 1);
      assert false;
    }
  }

  lemma NumberedNext(ts: Trades, t: (Text, FillEvent), exchange: Text, i: nat)
    requires Numbered(ts, exchange, i) && t.0 == TradeId(exchange, i + 1) && t.1.fill_seq == (i + 1) as real
    ensures Numbered(ts + [t], exchange, i + 1)
    ensures Numbered(ts, exchange, i + 1)
  {
    hide TradeId;
  }

  lemma FilterLast(before: seq<real>, funds: real)
    ensures Sums.Seq(Filter(before + [funds], IsPositive))
         == Sums.Seq(Filter(before, IsPositive)) + if funds > 0.0 then funds else 0.0
  {
    FilterConcat(before, [funds], IsPositive);
    assert [funds][..0] == [];
    Sums.SeqConcat(Filter(before, IsPositive), Filter([funds], IsPositive));
    SingleSum(funds);
    assert Filter([funds], IsPositive) == if funds > 0.0 then [funds] else [];
  }

  /** Fills that are numbered upwards are already in order. */
  lemma AlreadySorted(ts: Trades, exchange: Text, n: nat)
    requires Numbered(ts, exchange, n)
    ensures Sort(FillsIn(ts), Before) == FillsIn(ts) && TiesAreEqual(FillsIn(ts), Before)
  {
    hide TradeId;
    var fs := FillsIn(ts);
    BeforeTotal();
    SortCorrect(fs, Before);
    SortMembers(fs, Before);
    forall x, y | x in fs && y in fs && Before(x, y) && Before(y, x) ensures x == y {
      var i :| 0 <= i < |fs| && fs[i] == x;
      var j :| 0 <= j < |fs| && fs[j] == y;
    }
    assert Sorted(fs, Before);
    SortedUnique(fs, Sort(fs, Before), Before);
  }

  /** A plan delivered with any duplication and in any order gives one fill per positive
      amount, in the order of the plan. */
  lemma PlanFillsInOrder(input: FillInput, plan: Plan, ms: seq<Message>)
    requires forall m :: m in ms <==> m in GenerateFillMessages(input, plan)
    requires input.client_order_id != []
    ensures Notionals(Fills(Deliver(ms), input.client_order_id))
      == Filter(PlanAmounts(input.requested_notional, plan), IsPositive)
  {
    hide ParseMyOrder, TradeId, PlanAmounts, FillMessage, Deliver, TiesAreEqual, Sort, Numbered, Filter;
    var all, order := GenerateFillMessages(input, plan), input.client_order_id;
    GeneratedAgree(input, plan);
    OrderAndCopiesIrrelevant(all, ms, order);
    PrefixFilled(input, plan, |all|);
    assert all[..|all|] == all;
    var amounts := PlanAmounts(input.requested_notional, plan);
    assert amounts[..|amounts|] == amounts;
    AlreadySorted(TradesOf(Deliver(all), order), input.exchange_order_id, |all|);
  }

  /** So the order is filled with exactly the sum of the plan's positive amounts. */
  lemma PlanDelivered(input: FillInput, plan: Plan, ms: seq<Message>)
    requires forall m :: m in ms <==> m in GenerateFillMessages(input, plan)
    ensures FilledNotional(Deliver(ms), input.client_order_id) == Paid(input, plan)
  {
    hide PlanAmounts, Sums.Seq, Fills, Deliver, Filter, GenerateFillMessages;
    if input.client_order_id == [] {
      NoneAccepted(input, plan, ms);
    } else {
      PlanFillsInOrder(input, plan, ms);
    }
  }

  /** The fills of a plan are executions of the order, at the given price and fee rate. */
  lemma PlanFills(input: FillInput, plan: Plan, ms: seq<Message>, f: FillEvent)
    requires forall m :: m in ms <==> m in GenerateFillMessages(input, plan)
    requires f in Fills(Deliver(ms), input.client_order_id)
    ensures f.filled_notional > 0.0 && f.fee == f.filled_notional * input.feeRate
    ensures input.price > 0.0 ==> f.filled_qty == f.filled_notional / input.price > 0.0
    ensures f.client_order_id == input.client_order_id
  {
    hide ParseMyOrder, TradeId, PlanAmounts, FillMessage, Fills, Deliver;
    FillReported(ms, input.client_order_id, f);
    var m :| m in ms && ParseMyOrder(m) == Some(f);
    var all := GenerateFillMessages(input, plan);
    var i :| 0 <= i < |all| && all[i] == m;
    GeneratedParses(input, PlanAmounts(input.requested_notional, plan)[i], i);
  }

  lemma GeneratedAgree(input: FillInput, plan: Plan)
    ensures CopiesAgree(GenerateFillMessages(input, plan))
  {
    hide ParseMyOrder, TradeId, PlanAmounts;
    var all := GenerateFillMessages(input, plan);
    forall x, y | x in all && y in all && TradeKey(x) == TradeKey(y) ensures x == y {
      var i :| 0 <= i < |all| && all[i] == x;
      var j :| 0 <= j < |all| && all[j] == y;
      TradeIdInjective(input.exchange_order_id, i + 1, j + 1);
    }
  }

  /** Every fill of an order stems from a delivered message. */
  lemma FillReported(ms: seq<Message>, order: Text, f: FillEvent)
    requires f in Fills(Deliver(ms), order)
    ensures exists m :: m in ms && Accepts(m, order) && ParseMyOrder(m) == Some(f)
  {
    hide ParseMyOrder, Deliver, FirstReport, TradeKeys, Fills;
    DeliverMirrors(ms, order);
    FillsKept(Deliver(ms), order);
    var ts := TradesOf(Deliver(ms), order);
    assert f in multiset(FillsIn(ts));
    var i :| 0 <= i < |ts| && ts[i].1 == f;
    ReportedExactly(ms, order, ts[i].0);
  }

  lemma NoneAccepted(input: FillInput, plan: Plan, ms: seq<Message>)
    requires input.client_order_id == []
    requires forall m :: m in ms <==> m in GenerateFillMessages(input, plan)
    ensures FilledNotional(Deliver(ms), []) == Paid(input, plan)
  {
    hide Deliver, TradeId, PlanAmounts, FillMessage, ParseMyOrder, Fills;
    FillsKept(Deliver(ms), []);
    if Fills(Deliver(ms), []) != [] {
      var f := Fills(Deliver(ms), [])[0];
      FillReported(ms, [], f);
      NeverEmptyOrder(f);
    }
    NothingFilled([]);
  }

  lemma NeverEmptyOrder(f: FillEvent)
    ensures forall m :: ParseMyOrder(m) == Some(f) ==> f.client_order_id != []
  {
  }

  /** A plan never pays more than was requested, unless it is several parts: those pay
      the sum of the positive ones. */
  lemma PaidWithinRequest(input: FillInput, plan: Plan)
    requires input.requested_notional >= 0.0
    ensures Paid(input, plan) >= 0.0
    ensures !plan.Multi? ==> Paid(input, plan) <= input.requested_notional
    ensures plan.Multi? && input.client_order_id != [] ==>
      Paid(input, plan) == Sums.Seq(Filter(plan.parts, IsPositive))
  {
    hide Sums.Seq, Filter;
    PositiveSum(Filter(PlanAmounts(input.requested_notional, plan), IsPositive));
    if plan.Multi? {
      MultiPaid(plan.parts);
    } else {
      OnePaid(input.requested_notional, plan);
    }
  }

  /** The fills of a plan, by amount, for an order that asks for something. */
  lemma PlanPays(input: FillInput, plan: Plan, ms: seq<Message>)
    requires forall m :: m in ms <==> m in GenerateFillMessages(input, plan)
    requires input.client_order_id != [] && input.requested_notional > 0.0
    ensures var requested := input.requested_notional;
      var fills := Notionals(Fills(Deliver(ms), input.client_order_id));
      var paid := Paid(input, plan);
      && (plan.Full? ==> fills == [requested] && paid == requested)
      && (plan.Nothing? ==> fills == [] && paid == 0.0)
      && (plan.Partial? && plan.filled <= 0.0 ==> fills == [] && paid == 0.0)
      && (plan.Partial? && 0.0 < plan.filled < requested ==> fills == [plan.filled] && paid == plan.filled)
      && (plan.Partial? && requested <= plan.filled ==> fills == [requested] && paid == requested)
      && (plan.Multi? ==> fills == Filter(plan.parts, IsPositive))
  {
    hide Fills, Deliver, Filter, GenerateFillMessages, Paid;
    PlanFillsInOrder(input, plan, ms);
    PaidAmounts(input, plan);
    if plan.Multi? {
      MultiPaid(plan.parts);
    }
  }

  lemma PaidAmounts(input: FillInput, plan: Plan)
    requires input.client_order_id != [] && input.requested_notional > 0.0
    ensures var amounts := PlanAmounts(input.requested_notional, plan);
      && (!plan.Multi? ==> Filter(amounts, IsPositive) == amounts)
      && (amounts == [] ==> Paid(input, plan) == 0.0)
      && (!plan.Multi? && amounts != [] ==> Paid(input, plan) == amounts[0])
  {
    var amounts := PlanAmounts(input.requested_notional, plan);
    if !plan.Multi? && amounts != [] {
      OnePositive(amounts[0]);
    }
  }

  lemma OnePositive(x: real)
    requires x > 0.0
    ensures Filter([x], IsPositive) == [x]
    ensures Sums.Seq([x]) == x
  {
    FilterAll([x], IsPositive);
    SingleSum(x);
  }

  lemma MultiPaid(parts: seq<real>)
    ensures Filter(Filter(parts, (p: real) => p > 0.0), IsPositive) == Filter(parts, IsPositive)
  {
    FilterSame(parts, (p: real) => p > 0.0, IsPositive);
    FilterAll(Filter(parts, IsPositive), IsPositive);
  }

  lemma OnePaid(requested: real, plan: Plan)
    requires !plan.Multi? && requested >= 0.0
    ensures Sums.Seq(Filter(PlanAmounts(requested, plan), IsPositive)) <= requested
  {
    hide Sums.Seq, Filter;
    var amounts := PlanAmounts(requested, plan);
    NothingFilled([]);
    if amounts != [] {
      FilterLast([], amounts[0]);
      assert [] + [amounts[0]] == amounts;
    }
  }

  lemma {:induction false} PositiveSum(s: seq<real>)
    requires forall i :: 0 <= i < |s| ==> s[i] > 0.0
    ensures Sums.Seq(s) >= 0.0
  {
    if s != [] {
      PositiveSum(s[..|s| - 1]);
    }
  }
}
