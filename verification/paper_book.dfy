/** Average-cost positions of a paper run, on values. */
module PaperBooks {
  import opened Texts
  import opened Options
  import opened Sums

  datatype Holding = Holding(qty: real, notional: real)

  datatype Book = Book(holdings: map<Text, Holding>, fees: real)

  datatype FillSide = Buy | Sell

  datatype PaperPosition = PaperPosition(symbol: Text, qty: real, notional: real, avg_price: real)

  const EMPTY: Book := Book(map[], 0.0)

  function HoldingOf(b: Book, symbol: Text): Holding {
    if symbol in b.holdings then b.holdings[symbol] else Holding(0.0, 0.0)
  }

  function Average(h: Holding): real {
    if h.qty > 0.0 then h.notional / h.qty else 0.0
  }

  function Bought(h: Holding, notional: real, qty: real): Holding {
    Holding(h.qty + qty, h.notional + notional)
  }

  /** Reduces at the current average cost, never below zero. */
  function Sold(h: Holding, qty: real): Holding {
    var sold := if qty < h.qty then qty else h.qty;
    var left := h.notional - sold * Average(h);
    Holding(h.qty - sold, if left < 0.0 then 0.0 else left)
  }

  function ApplyFill(b: Book, symbol: Text, side: FillSide, notional: real, qty: real, fee: real): Book {
    if notional <= 0.0 || qty <= 0.0 then b
    else
      var h := HoldingOf(b, symbol);
      var after := if side == Buy then Bought(h, notional, qty) else Sold(h, qty);
      Book(if side == Sell && after.qty <= 0.0 then b.holdings - {symbol} else b.holdings[symbol := after], b.fees + fee)
  }

  /** The open position of a symbol. */
  function Position(b: Book, symbol: Text): Option<PaperPosition> {
    var h := HoldingOf(b, symbol);
    if h.qty <= 0.0 then None else Some(PaperPosition(symbol, h.qty, h.notional, h.notional / h.qty))
  }

  function OpenNotional(b: Book): Text -> real {
    symbol => match Position(b, symbol) case None => 0.0 case Some(p) => p.notional
  }

  /** The cost basis of all open positions. */
  ghost function TotalNotional(b: Book): real {
    Over(b.holdings.Keys, OpenNotional(b))
  }

  /** Only open positions are kept, and none has a negative cost. */
  ghost predicate Sound(b: Book) {
    forall s :: s in b.holdings ==> b.holdings[s].qty > 0.0 && b.holdings[s].notional >= 0.0
  }

  // ---- one sale ----

  lemma Shrink(notional: real, qty: real, sold: real)
    requires qty > 0.0 && 0.0 <= sold <= qty && notional >= 0.0
    ensures 0.0 <= sold * (notional / qty) <= notional
    ensures sold < qty ==> (notional - sold * (notional / qty)) / (qty - sold) == notional / qty
    ensures sold == qty ==> sold * (notional / qty) == notional
  {
    var avg := notional / qty;
    assert avg >= 0.0 && avg * qty == notional;
    assert 0.0 <= sold * avg;
    assert (qty - sold) * avg >= 0.0;
    assert (qty - sold) * avg == qty * avg - sold * avg;
    if sold < qty {
      assert (notional - sold * avg) / (qty - sold) == ((qty - sold) * avg) / (qty - sold);
    }
  }

  /** A sale lowers the cost by the sold share, leaves the average price of what remains,
      and the floor at zero never cuts anything off. */
  lemma SaleKeepsAverage(h: Holding, qty: real)
    requires h.qty > 0.0 && h.notional >= 0.0 && qty > 0.0
    ensures var sold := if qty < h.qty then qty else h.qty;
      && Sold(h, qty).qty == h.qty - sold
      && Sold(h, qty).notional == h.notional - sold * Average(h)
      && (qty < h.qty ==> Average(Sold(h, qty)) == Average(h))
      && (qty >= h.qty ==> Sold(h, qty) == Holding(0.0, 0.0))
      && 0.0 <= Sold(h, qty).notional <= h.notional
  {
    Shrink(h.notional, h.qty, if qty < h.qty then qty else h.qty);
  }

  /** A purchase moves the average price between the old average and the price paid. */
  lemma PurchaseAverages(h: Holding, notional: real, qty: real)
    requires h.qty > 0.0 && notional > 0.0 && qty > 0.0
    ensures var before, paid, after := Average(h), notional / qty, Average(Bought(h, notional, qty));
      if before <= paid then before <= after <= paid else paid <= after <= before
  {
    var before, paid := Average(h), notional / qty;
    assert before * h.qty == h.notional && paid * qty == notional;
    Mixed(before, paid, h.qty, qty);
    Mixed(paid, before, qty, h.qty);
  }

  lemma Mixed(x: real, y: real, p: real, q: real)
    requires p > 0.0 && q > 0.0
    ensures x <= y ==> x <= (x * p + y * q) / (p + q) <= y
  {
    if x <= y {
      var m := (x * p + y * q) / (p + q);
      assert m * (p + q) == x * p + y * q;
      assert (y - x) * q >= 0.0 && (y - x) * p >= 0.0;
      assert x * p + y * q - x * (p + q) == (y - x) * q;
      assert y * (p + q) - (x * p + y * q) == (y - x) * p;
      Divide(m, x, y, p + q);
    }
  }

  lemma Divide(m: real, x: real, y: real, d: real)
    requires d > 0.0 && x * d <= m * d <= y * d
    ensures x <= m <= y
  {
    Signs(m - x, d);
    Signs(y - m, d);
    assert (m - x) * d == m * d - x * d && (y - m) * d == y * d - m * d;
  }

  lemma Signs(a: real, d: real)
    requires d > 0.0
    ensures a < 0.0 ==> a * d < 0.0
  {
  }

  // ---- the book ----

  lemma TotalChanged(b: Book, symbol: Text, holdings: map<Text, Holding>, fees: real)
    requires holdings == b.holdings - {symbol}
      || (symbol in holdings && holdings == b.holdings[symbol := holdings[symbol]])
    ensures var n := Book(holdings, fees);
      TotalNotional(n) == TotalNotional(b) - OpenNotional(b)(symbol) + OpenNotional(n)(symbol)
  {
    hide Over;
    var n := Book(holdings, fees);
    var rest := b.holdings.Keys - {symbol};
    assert n.holdings.Keys - {symbol} == rest;
    TotalWithout(b, symbol);
    TotalWithout(n, symbol);
    Same(rest, OpenNotional(b), OpenNotional(n));
  }

  lemma TotalWithout(b: Book, symbol: Text)
    ensures TotalNotional(b) == Over(b.holdings.Keys - {symbol}, OpenNotional(b)) + OpenNotional(b)(symbol)
  {
    if symbol in b.holdings {
      Split(b.holdings.Keys, OpenNotional(b), symbol);
    } else {
      assert b.holdings.Keys - {symbol} == b.holdings.Keys;
    }
  }

  /** A purchase keeps the book sound and adds exactly its funds to the total cost. */
  lemma PurchaseKeeps(b: Book, symbol: Text, notional: real, qty: real, fee: real)
    requires Sound(b) && notional > 0.0 && qty > 0.0
    ensures var n := ApplyFill(b, symbol, Buy, notional, qty, fee);
      Sound(n) && TotalNotional(n) == TotalNotional(b) + notional
  {
    hide TotalNotional, Average;
    var n := ApplyFill(b, symbol, Buy, notional, qty, fee);
    TotalChanged(b, symbol, n.holdings, n.fees);
  }

  function SoldCost(h: Holding, qty: real): real {
    (if qty < h.qty then qty else h.qty) * Average(h)
  }

  /** A sale keeps the book sound and takes the sold share at average cost off the total. */
  lemma SaleKeeps(b: Book, symbol: Text, notional: real, qty: real, fee: real)
    requires Sound(b) && notional > 0.0 && qty > 0.0
    ensures var n := ApplyFill(b, symbol, Sell, notional, qty, fee);
      Sound(n) && TotalNotional(n) == TotalNotional(b) - SoldCost(HoldingOf(b, symbol), qty)
  {
    hide TotalNotional, Average, Sold;
    var h := HoldingOf(b, symbol);
    SoldParts(h, qty);
    var n := ApplyFill(b, symbol, Sell, notional, qty, fee);
    TotalChanged(b, symbol, n.holdings, n.fees);
  }

  lemma SoldParts(h: Holding, qty: real)
    requires (h.qty > 0.0 && h.notional >= 0.0) || h == Holding(0.0, 0.0)
    requires qty > 0.0
    ensures Sold(h, qty).notional == h.notional - SoldCost(h, qty)
    ensures Sold(h, qty).notional >= 0.0
    ensures Sold(h, qty).qty <= 0.0 ==> Sold(h, qty).notional == 0.0
  {
    hide Average;
    if h.qty > 0.0 {
      SaleKeepsAverage(h, qty);
    } else {
      NothingToSell(h, qty);
    }
  }

  lemma NothingToSell(h: Holding, qty: real)
    requires h == Holding(0.0, 0.0) && qty > 0.0
    ensures Sold(h, qty) == Holding(0.0, 0.0) && Average(h) == 0.0
  {
  }

  lemma TotalNonNegative(b: Book)
    requires Sound(b)
    ensures TotalNotional(b) >= 0.0
  {
    NonNegative(b.holdings.Keys, OpenNotional(b));
  }

  lemma SaleCostNonNegative(h: Holding, qty: real)
    requires h.qty >= 0.0 && h.notional >= 0.0 && qty > 0.0
    ensures SoldCost(h, qty) >= 0.0
  {
    if h.qty > 0.0 {
      Shrink(h.notional, h.qty, if qty < h.qty then qty else h.qty);
    }
  }

  // ---- whole runs ----

  datatype Trade = Trade(symbol: Text, side: FillSide, notional: real, qty: real, fee: real)

  function Apply(b: Book, t: Trade): Book {
    ApplyFill(b, t.symbol, t.side, t.notional, t.qty, t.fee)
  }

  function Run(b: Book, ts: seq<Trade>): Book {
    if ts == [] then b else Apply(Run(b, ts[..|ts| - 1]), ts[|ts| - 1])
  }

  /** Whether a fill is booked at all. */
  predicate Counts(t: Trade) { t.notional > 0.0 && t.qty > 0.0 }

  function Spent(ts: seq<Trade>): real {
    if ts == [] then 0.0
    else
      var t := ts[|ts| - 1];
      Spent(ts[..|ts| - 1]) + if Counts(t) && t.side == Buy then t.notional else 0.0
  }

  /** What is held of a symbol by the plain rule: purchases add, sales take what is there. */
  function Held(ts: seq<Trade>, symbol: Text): real {
    if ts == [] then 0.0
    else
      var before, t := Held(ts[..|ts| - 1], symbol), ts[|ts| - 1];
      if t.symbol != symbol || !Counts(t) then before
      else if t.side == Buy then before + t.qty
      else if t.qty < before then before - t.qty
      else 0.0
  }

  /** Over every run of fills the cost basis stays between zero and what was spent, and
      equals it while nothing was sold. */
  lemma {:induction false} CostBounded(ts: seq<Trade>)
    ensures Sound(Run(EMPTY, ts))
    ensures 0.0 <= TotalNotional(Run(EMPTY, ts)) <= Spent(ts)
    ensures (forall t :: t in ts ==> t.side == Buy) ==> TotalNotional(Run(EMPTY, ts)) == Spent(ts)
  {
    hide TotalNotional, ApplyFill, SoldCost;
    if ts == [] {
      EmptyTotal();
    } else {
      hide Sound, HoldingOf;
      var front, t := ts[..|ts| - 1], ts[|ts| - 1];
      CostBounded(front);
      var b := Run(EMPTY, front);
      assert Run(EMPTY, ts) == Apply(b, t);
      Uncounted(b, t);
      if Counts(t) {
        if t.side == Buy {
          PurchaseKeeps(b, t.symbol, t.notional, t.qty, t.fee);
        } else {
          SaleKeeps(b, t.symbol, t.notional, t.qty, t.fee);
          HoldingSound(b, t.symbol);
          SaleCostNonNegative(HoldingOf(b, t.symbol), t.qty);
        }
      }
      TotalNonNegative(Run(EMPTY, ts));
    }
  }

  lemma HoldingSound(b: Book, symbol: Text)
    requires Sound(b)
    ensures HoldingOf(b, symbol).qty >= 0.0 && HoldingOf(b, symbol).notional >= 0.0
  {
  }

  lemma EmptyTotal()
    ensures TotalNotional(EMPTY) == 0.0
  {
  }

  lemma Uncounted(b: Book, t: Trade)
    ensures !Counts(t) ==> Apply(b, t) == b
  {
  }

  /** The quantity of every symbol follows the plain rule, and closed positions vanish. */
  lemma {:induction false} QuantityHeld(ts: seq<Trade>, symbol: Text)
    ensures HoldingOf(Run(EMPTY, ts), symbol).qty == Held(ts, symbol)
    ensures Position(Run(EMPTY, ts), symbol).Some? <==> Held(ts, symbol) > 0.0
    ensures symbol in Run(EMPTY, ts).holdings <==> Held(ts, symbol) > 0.0
  {
    if ts != [] {
      QuantityHeld(ts[..|ts| - 1], symbol);
    }
  }

  /** Fees add up over the trades that count, of either side. */
  lemma {:induction false} FeesHeld(b: Book, ts: seq<Trade>, t: Trade)
    ensures Run(b, []).fees == b.fees
    ensures Run(b, ts + [t]).fees == Run(b, ts).fees + if t.notional > 0.0 && t.qty > 0.0 then t.fee else 0.0
  {
    assert (ts + [t])[..|ts|] == ts;
  }

  /** A position is open exactly when something is held; it costs its quantity at its
      average price. */
  lemma PositionTells(b: Book, symbol: Text)
    ensures var h := HoldingOf(b, symbol);
      && (Position(b, symbol).Some? <==> symbol in b.holdings && h.qty > 0.0)
      && (Position(b, symbol).Some? ==>
            var p := Position(b, symbol).value;
            p.symbol == symbol && p.qty == h.qty && p.notional == h.notional == p.avg_price * p.qty)
  {
    var h := HoldingOf(b, symbol);
    if h.qty > 0.0 {
      assert h.notional / h.qty * h.qty == h.notional;
    }
  }

  /** One fill changes no other symbol. */
  lemma OthersUntouched(b: Book, symbol: Text, side: FillSide, notional: real, qty: real, fee: real, other: Text)
    requires other != symbol
    ensures HoldingOf(ApplyFill(b, symbol, side, notional, qty, fee), other) == HoldingOf(b, other)
  {
    hide Bought, Sold;
  }

  /** A purchase adds quantity and funds; a sale takes the quantity, as far as it is there. */
  lemma FillMoves(b: Book, symbol: Text, side: FillSide, notional: real, qty: real, fee: real)
    requires Sound(b) && notional > 0.0 && qty > 0.0
    ensures var (h, after) := (HoldingOf(b, symbol), HoldingOf(ApplyFill(b, symbol, side, notional, qty, fee), symbol));
      && (side == Buy ==> after == Holding(h.qty + qty, h.notional + notional))
      && (side == Sell ==> after.qty == (if qty < h.qty then h.qty - qty else 0.0))
  {
    hide Average;
  }
}
