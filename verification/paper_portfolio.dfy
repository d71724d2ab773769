/** The portfolio object of a paper run. */
module PaperPortfolios {
  import opened Texts
  import opened Options
  import opened Sums
  import B = PaperBooks

  class PaperPortfolio {
    var bySymbol: map<Text, B.Holding>
    var fees: real

    ghost function View(): B.Book
      reads this
    {
      B.Book(bySymbol, fees)
    }

    constructor ()
      ensures View() == B.EMPTY
    {
      bySymbol, fees := map[], 0.0;
    }

    method ApplyFill(symbol: Text, side: B.FillSide, notional: real, qty: real, fee: real)
      modifies this
      ensures View() == B.ApplyFill(old(View()), symbol, side, notional, qty, fee)
    {
      if notional <= 0.0 || qty <= 0.0 {
        return;
      }
      fees := fees + fee;
      var cur := if symbol in bySymbol then bySymbol[symbol] else B.Holding(0.0, 0.0);
      if side == B.Buy {
        bySymbol := bySymbol[symbol := B.Holding(cur.qty + qty, cur.notional + notional)];
        return;
      }
      var sold := if qty < cur.qty then qty else cur.qty;
      var avg := if cur.qty > 0.0 then cur.notional / cur.qty else 0.0;
      var remaining := cur.qty - sold;
      var left := cur.notional - sold * avg;
      assert avg == B.Average(cur);
      assert B.Sold(cur, qty) == B.Holding(remaining, if left < 0.0 then 0.0 else left);
      if remaining <= 0.0 {
        bySymbol := bySymbol - {symbol};
      } else {
        bySymbol := bySymbol[symbol := B.Holding(remaining, if left < 0.0 then 0.0 else left)];
      }
    }

    method Position(symbol: Text) returns (p: Option<B.PaperPosition>)
      ensures p == B.Position(View(), symbol)
    {
      if symbol !in bySymbol || bySymbol[symbol].qty <= 0.0 {
        return None;
      }
      var h := bySymbol[symbol];
      p := Some(B.PaperPosition(symbol, h.qty, h.notional, h.notional / h.qty));
    }

    /** Adds up the open positions in whatever order they come. */
    method TotalNotional() returns (total: real)
      ensures total == B.TotalNotional(View())
    {
      hide Over;
      var left := bySymbol.Keys;
      ghost var f := B.OpenNotional(View());
      total := 0.0;
      OverNothing(f);
      while left != {}
        invariant left <= bySymbol.Keys
        invariant total == Over(bySymbol.Keys - left, f)
        decreases |left|
      {
        var symbol :| symbol in left;
        ghost var done := bySymbol.Keys - left;
        Add(done, f, symbol);
        left := left - {symbol};
        assert bySymbol.Keys - left == done + {symbol};
        if bySymbol[symbol].qty > 0.0 {
          total := total + bySymbol[symbol].notional;
        }
      }
      assert bySymbol.Keys - left == bySymbol.Keys;
    }
  }
}
