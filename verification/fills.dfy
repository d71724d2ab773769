/** The buffer object that collects the fills of each order until it is settled. */
module FillBuffers {
  import opened Texts
  import opened Options
  import Sums
  import L = FillLedgers

  class MyOrderFillBuffer {
    var byOrder: L.Buffer

    constructor ()
      ensures byOrder == map[]
    {
      byOrder := map[];
    }

    /** The new fill, or nothing for a duplicate or a message that is no execution. */
    method Ingest(m: L.Message) returns (r: Option<L.FillEvent>)
      modifies this
      ensures byOrder == L.Ingest(old(byOrder), m).0 && r == L.Ingest(old(byOrder), m).1
    {
      var fill := L.ParseMyOrder(m);
      if fill.None? {
        return None;
      }
      var order := fill.value.client_order_id;
      var trades := if order in byOrder then byOrder[order] else [];
      if L.Has(trades, L.TradeKey(m)) {
        return None;
      }
      byOrder := byOrder[order := trades + [(L.TradeKey(m), fill.value)]];
      r := fill;
    }

    method Fills(order: Text) returns (fs: seq<L.FillEvent>)
      ensures fs == L.Fills(byOrder, order)
    {
      fs := L.Fills(byOrder, order);
    }

    method FilledNotional(order: Text) returns (sum: real)
      ensures sum == L.FilledNotional(byOrder, order)
    {
      var fs := Fills(order);
      sum := 0.0;
      for i := 0 to |fs|
        invariant sum == Sums.Seq(L.Notionals(fs)[..i])
      {
        assert L.Notionals(fs)[..i + 1][..i] == L.Notionals(fs)[..i];
        sum := sum + fs[i].filled_notional;
      }
      assert L.Notionals(fs)[..|fs|] == L.Notionals(fs);
    }

    method Clear(order: Text)
      modifies this
      ensures byOrder == L.Apply(old(byOrder), L.Clear(order))
    {
      byOrder := byOrder - {order};
    }
  }
}
