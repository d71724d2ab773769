/** Rebuilding closed candles from trades. */
module Candles {
  import opened Texts
  import opened Sequences
  import opened Sorting
  import Sums

  datatype Timeframe = M1 | M5 | M15 | H1 | H4 | D1

  function Length(tf: Timeframe): (ms: int)
    ensures ms > 0
  {
    match tf
    case M1 => 60_000
    case M5 => 300_000
    case M15 => 900_000
    case H1 => 3_600_000
    case H4 => 14_400_000
    case D1 => 86_400_000
  }

  datatype Trade = Trade(event_time_ms: int, price: real, volume: real, seq_no: int)

  datatype Source = Reconstructed | Rest

  datatype Candle = Candle(
    symbol: Text, tf: Timeframe, open_time_ms: int, open: real, high: real, low: real, close: real,
    volume: real, acc_price: real, source: Source)

  function WindowStart(t: int, length: int): int
    requires length > 0
  {
    t / length * length
  }

  lemma Scaled(a: int, b: int, length: int)
    requires a < b && length > 0
    ensures a * length + length <= b * length
  {
    assert (b - a - 1) * length >= 0;
    assert (b - a - 1) * length == b * length - a * length - length;
  }

  lemma QuotientUnique(p: int, q: int, length: int, t: int)
    requires length > 0 && p * length <= t < p * length + length && q * length <= t < q * length + length
    ensures p == q
  {
    if p < q {
      Scaled(p, q, length);
    } else if q < p {
      Scaled(q, p, length);
    }
  }

  /** A window holds the times from its start up to, not including, its end, and starts
      at a multiple of its length. */
  lemma WindowHolds(t: int, length: int, w: int)
    requires length > 0
    ensures WindowStart(t, length) <= t < WindowStart(t, length) + length
    ensures WindowStart(t, length) == w <==> w <= t < w + length && w % length == 0
  {
    var q, p, r := t / length, w / length, WindowStart(t, length) / length;
    assert q * length <= t < q * length + length;
    assert r * length <= q * length < r * length + length;
    QuotientUnique(r, q, length, q * length);
    if w % length == 0 && w <= t < w + length {
      assert w == p * length;
      QuotientUnique(p, q, length, t);
    }
  }

  // ---- the specification ----

  predicate Closed(t: Trade, tf: Timeframe, asOfMs: int) {
    WindowStart(t.event_time_ms, Length(tf)) + Length(tf) <= asOfMs
  }

  function InWindow(tf: Timeframe, w: int): Trade -> bool {
    (t: Trade) => WindowStart(t.event_time_ms, Length(tf)) == w
  }

  /** A closed window into which some trade falls. */
  predicate Listed(trades: seq<Trade>, tf: Timeframe, asOfMs: int, w: int) {
    w + Length(tf) <= asOfMs && exists t :: t in trades && InWindow(tf, w)(t)
  }

  /** Some candle opens at this time. */
  predicate Opens(out: seq<Candle>, w: int) {
    exists i :: 0 <= i < |out| && out[i].open_time_ms == w
  }

  /** The closed windows with trades, as they first occur. */
  function Windows(trades: seq<Trade>, tf: Timeframe, asOfMs: int): seq<int> {
    if trades == [] then []
    else
      var front, t := Windows(trades[..|trades| - 1], tf, asOfMs), trades[|trades| - 1];
      var w := WindowStart(t.event_time_ms, Length(tf));
      if Closed(t, tf, asOfMs) && w !in front then front + [w] else front
  }

  predicate Before(a: Trade, b: Trade) {
    a.event_time_ms < b.event_time_ms || (a.event_time_ms == b.event_time_ms && a.seq_no <= b.seq_no)
  }

  function High(ts: seq<Trade>): real
    requires ts != []
  {
    if |ts| == 1 then ts[0].price
    else
      var h, p := High(ts[..|ts| - 1]), ts[|ts| - 1].price;
      if p > h then p else h
  }

  function Low(ts: seq<Trade>): real
    requires ts != []
  {
    if |ts| == 1 then ts[0].price
    else
      var l, p := Low(ts[..|ts| - 1]), ts[|ts| - 1].price;
      if p < l then p else l
  }

  function Volume(ts: seq<Trade>): real {
    if ts == [] then 0.0 else Volume(ts[..|ts| - 1]) + ts[|ts| - 1].volume
  }

  /** What a trade moved: price times volume. */
  function Turnover(t: Trade): real {
    t.price * t.volume
  }

  function AccPrice(ts: seq<Trade>): real {
    if ts == [] then 0.0 else AccPrice(ts[..|ts| - 1]) + Turnover(ts[|ts| - 1])
  }

  /** The candle of trades in time order. */
  function CandleOf(symbol: Text, tf: Timeframe, w: int, sorted: seq<Trade>): Candle
    requires sorted != []
  {
    Candle(symbol, tf, w, sorted[0].price, High(sorted), Low(sorted), sorted[|sorted| - 1].price,
           Volume(sorted), AccPrice(sorted), Reconstructed)
  }

  function WindowTrades(trades: seq<Trade>, tf: Timeframe, w: int): seq<Trade> {
    Sort(Filter(trades, InWindow(tf, w)), Before)
  }

  ghost predicate IsReconstruction(symbol: Text, trades: seq<Trade>, tf: Timeframe, asOfMs: int, out: seq<Candle>) {
    var ws := Sort(Windows(trades, tf, asOfMs), AtMost);
    && |out| == |ws|
    && forall k :: 0 <= k < |ws| ==>
         WindowTrades(trades, tf, ws[k]) != [] && out[k] == CandleOf(symbol, tf, ws[k], WindowTrades(trades, tf, ws[k]))
  }

  // ---- the reconstruction ----

  method MakeCandle(symbol: Text, tf: Timeframe, w: int, ts: seq<Trade>) returns (c: Candle)
    requires ts != []
    ensures Sort(ts, Before) != [] && c == CandleOf(symbol, tf, w, Sort(ts, Before))
  {
    hide Before, Sort, High, Low, Volume, AccPrice;
    BeforeTotal();
    SortCorrect(ts, Before);
    NoAmounts();
    var sorted := Sort(ts, Before);
    var high, low, volume, accPrice := sorted[0].price, sorted[0].price, 0.0, 0.0;
    for i := 0 to |sorted|
      invariant i == 0 ==> high == sorted[0].price && low == sorted[0].price
      invariant i > 0 ==> high == High(sorted[..i]) && low == Low(sorted[..i])
      invariant volume == Volume(sorted[..i]) && accPrice == AccPrice(sorted[..i])
    {
      var t := sorted[i];
      FoldNext(sorted[..i], t);
      assert sorted[..i] + [t] == sorted[..i + 1];
      if t.price > high {
        high := t.price;
      }
      if t.price < low {
        low := t.price;
      }
      volume := volume + t.volume;
      accPrice := accPrice + t.price * t.volume;
    }
    assert sorted[..|sorted|] == sorted;
    c := Candle(symbol, tf, w, sorted[0].price, high, low, sorted[|sorted| - 1].price, volume, accPrice, Reconstructed);
  }

  lemma NoAmounts()
    ensures Volume([]) == 0.0 == AccPrice([])
  {
  }

  /** How one more trade changes the extremes and the sums. */
  lemma FoldNext(ts: seq<Trade>, t: Trade)
    ensures Volume(ts + [t]) == Volume(ts) + t.volume && AccPrice(ts + [t]) == AccPrice(ts) + t.price * t.volume
    ensures ts == [] ==> High(ts + [t]) == Low(ts + [t]) == t.price
    ensures ts != [] ==> High(ts + [t]) == (if t.price > High(ts) then t.price else High(ts))
    ensures ts != [] ==> Low(ts + [t]) == (if t.price < Low(ts) then t.price else Low(ts))
  {
    assert (ts + [t])[..|ts|] == ts;
  }

  lemma BeforeTotal()
    ensures TotalPreorder(Before)
  {
  }

  /** The trades per closed window, and the windows as they first occur. */
  method Group(trades: seq<Trade>, tf: Timeframe, asOfMs: int) returns (byWindow: map<int, seq<Trade>>, keys: seq<int>)
    ensures keys == Windows(trades, tf, asOfMs)
    ensures forall w :: w in keys <==> w in byWindow
    ensures forall w :: w in byWindow ==> byWindow[w] == Filter(trades, InWindow(tf, w)) && byWindow[w] != []
  {
    hide Closed, WindowStart;
    byWindow, keys := map[], [];
    for i := 0 to |trades|
      invariant keys == Windows(trades[..i], tf, asOfMs)
      invariant forall w :: w in keys <==> w in byWindow
      invariant forall w :: w in byWindow ==> byWindow[w] == Filter(trades[..i], InWindow(tf, w)) && byWindow[w] != []
    {
      var t := trades[i];
      var w := WindowStart(t.event_time_ms, Length(tf));
      assert trades[..i + 1] == trades[..i] + [t];
      ghost var before := byWindow;
      GroupNext(trades[..i], t, tf, asOfMs, before);
      if Closed(t, tf, asOfMs) {
        if w in byWindow {
          byWindow := byWindow[w := byWindow[w] + [t]];
        } else {
          byWindow := byWindow[w := [t]];
          keys := keys + [w];
        }
      }
    }
    assert trades[..|trades|] == trades;
  }

  /** How one more trade changes the windows and what is in them. */
  lemma GroupNext(trades: seq<Trade>, t: Trade, tf: Timeframe, asOfMs: int, byWindow: map<int, seq<Trade>>)
    requires forall w :: w in Windows(trades, tf, asOfMs) <==> w in byWindow
    ensures var w := WindowStart(t.event_time_ms, Length(tf));
      && Windows(trades + [t], tf, asOfMs)
         == Windows(trades, tf, asOfMs) + (if Closed(t, tf, asOfMs) && w !in byWindow then [w] else [])
      && (Closed(t, tf, asOfMs) && w !in byWindow ==> Filter(trades, InWindow(tf, w)) == [])
      && (forall v :: Filter(trades + [t], InWindow(tf, v)) == Filter(trades, InWindow(tf, v)) + if v == w then [t] else [])
      && (!Closed(t, tf, asOfMs) ==> w !in byWindow)
  {
    hide Closed, WindowStart;
    assert (trades + [t])[..|trades + [t]| - 1] == trades;
    var w := WindowStart(t.event_time_ms, Length(tf));
    forall v ensures Filter(trades + [t], InWindow(tf, v)) == Filter(trades, InWindow(tf, v)) + if v == w then [t] else [] {
      FilterSnoc(trades, t, InWindow(tf, v));
    }
    WindowsAre(trades, tf, asOfMs, w);
    ClosedByWindow(t, tf, asOfMs);
    if w !in byWindow && Closed(t, tf, asOfMs) {
      forall x | x in trades ensures !InWindow(tf, w)(x) {
        ClosedByWindow(x, tf, asOfMs);
      }
      FilterNone(trades, InWindow(tf, w));
    }
  }

  lemma ClosedByWindow(t: Trade, tf: Timeframe, asOfMs: int)
    ensures Closed(t, tf, asOfMs) <==> WindowStart(t.event_time_ms, Length(tf)) + Length(tf) <= asOfMs
  {
  }

  lemma ListedNext(front: seq<Trade>, t: Trade, tf: Timeframe, asOfMs: int, w: int)
    ensures Listed(front + [t], tf, asOfMs, w)
      <==> Listed(front, tf, asOfMs, w) || (Closed(t, tf, asOfMs) && WindowStart(t.event_time_ms, Length(tf)) == w)
  {
    assert forall x :: x in front + [t] <==> x in front || x == t;
    assert InWindow(tf, w)(t) <==> WindowStart(t.event_time_ms, Length(tf)) == w;
  }

  /** A window is listed exactly when it is closed and some trade falls into it. */
  lemma {:induction false} WindowsAre(trades: seq<Trade>, tf: Timeframe, asOfMs: int, w: int)
    ensures w in Windows(trades, tf, asOfMs) <==> Listed(trades, tf, asOfMs, w)
    ensures var ws := Windows(trades, tf, asOfMs); forall i, j :: 0 <= i < j < |ws| ==> ws[i] != ws[j]
  {
    if trades != [] {
      var front, t := trades[..|trades| - 1], trades[|trades| - 1];
      WindowsAre(front, tf, asOfMs, w);
      assert trades == front + [t];
      ListedNext(front, t, tf, asOfMs, w);
    }
  }

  method ReconstructCandles(symbol: Text, trades: seq<Trade>, tf: Timeframe, asOfMs: int) returns (out: seq<Candle>)
    ensures IsReconstruction(symbol, trades, tf, asOfMs, out)
  {
    hide Windows, CandleOf, InWindow, AtMost;
    var byWindow, keys := Group(trades, tf, asOfMs);
    AtMostTotal();
    SortMembers(keys, AtMost);
    var ws := Sort(keys, AtMost);
    out := [];
    for k := 0 to |ws|
      invariant |out| == k
      invariant forall i :: 0 <= i < k ==>
        WindowTrades(trades, tf, ws[i]) != [] && out[i] == CandleOf(symbol, tf, ws[i], WindowTrades(trades, tf, ws[i]))
    {
      assert ws[k] in ws;
      var c := MakeCandle(symbol, tf, ws[k], byWindow[ws[k]]);
      out := out + [c];
    }
  }

  // ---- what a reconstruction promises ----

  ghost predicate Increasing(s: seq<int>) {
    forall i, j :: 0 <= i < j < |s| ==> s[i] < s[j]
  }

  function SortedWindows(trades: seq<Trade>, tf: Timeframe, asOfMs: int): seq<int> {
    Sort(Windows(trades, tf, asOfMs), AtMost)
  }

  lemma SortedWindowsAre(trades: seq<Trade>, tf: Timeframe, asOfMs: int)
    ensures Increasing(SortedWindows(trades, tf, asOfMs))
    ensures forall w :: w in SortedWindows(trades, tf, asOfMs) <==> Listed(trades, tf, asOfMs, w)
  {
    hide Windows, InWindow;
    var ws, s := Windows(trades, tf, asOfMs), SortedWindows(trades, tf, asOfMs);
    AtMostTotal();
    SortCorrect(ws, AtMost);
    SortMembers(ws, AtMost);
    forall w ensures w in s <==> Listed(trades, tf, asOfMs, w) {
      WindowsAre(trades, tf, asOfMs, w);
    }
    WindowsAre(trades, tf, asOfMs, 0);
    DistinctIncreasing(ws, s);
  }

  lemma DistinctIncreasing(ws: seq<int>, s: seq<int>)
    requires multiset(ws) == multiset(s) && Sorted(s, AtMost)
    requires forall i, j :: 0 <= i < j < |ws| ==> ws[i] != ws[j]
    ensures Increasing(s)
  {
    DistinctKept(ws, s);
    forall i, j | 0 <= i < j < |s| ensures s[i] < s[j] {
      assert AtMost(s[i], s[j]);
    }
  }

  /** Candles come in strictly increasing windows, all closed and aligned. */
  lemma CandlesInOrder(symbol: Text, trades: seq<Trade>, tf: Timeframe, asOfMs: int, out: seq<Candle>)
    requires IsReconstruction(symbol, trades, tf, asOfMs, out)
    ensures forall i, j :: 0 <= i < j < |out| ==> out[i].open_time_ms < out[j].open_time_ms
    ensures forall i :: 0 <= i < |out| ==>
      out[i].open_time_ms + Length(tf) <= asOfMs && out[i].open_time_ms % Length(tf) == 0
    ensures forall w :: Opens(out, w) <==> Listed(trades, tf, asOfMs, w)
  {
    hide Windows, WindowTrades, High, Low, Volume, AccPrice;
    SortedWindowsAre(trades, tf, asOfMs);
    var ws := SortedWindows(trades, tf, asOfMs);
    assert forall i :: 0 <= i < |out| ==> out[i].open_time_ms == ws[i];
    forall i | 0 <= i < |out|
      ensures out[i].open_time_ms + Length(tf) <= asOfMs && out[i].open_time_ms % Length(tf) == 0
    {
      assert ws[i] in ws && out[i].open_time_ms == ws[i];
      var t :| t in trades && InWindow(tf, ws[i])(t);
      WindowHolds(t.event_time_ms, Length(tf), ws[i]);
    }
    forall w ensures Opens(out, w) <==> w in ws {
      if w in ws {
        var i :| 0 <= i < |ws| && ws[i] == w;
        assert out[i].open_time_ms == w;
      }
    }
  }

  lemma {:induction false} PricesBounded(ts: seq<Trade>)
    requires ts != []
    ensures forall t :: t in ts ==> Low(ts) <= t.price <= High(ts)
    ensures exists t :: t in ts && t.price == High(ts)
    ensures exists t :: t in ts && t.price == Low(ts)
  {
    var front, t := ts[..|ts| - 1], ts[|ts| - 1];
    assert ts == front + [t] && t in ts;
    if |ts| > 1 {
      PricesBounded(front);
      var h :| h in front && h.price == High(front);
      var l :| l in front && l.price == Low(front);
      assert h in ts && l in ts;
    } else {
      assert ts[0] == t;
    }
  }

  /** Every candle spans its trades: high and low are the extreme prices of its window,
      and open and close lie between them. */
  lemma CandleSpans(symbol: Text, trades: seq<Trade>, tf: Timeframe, asOfMs: int, out: seq<Candle>, i: nat)
    requires IsReconstruction(symbol, trades, tf, asOfMs, out) && i < |out|
    ensures var c := out[i];
      && c.low <= c.open <= c.high && c.low <= c.close <= c.high
      && (forall t :: t in trades && InWindow(tf, c.open_time_ms)(t) ==> c.low <= t.price <= c.high)
      && (exists t :: t in trades && InWindow(tf, c.open_time_ms)(t) && t.price == c.high)
      && (exists t :: t in trades && InWindow(tf, c.open_time_ms)(t) && t.price == c.low)
  {
    hide Windows, High, Low, Volume, AccPrice, Before, InWindow, Sort;
    var w := out[i].open_time_ms;
    var ts := WindowTrades(trades, tf, w);
    BeforeTotal();
    SortMembers(Filter(trades, InWindow(tf, w)), Before);
    PricesBounded(ts);
    assert ts[0] in ts && ts[|ts| - 1] in ts;
  }

  /** The trade is in the window and has the least time, and the least number at that time. */
  ghost predicate Earliest(trades: seq<Trade>, tf: Timeframe, w: int, t: Trade) {
    && t in trades && InWindow(tf, w)(t)
    && forall u :: u in trades && InWindow(tf, w)(u) ==>
         t.event_time_ms <= u.event_time_ms && (t.event_time_ms == u.event_time_ms ==> t.seq_no <= u.seq_no)
  }

  ghost predicate Latest(trades: seq<Trade>, tf: Timeframe, w: int, t: Trade) {
    && t in trades && InWindow(tf, w)(t)
    && forall u :: u in trades && InWindow(tf, w)(u) ==>
         u.event_time_ms <= t.event_time_ms && (u.event_time_ms == t.event_time_ms ==> u.seq_no <= t.seq_no)
  }

  /** A candle opens at the price of its window's earliest trade and closes at that of the
      latest, by time and then number. */
  lemma CandleOpensAndCloses(symbol: Text, trades: seq<Trade>, tf: Timeframe, asOfMs: int, out: seq<Candle>, i: nat)
    requires IsReconstruction(symbol, trades, tf, asOfMs, out) && i < |out|
    ensures exists t :: Earliest(trades, tf, out[i].open_time_ms, t) && t.price == out[i].open
    ensures exists t :: Latest(trades, tf, out[i].open_time_ms, t) && t.price == out[i].close
  {
    hide Windows, High, Low, Volume, AccPrice, InWindow, Sort;
    var w := out[i].open_time_ms;
    var ts := WindowTrades(trades, tf, w);
    BeforeTotal();
    SortMembers(Filter(trades, InWindow(tf, w)), Before);
    SortCorrect(Filter(trades, InWindow(tf, w)), Before);
    var first, last := ts[0], ts[|ts| - 1];
    forall u | u in trades && InWindow(tf, w)(u) ensures Before(first, u) && Before(u, last) {
      assert u in ts;
      var k :| 0 <= k < |ts| && ts[k] == u;
    }
    assert first in ts && last in ts;
    assert Earliest(trades, tf, w, first) && Latest(trades, tf, w, last);
  }

  /** The places of the trades from one time up to another. */
  ghost function Between(trades: seq<Trade>, from: int, to: int): set<nat> {
    set i: nat | i < |trades| && from <= trades[i].event_time_ms < to
  }

  ghost function VolumeAt(trades: seq<Trade>): nat -> real {
    (i: nat) => if i < |trades| then trades[i].volume else 0.0
  }

  ghost function MovedAt(trades: seq<Trade>): nat -> real {
    (i: nat) => if i < |trades| then trades[i].price * trades[i].volume else 0.0
  }

  /** A candle counts the volume of the trades from its opening time until its end, and the
      sum of their prices times volumes. */
  lemma CandleCounts(symbol: Text, trades: seq<Trade>, tf: Timeframe, asOfMs: int, out: seq<Candle>, i: nat)
    requires IsReconstruction(symbol, trades, tf, asOfMs, out) && i < |out|
    ensures var c := out[i];
      var places := Between(trades, c.open_time_ms, c.open_time_ms + Length(tf));
      && c.volume == Sums.Over(places, VolumeAt(trades)) && c.acc_price == Sums.Over(places, MovedAt(trades))
      && (c.symbol, c.tf, c.source) == (symbol, tf, Reconstructed)
  {
    hide Windows, High, Low, Volume, AccPrice, InWindow, Sort, Sums.Over, Between, WindowTrades;
    CandlesInOrder(symbol, trades, tf, asOfMs, out);
    var w := out[i].open_time_ms;
    WindowAmounts(trades, tf, w);
    CountedAt(trades, tf, w);
  }

  lemma {:induction false} CountedAt(trades: seq<Trade>, tf: Timeframe, w: int)
    requires w % Length(tf) == 0
    ensures Volume(Filter(trades, InWindow(tf, w))) == Sums.Over(Between(trades, w, w + Length(tf)), VolumeAt(trades))
    ensures AccPrice(Filter(trades, InWindow(tf, w))) == Sums.Over(Between(trades, w, w + Length(tf)), MovedAt(trades))
  {
    hide Volume, AccPrice, InWindow, Sums.Over, Filter, Between, Turnover, Length;
    var to := w + Length(tf);
    BetweenNext(trades, w, to);
    if trades == [] {
      NothingFiltered(InWindow(tf, w));
    } else {
      var n: nat := |trades| - 1;
      var front, t := trades[..n], trades[n];
      CountedAt(front, tf, w);
      assert trades == front + [t];
      AddOne(front, t, InWindow(tf, w));
      InWindowBetween(t, tf, w);
    }
  }

  lemma InWindowBetween(t: Trade, tf: Timeframe, w: int)
    requires w % Length(tf) == 0
    ensures InWindow(tf, w)(t) <==> w <= t.event_time_ms < w + Length(tf)
    ensures Turnover(t) == t.price * t.volume
  {
    WindowHolds(t.event_time_ms, Length(tf), w);
  }

  lemma BetweenNext(trades: seq<Trade>, from: int, to: int)
    ensures trades == [] ==>
      Sums.Over(Between(trades, from, to), VolumeAt(trades)) == 0.0 == Sums.Over(Between(trades, from, to), MovedAt(trades))
    ensures trades != [] ==>
      var (front, t) := (trades[..|trades| - 1], trades[|trades| - 1]);
      var (before, now) := (Between(front, from, to), Between(trades, from, to));
      && Sums.Over(now, VolumeAt(trades))
         == Sums.Over(before, VolumeAt(front)) + (if from <= t.event_time_ms < to then t.volume else 0.0)
      && Sums.Over(now, MovedAt(trades))
         == Sums.Over(before, MovedAt(front)) + (if from <= t.event_time_ms < to then t.price * t.volume else 0.0)
  {
    hide Sums.Over;
    var v, m := VolumeAt(trades), MovedAt(trades);
    if trades == [] {
      Sums.OverNothing(v);
      Sums.OverNothing(m);
      assert Between(trades, from, to) == {};
    } else {
      var n: nat := |trades| - 1;
      var front, t := trades[..n], trades[n];
      var before := Between(front, from, to);
      Sums.Same(before, VolumeAt(front), v);
      Sums.Same(before, MovedAt(front), m);
      if from <= t.event_time_ms < to {
        assert Between(trades, from, to) == before + {n};
        Sums.Add<nat>(before, v, n);
        Sums.Add<nat>(before, m, n);
      } else {
        assert Between(trades, from, to) == before;
      }
    }
  }

  /** From a minute of milliseconds up to a day. */
  lemma LengthsFit()
    ensures Length(M1) == 60 * 1000 && Length(M5) == 5 * Length(M1) && Length(M15) == 3 * Length(M5)
    ensures Length(H1) == 60 * Length(M1) && Length(H4) == 4 * Length(H1) && Length(D1) == 24 * Length(H1)
  {
  }

  // ---- no repaint, no order ----

  lemma {:induction false} IncreasingPrefix(s: seq<int>, t: seq<int>, bound: int)
    requires Increasing(s) && Increasing(t)
    requires forall w :: w in s <==> w in t && w <= bound
    ensures s <= t
  {
    if s != [] {
      var n := |s| - 1;
      var front := s[..n];
      assert s == front + [s[n]];
      assert s[n] in s && s[n] in t;
      forall w ensures w in front <==> w in t && w <= s[n] - 1 {
        if w in front {
          var i :| 0 <= i < n && front[i] == w;
          assert s[i] < s[n] && s[i] in s;
        }
        if w in t && w <= s[n] - 1 {
          assert w in s;
        }
      }
      IncreasingPrefix(front, t, s[n] - 1);
      NextInPrefix(s, t, bound);
    }
  }

  lemma NextInPrefix(s: seq<int>, t: seq<int>, bound: int)
    requires s != [] && Increasing(s) && Increasing(t) && s[..|s| - 1] <= t
    requires forall w :: w in s <==> w in t && w <= bound
    ensures s <= t
  {
    var n := |s| - 1;
    assert s[n] in s;
    var k :| 0 <= k < |t| && t[k] == s[n];
    assert forall i :: 0 <= i < n ==> s[..n][i] == s[i];
    assert forall i :: 0 <= i < n ==> t[i] == s[i];
    NotSkipped(s, t, n, k, bound);
  }

  lemma NotSkipped(s: seq<int>, t: seq<int>, n: nat, k: nat, bound: int)
    requires n == |s| - 1 && k < |t| && t[k] == s[n] && n <= |t| && Increasing(s) && Increasing(t)
    requires forall i :: 0 <= i < n ==> t[i] == s[i]
    requires forall w :: w in s <==> w in t && w <= bound
    ensures k == n
  {
    assert s[n] in s && t[k] in t;
    assert n < |t| ==> t[n] in t;
    assert n < |t| && t[n] <= bound ==> t[n] in s;
  }

  /** A trade is known at a time when it happened before it. */
  function KnownBefore(asOfMs: int): Trade -> bool {
    (t: Trade) => t.event_time_ms < asOfMs
  }

  lemma ClosedKnown(a: seq<Trade>, b: seq<Trade>, tf: Timeframe, asOfMs: int, w: int)
    requires Filter(a, KnownBefore(asOfMs)) == Filter(b, KnownBefore(asOfMs)) && w + Length(tf) <= asOfMs
    ensures Filter(a, InWindow(tf, w)) == Filter(b, InWindow(tf, w))
  {
    WindowKnown(a, tf, asOfMs, w);
    WindowKnown(b, tf, asOfMs, w);
  }

  lemma WindowKnown(a: seq<Trade>, tf: Timeframe, asOfMs: int, w: int)
    requires w + Length(tf) <= asOfMs
    ensures Filter(Filter(a, KnownBefore(asOfMs)), InWindow(tf, w)) == Filter(a, InWindow(tf, w))
  {
    var both := (t: Trade) => KnownBefore(asOfMs)(t) && InWindow(tf, w)(t);
    FilterFilter(a, KnownBefore(asOfMs), InWindow(tf, w));
    forall t | t in a ensures both(t) == InWindow(tf, w)(t) {
      WindowHolds(t.event_time_ms, Length(tf), w);
    }
    FilterSame(a, both, InWindow(tf, w));
  }

  /** No repaint: with any later trades mixed in, the candles of an earlier time are the
      first candles of the later one. */
  lemma NoRepaint(symbol: Text, a: seq<Trade>, b: seq<Trade>, tf: Timeframe, asOf1: int, asOf2: int,
                  early: seq<Candle>, late: seq<Candle>)
    requires asOf1 <= asOf2 && Filter(a, KnownBefore(asOf1)) == Filter(b, KnownBefore(asOf1))
    requires IsReconstruction(symbol, a, tf, asOf1, early) && IsReconstruction(symbol, b, tf, asOf2, late)
    ensures early <= late
  {
    hide Windows, InWindow, CandleOf, Sort, Filter, KnownBefore, Increasing;
    var s, t := SortedWindows(a, tf, asOf1), SortedWindows(b, tf, asOf2);
    SortedWindowsAre(a, tf, asOf1);
    SortedWindowsAre(b, tf, asOf2);
    forall w ensures w in s <==> w in t && w <= asOf1 - Length(tf) {
      if w + Length(tf) <= asOf1 {
        ClosedKnown(a, b, tf, asOf1, w);
        Nonempty(a, b, tf, w);
      }
    }
    IncreasingPrefix(s, t, asOf1 - Length(tf));
    forall k | 0 <= k < |early| ensures early[k] == late[k] {
      assert s[k] in s;
      ClosedKnown(a, b, tf, asOf1, s[k]);
    }
  }

  lemma Nonempty(a: seq<Trade>, b: seq<Trade>, tf: Timeframe, w: int)
    requires Filter(a, InWindow(tf, w)) == Filter(b, InWindow(tf, w))
    ensures (exists t :: t in a && InWindow(tf, w)(t)) <==> (exists t :: t in b && InWindow(tf, w)(t))
  {
    assert forall t :: t in a && InWindow(tf, w)(t) ==> t in Filter(a, InWindow(tf, w));
    assert forall t :: t in b && InWindow(tf, w)(t) ==> t in Filter(b, InWindow(tf, w));
  }

  /** Trades whose time and number tell them apart may arrive in any order. */
  lemma OrderIrrelevant(symbol: Text, a: seq<Trade>, b: seq<Trade>, tf: Timeframe, asOfMs: int, x: seq<Candle>,
                        y: seq<Candle>)
    requires multiset(a) == multiset(b) && TiesAreEqual(a, Before)
    requires IsReconstruction(symbol, a, tf, asOfMs, x) && IsReconstruction(symbol, b, tf, asOfMs, y)
    ensures x == y
  {
    hide Windows, InWindow, CandleOf, Sort, Filter, Before, Increasing;
    var s, t := SortedWindows(a, tf, asOfMs), SortedWindows(b, tf, asOfMs);
    SortedWindowsAre(a, tf, asOfMs);
    SortedWindowsAre(b, tf, asOfMs);
    assert forall e :: e in a <==> e in multiset(a);
    assert forall e :: e in b <==> e in multiset(b);
    forall w ensures w in s <==> w in t && w <= asOfMs - Length(tf) {
    }
    IncreasingPrefix(s, t, asOfMs - Length(tf));
    IncreasingPrefix(t, s, asOfMs - Length(tf));
    forall k | 0 <= k < |x| ensures x[k] == y[k] {
      SameTrades(a, b, tf, s[k]);
    }
  }

  lemma SameTrades(a: seq<Trade>, b: seq<Trade>, tf: Timeframe, w: int)
    requires multiset(a) == multiset(b) && TiesAreEqual(a, Before)
    ensures WindowTrades(a, tf, w) == WindowTrades(b, tf, w)
  {
    hide InWindow, Before;
    FilterReorder(a, b, InWindow(tf, w));
    BeforeTotal();
    SortInvariant(Filter(a, InWindow(tf, w)), Filter(b, InWindow(tf, w)), Before);
  }

  // ---- conservation ----

  function TotalVolume(cs: seq<Candle>): real {
    if cs == [] then 0.0 else TotalVolume(cs[..|cs| - 1]) + cs[|cs| - 1].volume
  }

  function TotalAcc(cs: seq<Candle>): real {
    if cs == [] then 0.0 else TotalAcc(cs[..|cs| - 1]) + cs[|cs| - 1].acc_price
  }

  lemma {:induction false} AmountsMultiset(a: seq<Trade>, b: seq<Trade>)
    requires multiset(a) == multiset(b)
    ensures Volume(a) == Volume(b) && AccPrice(a) == AccPrice(b)
  {
    hide Volume, AccPrice;
    assert |multiset(a)| == |a| && |multiset(b)| == |b|;
    if a == [] {
      assert b == [];
    } else {
      var front, x := a[..|a| - 1], a[|a| - 1];
      assert a == front + [x];
      assert x in multiset(a) && x in b;
      var i := TakeOut(b, x);
      AmountsMultiset(front, b[..i] + b[i + 1..]);
      AmountsMiddle(b[..i], x, b[i + 1..]);
      AmountsMiddle(front, x, []);
      assert front + [x] + [] == a && front + [] == front;
    }
  }

  lemma {:induction false} AmountsConcat(a: seq<Trade>, b: seq<Trade>)
    ensures Volume(a + b) == Volume(a) + Volume(b) && AccPrice(a + b) == AccPrice(a) + AccPrice(b)
  {
    hide Turnover;
    if b == [] {
      assert a + b == a;
    } else {
      AmountsConcat(a, b[..|b| - 1]);
      assert (a + b)[..|a + b| - 1] == a + b[..|b| - 1];
    }
  }

  lemma AmountsMiddle(front: seq<Trade>, x: Trade, back: seq<Trade>)
    ensures Volume(front + [x] + back) == Volume(front + back) + x.volume
    ensures AccPrice(front + [x] + back) == AccPrice(front + back) + Turnover(x)
  {
    hide Volume, AccPrice, Turnover;
    AmountsConcat(front, [x]);
    AmountsConcat(front + [x], back);
    AmountsConcat(front, back);
    AmountsOne(x);
  }

  lemma AmountsOne(x: Trade)
    ensures Volume([x]) == x.volume && AccPrice([x]) == Turnover(x)
  {
    hide Turnover;
    assert [x][..0] == [];
  }

  /** The trades that fall into one of the given windows. */
  function InWindows(tf: Timeframe, ws: seq<int>): Trade -> bool {
    (t: Trade) => WindowStart(t.event_time_ms, Length(tf)) in ws
  }

  lemma {:induction false} SplitWindows(trades: seq<Trade>, tf: Timeframe, ws: seq<int>, w: int)
    requires w !in ws
    ensures Volume(Filter(trades, InWindows(tf, ws + [w])))
      == Volume(Filter(trades, InWindows(tf, ws))) + Volume(Filter(trades, InWindow(tf, w)))
    ensures AccPrice(Filter(trades, InWindows(tf, ws + [w])))
      == AccPrice(Filter(trades, InWindows(tf, ws))) + AccPrice(Filter(trades, InWindow(tf, w)))
  {
    hide Volume, AccPrice, InWindow, InWindows, Filter;
    if trades == [] {
      NothingFiltered(InWindows(tf, ws + [w]));
      NothingFiltered(InWindows(tf, ws));
      NothingFiltered(InWindow(tf, w));
    } else {
      var front, t := trades[..|trades| - 1], trades[|trades| - 1];
      SplitWindows(front, tf, ws, w);
      assert trades == front + [t];
      AddOne(front, t, InWindows(tf, ws + [w]));
      AddOne(front, t, InWindows(tf, ws));
      AddOne(front, t, InWindow(tf, w));
      OneOfTwo(t, tf, ws, w);
    }
  }

  lemma NothingFiltered(p: Trade -> bool)
    ensures Volume(Filter([], p)) == 0.0 && AccPrice(Filter([], p)) == 0.0
  {
  }

  lemma AddOne(front: seq<Trade>, t: Trade, p: Trade -> bool)
    ensures Volume(Filter(front + [t], p)) == Volume(Filter(front, p)) + if p(t) then t.volume else 0.0
    ensures AccPrice(Filter(front + [t], p)) == AccPrice(Filter(front, p)) + if p(t) then Turnover(t) else 0.0
  {
    hide Volume, AccPrice, Filter, Turnover;
    FilterSnoc(front, t, p);
    AmountsMiddle(Filter(front, p), t, []);
    assert Filter(front, p) + [t] + [] == Filter(front, p) + [t];
    assert Filter(front, p) + [] == Filter(front, p);
  }

  lemma OneOfTwo(t: Trade, tf: Timeframe, ws: seq<int>, w: int)
    requires w !in ws
    ensures InWindows(tf, ws + [w])(t) <==> InWindows(tf, ws)(t) || InWindow(tf, w)(t)
    ensures !(InWindows(tf, ws)(t) && InWindow(tf, w)(t))
  {
    hide WindowStart;
  }

  function ClosedAt(tf: Timeframe, asOfMs: int): Trade -> bool {
    (t: Trade) => Closed(t, tf, asOfMs)
  }

  lemma {:induction false} PrefixVolume(symbol: Text, trades: seq<Trade>, tf: Timeframe, asOfMs: int,
                                        out: seq<Candle>, k: nat)
    requires IsReconstruction(symbol, trades, tf, asOfMs, out) && k <= |out|
    ensures TotalVolume(out[..k]) == Volume(Filter(trades, InWindows(tf, SortedWindows(trades, tf, asOfMs)[..k])))
    ensures TotalAcc(out[..k]) == AccPrice(Filter(trades, InWindows(tf, SortedWindows(trades, tf, asOfMs)[..k])))
  {
    hide Windows, Sort, Filter, InWindow, InWindows, Volume, AccPrice, High, Low, Before;
    var ws := SortedWindows(trades, tf, asOfMs);
    if k == 0 {
      NoWindows(trades, tf);
      assert ws[..0] == [];
    } else {
      PrefixVolume(symbol, trades, tf, asOfMs, out, k - 1);
      assert out[..k][..k - 1] == out[..k - 1] && ws[..k] == ws[..k - 1] + [ws[k - 1]];
      NotListedBefore(trades, tf, asOfMs, k - 1);
      SplitWindows(trades, tf, ws[..k - 1], ws[k - 1]);
      WindowAmounts(trades, tf, ws[k - 1]);
    }
  }

  lemma NotListedBefore(trades: seq<Trade>, tf: Timeframe, asOfMs: int, k: nat)
    requires k < |SortedWindows(trades, tf, asOfMs)|
    ensures SortedWindows(trades, tf, asOfMs)[k] !in SortedWindows(trades, tf, asOfMs)[..k]
  {
    hide SortedWindows, Listed;
    SortedWindowsAre(trades, tf, asOfMs);
  }

  lemma WindowAmounts(trades: seq<Trade>, tf: Timeframe, w: int)
    ensures Volume(WindowTrades(trades, tf, w)) == Volume(Filter(trades, InWindow(tf, w)))
    ensures AccPrice(WindowTrades(trades, tf, w)) == AccPrice(Filter(trades, InWindow(tf, w)))
  {
    hide Before;
    BeforeTotal();
    SortCorrect(Filter(trades, InWindow(tf, w)), Before);
    AmountsMultiset(WindowTrades(trades, tf, w), Filter(trades, InWindow(tf, w)));
  }

  lemma NoWindows(trades: seq<Trade>, tf: Timeframe)
    ensures Volume(Filter(trades, InWindows(tf, []))) == 0.0 && AccPrice(Filter(trades, InWindows(tf, []))) == 0.0
  {
    FilterNone(trades, InWindows(tf, []));
  }

  /** Nothing traded in closed windows is lost or counted twice: the volumes of the
      candles sum up to those trades' volumes, and so do price times volume. */
  lemma VolumeConserved(symbol: Text, trades: seq<Trade>, tf: Timeframe, asOfMs: int, out: seq<Candle>)
    requires IsReconstruction(symbol, trades, tf, asOfMs, out)
    ensures TotalVolume(out) == Volume(Filter(trades, ClosedAt(tf, asOfMs)))
    ensures TotalAcc(out) == AccPrice(Filter(trades, ClosedAt(tf, asOfMs)))
  {
    hide Windows, Sort, Filter, Volume, AccPrice, High, Low, Before, WindowTrades;
    PrefixVolume(symbol, trades, tf, asOfMs, out, |out|);
    var ws := SortedWindows(trades, tf, asOfMs);
    assert out[..|out|] == out && ws[..|ws|] == ws;
    SortedWindowsAre(trades, tf, asOfMs);
    forall t | t in trades ensures InWindows(tf, ws)(t) == ClosedAt(tf, asOfMs)(t) {
      var w := WindowStart(t.event_time_ms, Length(tf));
      assert w in ws <==> Listed(trades, tf, asOfMs, w);
      assert InWindow(tf, w)(t);
    }
    FilterSame(trades, InWindows(tf, ws), ClosedAt(tf, asOfMs));
  }
}
