/** Paging candles backward from a server. */
module Backfill {
  import opened Sequences
  import opened Sorting
  import opened Candles

  /** The page a client returns for an end time; every end time is asked at most once. */
  type Client = int -> seq<Candle>

  function Earliest(page: seq<Candle>): int
    requires page != []
  {
    if |page| == 1 then page[0].open_time_ms
    else
      var front, last := Earliest(page[..|page| - 1]), page[|page| - 1].open_time_ms;
      if last < front then last else front
  }

  /** Everything that is fetched, page by page. */
  function Collect(client: Client, fromMs: int, cursor: int): seq<Candle>
    decreases cursor - fromMs
  {
    if cursor <= fromMs then []
    else
      var page := client(cursor);
      if page == [] then []
      else if Earliest(page) >= cursor then page
      else page + Collect(client, fromMs, Earliest(page))
  }

  predicate Earlier(a: Candle, b: Candle) {
    a.open_time_ms <= b.open_time_ms
  }

  function Backfilled(client: Client, fromMs: int, toMs: int): seq<Candle> {
    Sort(Filter(Collect(client, fromMs, toMs), (c: Candle) => c.open_time_ms >= fromMs), Earlier)
  }

  method MinOpen(page: seq<Candle>) returns (m: int)
    requires page != []
    ensures m == Earliest(page)
  {
    m := page[0].open_time_ms;
    for i := 1 to |page|
      invariant m == Earliest(page[..i])
    {
      assert page[..i + 1][..i] == page[..i];
      if page[i].open_time_ms < m {
        m := page[i].open_time_ms;
      }
    }
    assert page[..|page|] == page;
  }

  /** Ends against every client: the cursor only moves back. */
  method BackfillCandles(client: Client, fromMs: int, toMs: int) returns (r: seq<Candle>)
    ensures r == Backfilled(client, fromMs, toMs)
  {
    hide Earliest;
    var out: seq<Candle> := [];
    var cursor := toMs;
    ghost var all := Collect(client, fromMs, toMs);
    assert out + all == all;
    while cursor > fromMs
      invariant out + Collect(client, fromMs, cursor) == all
      decreases cursor - fromMs
    {
      var page := client(cursor);
      if page == [] {
        break;
      }
      var earliest := MinOpen(page);
      Appended(out, page, client, fromMs, cursor);
      out := out + page;
      if earliest >= cursor {
        break;
      }
      cursor := earliest;
    }
    assert out == all;
    r := Sort(Filter(out, (c: Candle) => c.open_time_ms >= fromMs), Earlier);
  }

  lemma Appended(out: seq<Candle>, page: seq<Candle>, client: Client, fromMs: int, cursor: int)
    requires cursor > fromMs && page == client(cursor) && page != []
    ensures Earliest(page) >= cursor ==> out + Collect(client, fromMs, cursor) == out + page
    ensures Earliest(page) < cursor ==>
      out + Collect(client, fromMs, cursor) == (out + page) + Collect(client, fromMs, Earliest(page))
  {
    hide Earliest;
    var rest := if Earliest(page) < cursor then Collect(client, fromMs, Earliest(page)) else [];
    assert out + (page + rest) == (out + page) + rest;
  }

  // ---- an honest server ----

  /** The page holds the latest candles before the end time, at most `count`, in any order. */
  ghost predicate LatestBefore(server: set<Candle>, toMs: int, count: nat, page: seq<Candle>) {
    && (forall c :: c in page ==> c in server && c.open_time_ms < toMs)
    && (forall i, j :: 0 <= i < j < |page| ==> page[i] != page[j])
    && |page| <= count
    && (forall c :: c in server && c.open_time_ms < toMs && c !in page ==>
          |page| == count && forall d :: d in page ==> c.open_time_ms < d.open_time_ms)
  }

  ghost predicate Honest(server: set<Candle>, client: Client, count: nat) {
    && (forall c, d :: c in server && d in server && c.open_time_ms == d.open_time_ms ==> c == d)
    && (forall toMs :: LatestBefore(server, toMs, count, client(toMs)))
  }

  lemma {:induction false} EarliestBounds(page: seq<Candle>)
    requires page != []
    ensures forall c :: c in page ==> Earliest(page) <= c.open_time_ms
    ensures exists c :: c in page && c.open_time_ms == Earliest(page)
  {
    var front, last := page[..|page| - 1], page[|page| - 1];
    assert page == front + [last];
    if |page| > 1 {
      EarliestBounds(front);
      var c :| c in front && c.open_time_ms == Earliest(front);
      assert c in page && last in page;
    } else {
      assert page[0] in page;
    }
  }

  /** One round fetches exactly what it should: nothing between the pages is skipped and
      nothing is fetched twice. */
  lemma {:induction false} CollectExact(server: set<Candle>, client: Client, count: nat, fromMs: int, cursor: int)
    requires Honest(server, client, count) && count >= 1
    ensures var all := Collect(client, fromMs, cursor);
      && (forall c :: c in all ==> c in server && c.open_time_ms < cursor)
      && (forall c :: c in server && fromMs <= c.open_time_ms < cursor ==> c in all)
      && (forall i, j :: 0 <= i < j < |all| ==> all[i] != all[j])
    decreases cursor - fromMs
  {
    if cursor > fromMs {
      var page := client(cursor);
      assert LatestBefore(server, cursor, count, page);
      if page != [] {
        EarliestBounds(page);
        var e := Earliest(page);
        CollectExact(server, client, count, fromMs, e);
        JoinPages(page, Collect(client, fromMs, e), e);
        forall c | c in server && fromMs <= c.open_time_ms < cursor && c !in page ensures c in Collect(client, fromMs, e) {
          var d :| d in page && d.open_time_ms == e;
        }
      }
    }
  }

  lemma JoinPages(page: seq<Candle>, rest: seq<Candle>, e: int)
    requires forall c :: c in page ==> e <= c.open_time_ms
    requires forall c :: c in rest ==> c.open_time_ms < e
    requires forall i, j :: 0 <= i < j < |page| ==> page[i] != page[j]
    requires forall i, j :: 0 <= i < j < |rest| ==> rest[i] != rest[j]
    ensures forall i, j :: 0 <= i < j < |page + rest| ==> (page + rest)[i] != (page + rest)[j]
  {
    var all := page + rest;
    forall i, j | 0 <= i < j < |all| ensures all[i] != all[j] {
      if i < |page| <= j {
        assert all[i] in page && all[j] in rest;
      }
    }
  }

  lemma EarlierTotal()
    ensures TotalPreorder(Earlier)
  {
  }

  lemma {:induction false} FilterDistinct<T(!new)>(s: seq<T>, p: T -> bool)
    requires forall i, j :: 0 <= i < j < |s| ==> s[i] != s[j]
    ensures forall i, j :: 0 <= i < j < |Filter(s, p)| ==> Filter(s, p)[i] != Filter(s, p)[j]
  {
    if s != [] {
      var front, last := s[..|s| - 1], s[|s| - 1];
      FilterDistinct(front, p);
      forall i | 0 <= i < |Filter(front, p)| ensures Filter(front, p)[i] != last {
        assert Filter(front, p)[i] in front;
      }
    }
  }

  /** Against an honest server and for every page size from one on, the result is exactly
      the server's candles between the two times, each once, in order. */
  lemma BackfillExact(server: set<Candle>, client: Client, count: nat, fromMs: int, toMs: int)
    requires Honest(server, client, count) && count >= 1
    ensures var r := Backfilled(client, fromMs, toMs);
      && (forall c :: c in r <==> c in server && fromMs <= c.open_time_ms < toMs)
      && (forall i, j :: 0 <= i < j < |r| ==> r[i].open_time_ms < r[j].open_time_ms)
  {
    hide Collect, LatestBefore;
    CollectExact(server, client, count, fromMs, toMs);
    var inRange := (c: Candle) => c.open_time_ms >= fromMs;
    var kept := Filter(Collect(client, fromMs, toMs), inRange);
    EarlierTotal();
    SortMembers(kept, Earlier);
    SortCorrect(kept, Earlier);
    FilterDistinct(Collect(client, fromMs, toMs), inRange);
    var r := Backfilled(client, fromMs, toMs);
    assert r == Sort(kept, Earlier);
    StrictlyOrdered(server, kept, r);
  }

  lemma StrictlyOrdered(server: set<Candle>, kept: seq<Candle>, r: seq<Candle>)
    requires multiset(r) == multiset(kept) && Sorted(r, Earlier)
    requires forall i, j :: 0 <= i < j < |kept| ==> kept[i] != kept[j]
    requires forall c, d :: c in kept && d in kept && c.open_time_ms == d.open_time_ms ==> c == d
    ensures forall i, j :: 0 <= i < j < |r| ==> r[i].open_time_ms < r[j].open_time_ms
  {
    DistinctKept(kept, r);
    forall i, j | 0 <= i < j < |r| ensures r[i].open_time_ms < r[j].open_time_ms {
      assert Earlier(r[i], r[j]);
      assert r[i] in multiset(r) && r[j] in multiset(r);
      assert r[i] in kept && r[j] in kept;
    }
  }

  /** A page size of zero fetches nothing, whatever the server holds. */
  lemma PageSizeZero(server: set<Candle>, client: Client, fromMs: int, toMs: int)
    requires Honest(server, client, 0)
    ensures Backfilled(client, fromMs, toMs) == []
  {
    assert LatestBefore(server, toMs, 0, client(toMs));
  }

  /** Whatever the server: a page that is empty or does not go back in time is the last one,
      and what it holds from the asked time on is kept; behind any other page the fetch goes
      on from the earliest time in it. */
  lemma PagesFollow(client: Client, fromMs: int, toMs: int)
    ensures toMs <= fromMs ==> Backfilled(client, fromMs, toMs) == []
    ensures fromMs < toMs ==>
      var (page, kept) := (client(toMs), (c: Candle) => c.open_time_ms >= fromMs);
      if page == [] || (forall c :: c in page ==> c.open_time_ms >= toMs) then
        multiset(Backfilled(client, fromMs, toMs)) == multiset(Filter(page, kept))
      else
        exists e :: EarliestOf(page, e)
          && multiset(Backfilled(client, fromMs, toMs)) == multiset(Filter(page, kept)) + multiset(Backfilled(client, fromMs, e))
  {
    var page, kept := client(toMs), (c: Candle) => c.open_time_ms >= fromMs;
    EarlierTotal();
    SortCorrect(Filter(Collect(client, fromMs, toMs), kept), Earlier);
    if fromMs < toMs && page != [] {
      var e := Earliest(page);
      EarliestBounds(page);
      SortCorrect(Filter(Collect(client, fromMs, e), kept), Earlier);
      FilterConcat(page, Collect(client, fromMs, e), kept);
      assert EarliestOf(page, e);
    }
  }

  ghost predicate EarliestOf(page: seq<Candle>, e: int) {
    (exists c :: c in page && c.open_time_ms == e) && forall c :: c in page ==> e <= c.open_time_ms
  }
}
