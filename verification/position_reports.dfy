/** What the comparison of two position reports, as joined texts, really compares. */
module PositionReports {
  import opened Texts
  import opened Sequences
  import opened Sorting
  import opened CanonicalJson
  import JsonReader
  import opened RiskCore

  const BAR: CodeUnit := 0x7C
  const COLON: CodeUnit := 0x3A

  /** One line of a report. */
  function Line(c: Config, p: Position): Text {
    p.symbol + [COLON] + TemplateText(c.number(p.qty))
  }

  function Lines(c: Config, ps: seq<Position>): seq<Text> {
    Map(ps, (p: Position) => Line(c, p))
  }

  /** What a position says: its symbol and its quantity as printed. */
  function Holding(c: Config, p: Position): (Text, Text) {
    (p.symbol, TemplateText(c.number(p.qty)))
  }

  function Holdings(c: Config, ps: seq<Position>): seq<(Text, Text)> {
    Map(ps, (p: Position) => Holding(c, p))
  }

  /** No symbol begins with a line of whatever position and a bar behind it; symbols without
      bars never do, and most with bars do not either. */
  ghost predicate Unsplit(c: Config, ps: seq<Position>) {
    forall p, q :: p in ps ==> !(Line(c, q) + [BAR] <= p.symbol)
  }

  lemma BarFreeUnsplit(c: Config, ps: seq<Position>)
    requires forall p :: p in ps ==> BAR !in p.symbol
    ensures Unsplit(c, ps)
  {
    hide Line;
    forall p, q | p in ps ensures !(Line(c, q) + [BAR] <= p.symbol) {
      if Line(c, q) + [BAR] <= p.symbol {
        BarInside(Line(c, q), p.symbol);
      }
    }
  }

  lemma BarInside(x: Text, y: Text)
    requires x + [BAR] <= y
    ensures BAR in y
  {
    assert y[|x|] == BAR;
  }

  lemma TemplateTextPlain(n: Printable)
    ensures BAR !in TemplateText(n) && COLON !in TemplateText(n)
  {
    hide MagnitudeText;
    match n
    case NaN =>
    case Infinite(_) =>
    case Zero(_) =>
    case Finite(_, digits, point) => JsonReader.MagnitudeUnits(digits, point);
  }

  /** A line tells symbol and quantity, whatever the symbol contains. */
  lemma LineInjective(c: Config, p: Position, q: Position)
    requires Line(c, p) == Line(c, q)
    ensures Holding(c, p) == Holding(c, q)
  {
    hide TemplateText;
    TemplateTextPlain(c.number(p.qty));
    TemplateTextPlain(c.number(q.qty));
    SplitAtLast(p.symbol, TemplateText(c.number(p.qty)), q.symbol, TemplateText(c.number(q.qty)), COLON);
  }

  /** No text is empty, or begins a text of the other list with a bar behind it. */
  ghost predicate Apart(a: seq<Text>, b: seq<Text>) {
    && (forall x :: x in a ==> x != []) && (forall y :: y in b ==> y != [])
    && forall x, y :: x in a && y in b ==> !(x + [BAR] <= y) && !(y + [BAR] <= x)
  }

  /** Joined with bars, lists of texts that keep apart can be told apart again. */
  lemma {:induction false} JoinInjective(a: seq<Text>, b: seq<Text>)
    requires Apart(a, b) && JoinBars(a) == JoinBars(b)
    ensures a == b
  {
    hide JoinBars;
    JoinNothing(a);
    JoinNothing(b);
    if a != [] {
      SameFirst(a, b);
      JoinStart(a);
      JoinStart(b);
      if |a| >= 2 {
        ApartTails(a, b);
        JoinInjective(a[1..], b[1..]);
      }
      assert a == [a[0]] + a[1..] && b == [b[0]] + b[1..];
    }
  }

  lemma SameFirst(a: seq<Text>, b: seq<Text>)
    requires Apart(a, b) && a != [] && b != [] && JoinBars(a) == JoinBars(b)
    ensures a[0] == b[0]
  {
    hide JoinBars;
    var x, y, joined := a[0], b[0], JoinBars(a);
    assert x in a && y in b;
    JoinStart(a);
    JoinStart(b);
    if |x| < |y| {
      FirstBegins(a, b);
    } else if |y| < |x| {
      FirstBegins(b, a);
    }
  }

  lemma FirstBegins(a: seq<Text>, b: seq<Text>)
    requires a != [] && b != [] && JoinBars(a) == JoinBars(b) && |a[0]| < |b[0]|
    ensures a[0] + [BAR] <= b[0]
  {
    hide JoinBars;
    var x, y, joined := a[0], b[0], JoinBars(a);
    JoinStart(a);
    JoinStart(b);
    assert x + [BAR] == joined[..|x| + 1] == y[..|x| + 1];
  }

  lemma ApartTails(a: seq<Text>, b: seq<Text>)
    requires Apart(a, b) && a != [] && b != []
    ensures Apart(a[1..], b[1..])
  {
    assert (forall x :: x in a[1..] ==> x in a) && forall y :: y in b[1..] ==> y in b;
  }

  /** A joined list starts with its first text, and goes on with a bar if at all. */
  lemma JoinStart(a: seq<Text>)
    requires a != []
    ensures var joined := JoinBars(a);
      && |a[0]| <= |joined| && joined[..|a[0]|] == a[0]
      && (|a| == 1 <==> |joined| == |a[0]|)
      && (|a| >= 2 ==> a[0] + [BAR] <= joined && joined[|a[0]| + 1..] == JoinBars(a[1..]))
  {
  }

  lemma JoinNothing(a: seq<Text>)
    requires forall x :: x in a ==> x != []
    ensures JoinBars(a) == [] <==> a == []
  {
    if a != [] {
      assert a[0] in a;
    }
  }

  lemma LinesApart(c: Config, ours: seq<Position>, theirs: seq<Position>)
    requires Unsplit(c, ours) && Unsplit(c, theirs)
    ensures Apart(Sort(Lines(c, ours), Le), Sort(Lines(c, theirs), Le))
  {
    hide Line, Le, Sort, Unsplit;
    TextOrder(Lines(c, ours));
    SortMembers(Lines(c, ours), Le);
    SortMembers(Lines(c, theirs), Le);
    LinesNotEmpty(c, ours);
    LinesNotEmpty(c, theirs);
    forall x, y | x in Lines(c, ours) && y in Lines(c, theirs) ensures !(x + [BAR] <= y) && !(y + [BAR] <= x) {
      var i :| 0 <= i < |ours| && Lines(c, ours)[i] == x;
      var j :| 0 <= j < |theirs| && Lines(c, theirs)[j] == y;
      NotInside(c, ours, ours[i], theirs[j]);
      NotInside(c, theirs, theirs[j], ours[i]);
    }
  }

  lemma LinesNotEmpty(c: Config, ps: seq<Position>)
    ensures forall x :: x in Lines(c, ps) ==> x != []
  {
    hide TemplateText;
    forall x | x in Lines(c, ps) ensures x != [] {
      var i :| 0 <= i < |ps| && Lines(c, ps)[i] == x;
    }
  }

  /** A line that begins another one with a bar behind it begins its symbol. */
  lemma InsideSymbol(c: Config, p: Position, x: Text)
    requires x + [BAR] <= Line(c, p)
    ensures x + [BAR] <= p.symbol
  {
    hide TemplateText;
    TemplateTextPlain(c.number(p.qty));
    assert Line(c, p)[|x|] == BAR;
  }

  lemma NotInside(c: Config, ps: seq<Position>, p: Position, q: Position)
    requires Unsplit(c, ps) && p in ps
    ensures !(Line(c, q) + [BAR] <= Line(c, p))
  {
    hide Line;
    if Line(c, q) + [BAR] <= Line(c, p) {
      InsideSymbol(c, p, Line(c, q));
    }
  }

  /** Reports agree exactly when their sorted lines are the same. */
  lemma AgreeByLines(c: Config, ours: seq<Position>, theirs: seq<Position>)
    requires Unsplit(c, ours) && Unsplit(c, theirs)
    ensures PositionsAgree(c, ours, theirs) <==> multiset(Lines(c, ours)) == multiset(Lines(c, theirs))
  {
    hide Line, Le, Sort, JoinBars, TotalPreorder, TiesAreEqual, Apart, Unsplit;
    LinesApart(c, ours, theirs);
    TextOrder(Lines(c, ours));
    SortCorrect(Lines(c, ours), Le);
    SortCorrect(Lines(c, theirs), Le);
    PositionLines(c, ours);
    PositionLines(c, theirs);
    if PositionsAgree(c, ours, theirs) {
      JoinInjective(Sort(Lines(c, ours), Le), Sort(Lines(c, theirs), Le));
    }
    if multiset(Lines(c, ours)) == multiset(Lines(c, theirs)) {
      SortInvariant(Lines(c, ours), Lines(c, theirs), Le);
    }
  }

  lemma PositionLines(c: Config, ps: seq<Position>)
    ensures PositionsText(c, ps) == Sort(Lines(c, ps), Le)
  {
    hide Sort, Le, TemplateText;
    assert Map(ps, (p: Position) => p.symbol + [0x3A] + TemplateText(c.number(p.qty))) == Lines(c, ps);
  }

  /** Two reports in which no symbol begins like a line agree exactly when they hold the same
      symbols in the same quantities, equally often and in any order. */
  lemma AgreeExactly(c: Config, ours: seq<Position>, theirs: seq<Position>)
    requires Unsplit(c, ours) && Unsplit(c, theirs)
    ensures PositionsAgree(c, ours, theirs) <==> multiset(Holdings(c, ours)) == multiset(Holdings(c, theirs))
  {
    hide PositionsAgree, TemplateText, Unsplit;
    AgreeByLines(c, ours, theirs);
    var joined := (h: (Text, Text)) => h.0 + [COLON] + h.1;
    assert Lines(c, ours) == Map(Holdings(c, ours), joined);
    assert Lines(c, theirs) == Map(Holdings(c, theirs), joined);
    if multiset(Holdings(c, ours)) == multiset(Holdings(c, theirs)) {
      MapReorder(Holdings(c, ours), Holdings(c, theirs), joined);
    }
    if multiset(Lines(c, ours)) == multiset(Lines(c, theirs)) {
      HoldingsInjective(c, ours, theirs, joined);
      MapReorderBack(Holdings(c, ours), Holdings(c, theirs), joined);
    }
  }

  lemma HoldingsInjective(c: Config, ours: seq<Position>, theirs: seq<Position>, joined: ((Text, Text)) -> Text)
    requires forall h :: joined(h) == h.0 + [COLON] + h.1
    ensures forall x, y ::
      (x in Holdings(c, ours) + Holdings(c, theirs) && y in Holdings(c, ours) + Holdings(c, theirs) && joined(x) == joined(y))
      ==> x == y
  {
    hide TemplateText;
    var all := ours + theirs;
    assert Holdings(c, ours) + Holdings(c, theirs) == Holdings(c, all);
    forall x, y | x in Holdings(c, all) && y in Holdings(c, all) && joined(x) == joined(y) ensures x == y {
      var i :| 0 <= i < |all| && Holdings(c, all)[i] == x;
      var j :| 0 <= j < |all| && Holdings(c, all)[j] == y;
      LineInjective(c, all[i], all[j]);
    }
  }

  /** With a bar in a symbol two different reports can agree: one position may read like two. */
  lemma BarsHideMismatch(c: Config, one: real, two: real)
    ensures var a, b := Position([0x41], one, 0.0), Position([0x42], two, 0.0);
      var ab := Position([0x41, COLON] + TemplateText(c.number(one)) + [BAR, 0x42], two, 0.0);
      PositionsAgree(c, [a, b], [ab])
  {
    hide TemplateText, Sort, Le, JoinBars;
    var a, b := Position([0x41], one, 0.0), Position([0x42], two, 0.0);
    var ab := Position([0x41, COLON] + TemplateText(c.number(one)) + [BAR, 0x42], two, 0.0);
    PositionLines(c, [a, b]);
    PositionLines(c, [ab]);
    assert Lines(c, [a, b]) == [Line(c, a), Line(c, b)] && Lines(c, [ab]) == [Line(c, ab)];
    SortOfTwo(Line(c, a), Line(c, b));
    SortOfOne(Line(c, ab));
    JoinOfTwo(Line(c, a), Line(c, b));
    JoinOfOne(Line(c, ab));
    Regrouped(TemplateText(c.number(one)), TemplateText(c.number(two)));
  }

  lemma JoinOfOne(x: Text)
    ensures JoinBars([x]) == x
  {
  }

  lemma JoinOfTwo(x: Text, y: Text)
    ensures JoinBars([x, y]) == x + [BAR] + y
  {
    assert [x, y][1..] == [y];
  }

  lemma Regrouped(m: Text, n: Text)
    ensures [0x41] + [COLON] + m + [BAR] + ([0x42] + [COLON] + n) == [0x41, COLON] + m + [BAR, 0x42] + [COLON] + n
  {
    assert [0x41] + [COLON] == [0x41, COLON];
    assert [BAR] + [0x42] == [BAR, 0x42];
  }

  lemma SortOfOne(x: Text)
    ensures Sort([x], Le) == [x]
  {
    hide Le;
    TextOrder([x]);
    SortCorrect([x], Le);
    SortMembers([x], Le);
    assert Sort([x], Le)[0] in Sort([x], Le);
  }

  lemma SortOfTwo(x: Text, y: Text)
    requires Le(x, y)
    ensures Sort([x, y], Le) == [x, y]
  {
    TextOrder([x, y]);
    SortCorrect([x, y], Le);
    SortedUnique([x, y], Sort([x, y], Le), Le);
  }

  // ---- which reports can be misread ----

  /** The position reads like another one, `q`, and the rest of it behind a bar. */
  predicate SplitsOff(c: Config, p: Position, q: Position, rest: Text) {
    p.symbol == Line(c, q) + [BAR] + rest && Le(Line(c, q), Line(c, p.(symbol := rest)))
  }

  ghost predicate Splits(c: Config, p: Position) {
    exists q, rest :: SplitsOff(c, p, q, rest)
  }

  /** A report that holds something else and agrees nevertheless. */
  ghost predicate Misread(c: Config, ours: seq<Position>, theirs: seq<Position>) {
    PositionsAgree(c, ours, theirs) && multiset(Holdings(c, ours)) != multiset(Holdings(c, theirs))
  }

  lemma {:induction false} JoinSnoc(ts: seq<Text>, x: Text)
    requires ts != []
    ensures JoinBars(ts + [x]) == JoinBars(ts) + [BAR] + x
  {
    if |ts| == 1 {
      assert (ts + [x])[1..] == [x];
    } else {
      JoinSnoc(ts[1..], x);
      assert (ts + [x])[1..] == ts[1..] + [x];
    }
  }

  /** A joined report ends in its last line and starts with its first. */
  lemma JoinEnds(ts: seq<Text>) returns (front: Text, back: Text)
    requires ts != []
    ensures JoinBars(ts) == front + ts[|ts| - 1] == ts[0] + back
  {
    if |ts| == 1 {
      front, back := [], [];
    } else {
      var n := |ts| - 1;
      JoinSnoc(ts[..n], ts[n]);
      assert ts[..n] + [ts[n]] == ts;
      front, back := JoinBars(ts[..n]) + [BAR], [BAR] + JoinBars(ts[1..]);
    }
  }

  lemma {:induction false} PrefixLe(a: Text, b: Text)
    ensures Le(a, a + b)
  {
    if a != [] {
      PrefixLe(a[1..], b);
      assert (a + b)[1..] == a[1..] + b;
    }
  }

  lemma SortedLines(c: Config, ps: seq<Position>)
    ensures |PositionsText(c, ps)| == |ps| && Sorted(PositionsText(c, ps), Le)
  {
    hide Line, Sort, Le, Sorted, TotalPreorder, PositionsText;
    PositionLines(c, ps);
    TextOrder(Lines(c, ps));
    SortCorrect(Lines(c, ps), Le);
  }

  /** The position that a sorted line is of. */
  lemma LineOf(c: Config, ps: seq<Position>, i: nat) returns (p: Position)
    requires i < |PositionsText(c, ps)|
    ensures p in ps && PositionsText(c, ps)[i] == Line(c, p)
  {
    hide Line, Sort, Le, TotalPreorder, PositionsText;
    PositionLines(c, ps);
    TextOrder(Lines(c, ps));
    SortMembers(Lines(c, ps), Le);
    assert PositionsText(c, ps)[i] in Lines(c, ps);
    var k :| 0 <= k < |ps| && Lines(c, ps)[k] == PositionsText(c, ps)[i];
    p := ps[k];
  }

  lemma OneLine(c: Config, p: Position)
    ensures PositionsText(c, [p]) == [Line(c, p)]
    ensures Holdings(c, [p]) == [Holding(c, p)]
  {
    hide Line, Sort, Le, PositionsText, Holding;
    PositionLines(c, [p]);
    assert Lines(c, [p]) == [Line(c, p)];
    SortOfOne(Line(c, p));
  }

  /** Two or more positions read like a single one. */
  lemma SeveralReadLikeOne(c: Config, ours: seq<Position>) returns (theirs: seq<Position>)
    requires |ours| >= 2
    ensures Misread(c, ours, theirs)
  {
    hide PositionsText, TemplateText, JoinBars, Le, Sorted;
    SortedLines(c, ours);
    var ls := PositionsText(c, ours);
    var n := |ls| - 1;
    var p := LineOf(c, ours, n);
    JoinSnoc(ls[..n], ls[n]);
    assert ls[..n] + [ls[n]] == ls;
    var one := p.(symbol := JoinBars(ls[..n]) + [BAR] + p.symbol);
    assert Line(c, one) == JoinBars(ls[..n]) + [BAR] + Line(c, p);
    theirs := [one];
    OneLine(c, one);
    JoinOfOne(Line(c, one));
    assert |multiset(Holdings(c, ours))| == |ours| && |multiset(Holdings(c, theirs))| == 1;
  }

  lemma SplitReadsLikeTwo(c: Config, p: Position, q: Position, rest: Text) returns (theirs: seq<Position>)
    requires SplitsOff(c, p, q, rest)
    ensures Misread(c, [p], theirs)
  {
    hide PositionsText, TemplateText, JoinBars, Le, Sort;
    var r := p.(symbol := rest);
    theirs := [q, r];
    assert Line(c, p) == Line(c, q) + [BAR] + Line(c, r);
    OneLine(c, p);
    JoinOfOne(Line(c, p));
    PositionLines(c, theirs);
    assert Lines(c, theirs) == [Line(c, q), Line(c, r)];
    SortOfTwo(Line(c, q), Line(c, r));
    JoinOfTwo(Line(c, q), Line(c, r));
    assert |multiset(Holdings(c, [p]))| == 1 && |multiset(Holdings(c, theirs))| == 2;
  }

  /** A single position that reads like several splits into two. */
  lemma OneReadLikeSeveral(c: Config, p: Position, theirs: seq<Position>)
    requires PositionsAgree(c, [p], theirs) && |theirs| >= 2
    ensures Splits(c, p)
  {
    hide PositionsText, TemplateText, JoinBars, Le;
    OneLine(c, p);
    JoinOfOne(Line(c, p));
    SortedLines(c, theirs);
    var ls := PositionsText(c, theirs);
    var q := LineOf(c, theirs, 0);
    var last := LineOf(c, theirs, |ls| - 1);
    var front, back := JoinEnds(ls[1..]);
    JoinFirst(ls);
    var rest := front + last.symbol;
    var x, y := TemplateText(c.number(p.qty)), TemplateText(c.number(last.qty));
    assert JoinBars(ls[1..]) == rest + [COLON] + y;
    assert p.symbol + [COLON] + x == (ls[0] + [BAR] + rest) + [COLON] + y;
    TemplateTextPlain(c.number(p.qty));
    TemplateTextPlain(c.number(last.qty));
    SplitAtLast(p.symbol, x, ls[0] + [BAR] + rest, y, COLON);
    PrefixLe(ls[1], back);
    LeTransitive(ls[0], ls[1], ls[1] + back);
    assert SplitsOff(c, p, q, rest);
  }

  lemma JoinFirst(ts: seq<Text>)
    requires |ts| >= 2
    ensures JoinBars(ts) == ts[0] + [BAR] + JoinBars(ts[1..])
  {
  }

  lemma OnlyNothingReadsEmpty(c: Config, ps: seq<Position>)
    ensures JoinBars(PositionsText(c, ps)) == [] <==> ps == []
  {
    hide PositionsText, TemplateText, Le, Sorted;
    SortedLines(c, ps);
    if ps != [] {
      var p := LineOf(c, ps, 0);
      var front, back := JoinEnds(PositionsText(c, ps));
    }
  }

  /** A report agrees with one that holds something else exactly when it has two positions
      or more, or one that splits. */
  lemma MisreadExactly(c: Config, ours: seq<Position>)
    ensures (exists theirs :: Misread(c, ours, theirs)) <==> |ours| >= 2 || (|ours| == 1 && Splits(c, ours[0]))
  {
    hide PositionsText, Holdings, Line, JoinBars, SplitsOff;
    if |ours| >= 2 {
      var theirs := SeveralReadLikeOne(c, ours);
    } else if |ours| == 1 && Splits(c, ours[0]) {
      var q, rest :| SplitsOff(c, ours[0], q, rest);
      var theirs := SplitReadsLikeTwo(c, ours[0], q, rest);
      assert ours == [ours[0]];
    } else {
      forall theirs | PositionsAgree(c, ours, theirs) ensures multiset(Holdings(c, ours)) == multiset(Holdings(c, theirs)) {
        ReadRight(c, ours, theirs);
      }
    }
  }

  lemma ReadRight(c: Config, ours: seq<Position>, theirs: seq<Position>)
    requires PositionsAgree(c, ours, theirs)
    requires |ours| == 0 || (|ours| == 1 && !Splits(c, ours[0]))
    ensures multiset(Holdings(c, ours)) == multiset(Holdings(c, theirs))
  {
    hide PositionsText, Line, JoinBars, Splits, Holding;
    OnlyNothingReadsEmpty(c, ours);
    OnlyNothingReadsEmpty(c, theirs);
    if ours != [] {
      assert ours == [ours[0]];
      if |theirs| == 1 {
        assert theirs == [theirs[0]];
        OneLine(c, ours[0]);
        OneLine(c, theirs[0]);
        JoinOfOne(Line(c, ours[0]));
        JoinOfOne(Line(c, theirs[0]));
        LineInjective(c, ours[0], theirs[0]);
      } else {
        OneReadLikeSeveral(c, ours[0], theirs);
      }
    }
  }
}
